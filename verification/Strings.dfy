/** String operations the agent builds its keys from: joining fields, ordering, lower case and
    white-space cleaning, over ASCII. */
module Strings {

  // ---------------------------------------------------------------- joining fields

  /** strings.Join with a one-character separator. */
  function Join(sep: char, fields: seq<string>): string {
    if fields == [] then ""
    else if |fields| == 1 then fields[0]
    else fields[0] + [sep] + Join(sep, fields[1..])
  }

  /** The fields between separators. */
  function Split(sep: char, s: string): (fields: seq<string>)
    ensures |fields| >= 1
  {
    if s == "" then [""]
    else
      var rest := Split(sep, s[1..]);
      if s[0] == sep then [""] + rest else [[s[0]] + rest[0]] + rest[1..]
  }

  ghost predicate Separated(sep: char, fields: seq<string>) {
    forall i :: 0 <= i < |fields| ==> sep !in fields[i]
  }

  lemma {:induction false} SplitConcat(sep: char, a: string, b: string)
    ensures Split(sep, a + [sep] + b) == Split(sep, a) + Split(sep, b)
  {
    if a == "" {
      assert (a + [sep] + b)[1..] == b;
    } else {
      assert (a + [sep] + b)[1..] == a[1..] + [sep] + b;
      SplitConcat(sep, a[1..], b);
    }
  }

  lemma {:induction false} SplitSingle(sep: char, s: string)
    ensures |Split(sep, s)| == 1 <==> sep !in s
    ensures sep !in s ==> Split(sep, s) == [s]
  {
    if s != "" {
      SplitSingle(sep, s[1..]);
      assert s == [s[0]] + s[1..];
    }
  }

  /** Splitting undoes joining when no field contains the separator; otherwise there are more
      fields than were joined. */
  lemma {:induction false} SplitJoin(sep: char, fields: seq<string>)
    requires fields != []
    ensures |Split(sep, Join(sep, fields))| >= |fields|
    ensures |Split(sep, Join(sep, fields))| == |fields| <==> Separated(sep, fields)
    ensures Separated(sep, fields) ==> Split(sep, Join(sep, fields)) == fields
  {
    SplitSingle(sep, fields[0]);
    if |fields| > 1 {
      SplitConcat(sep, fields[0], Join(sep, fields[1..]));
      SplitJoin(sep, fields[1..]);
      assert fields == [fields[0]] + fields[1..];
      assert Separated(sep, fields) <==> sep !in fields[0] && Separated(sep, fields[1..]);
    }
  }

  /** A joined string determines its fields, given their number, as soon as one of the two
      field lists has no separator inside a field. */
  lemma JoinInjective(sep: char, a: seq<string>, b: seq<string>)
    requires |a| == |b| && a != [] && Separated(sep, a)
    ensures Join(sep, a) == Join(sep, b) ==> a == b
  {
    SplitJoin(sep, a);
    SplitJoin(sep, b);
  }

  lemma {:induction false} JoinConcat(sep: char, a: seq<string>, b: seq<string>)
    requires a != [] && b != []
    ensures Join(sep, a + b) == Join(sep, a) + [sep] + Join(sep, b)
  {
    if |a| == 1 {
      assert (a + b)[1..] == b;
    } else {
      assert (a + b)[1..] == a[1..] + b;
      JoinConcat(sep, a[1..], b);
    }
  }

  /** Regrouping: moving a piece that ends in a separator from one field to the next. */
  lemma JoinRegroup(sep: char, front: seq<string>, x: string, y: string, z: string, back: seq<string>)
    ensures Join(sep, front + [x + [sep] + y, z] + back) == Join(sep, front + [x, y + [sep] + z] + back)
  {
    var l, r := [x + [sep] + y, z], [x, y + [sep] + z];
    assert Join(sep, l) == x + [sep] + y + [sep] + z == Join(sep, r) by {
      assert l[1..] == [z] && r[1..] == [y + [sep] + z];
    }
    if back != [] {
      JoinConcat(sep, l, back);
      JoinConcat(sep, r, back);
    } else {
      assert l + back == l && r + back == r;
    }
    if front != [] {
      JoinConcat(sep, front, l + back);
      JoinConcat(sep, front, r + back);
      assert front + (l + back) == front + l + back && front + (r + back) == front + r + back;
    } else {
      assert front + l + back == l + back && front + r + back == r + back;
    }
  }

  ghost predicate Ambiguous(sep: char, fields: seq<string>) {
    exists other :: |other| == |fields| && other != fields && Join(sep, other) == Join(sep, fields)
  }

  /** A separator inside a field that is not the last can be moved to the next field. */
  lemma ShiftRight(sep: char, fields: seq<string>, i: nat, j: nat) returns (other: seq<string>)
    requires i + 1 < |fields| && j < |fields[i]| && fields[i][j] == sep
    ensures |other| == |fields| && other != fields && Join(sep, other) == Join(sep, fields)
  {
    var front, x, y, z, back := fields[..i], fields[i][..j], fields[i][j + 1..], fields[i + 1], fields[i + 2..];
    assert fields[i] == x + [sep] + y;
    assert fields == front + [x + [sep] + y, z] + back;
    other := front + [x, y + [sep] + z] + back;
    JoinRegroup(sep, front, x, y, z, back);
    assert |other[i]| < |fields[i]|;
  }

  /** A separator inside the last of several fields can be moved to the field before. */
  lemma ShiftLeft(sep: char, fields: seq<string>, j: nat) returns (other: seq<string>)
    requires |fields| >= 2 && j < |fields[|fields| - 1]| && fields[|fields| - 1][j] == sep
    ensures |other| == |fields| && other != fields && Join(sep, other) == Join(sep, fields)
  {
    var n := |fields| - 1;
    var front, x, y, z := fields[..n - 1], fields[n - 1], fields[n][..j], fields[n][j + 1..];
    assert fields[n] == y + [sep] + z;
    assert fields == front + [x, y + [sep] + z] + [];
    other := front + [x + [sep] + y, z] + [];
    JoinRegroup(sep, front, x, y, z, []);
    assert |other[n]| < |fields[n]|;
  }

  /** Exactly the field lists with a separator inside a field share their joined string with
      another list of the same length. */
  lemma AmbiguousIff(sep: char, fields: seq<string>)
    requires |fields| >= 2
    ensures Ambiguous(sep, fields) <==> !Separated(sep, fields)
  {
    if Separated(sep, fields) {
      forall other | |other| == |fields| && Join(sep, other) == Join(sep, fields) ensures other == fields {
        JoinInjective(sep, fields, other);
      }
    } else {
      var i :| 0 <= i < |fields| && sep in fields[i];
      var j :| 0 <= j < |fields[i]| && fields[i][j] == sep;
      if i + 1 < |fields| {
        var other := ShiftRight(sep, fields, i, j);
      } else {
        var other := ShiftLeft(sep, fields, j);
      }
    }
  }

  // ---------------------------------------------------------------- order

  /** Go's `<` on strings. */
  predicate Less(a: string, b: string) {
    b != "" && (a == "" || a[0] < b[0] || (a[0] == b[0] && Less(a[1..], b[1..])))
  }

  /** The strings agree up to some place, where the first one ends or has the smaller character. */
  ghost predicate DecidedAt(a: string, b: string, k: nat) {
    k <= |a| && k < |b| && a[..k] == b[..k] && (k == |a| || a[k] < b[k])
  }

  /** `<` is the order of the first difference, with a proper prefix before the longer string. */
  lemma {:induction false} LessIff(a: string, b: string)
    ensures Less(a, b) <==> exists k: nat :: DecidedAt(a, b, k)
  {
    forall k: nat | 0 < k <= |a| && k < |b| && a[..k] == b[..k] ensures a[0] == b[0] {
      assert a[..k][0] == b[..k][0];
    }
    if b != "" && (a == "" || a[0] < b[0]) {
      assert DecidedAt(a, b, 0);
    } else if a != "" && b != "" && a[0] == b[0] {
      LessIff(a[1..], b[1..]);
      forall k: nat | DecidedAt(a[1..], b[1..], k) ensures DecidedAt(a, b, k + 1) {
        assert a[..k + 1] == [a[0]] + a[1..][..k] && b[..k + 1] == [b[0]] + b[1..][..k];
      }
      forall k: nat | DecidedAt(a, b, k) ensures k > 0 && DecidedAt(a[1..], b[1..], k - 1) {
        assert a[1..][..k - 1] == a[..k][1..] && b[1..][..k - 1] == b[..k][1..];
      }
    } else {
      assert forall k: nat :: !DecidedAt(a, b, k);
    }
  }

  lemma {:induction false} LessTrichotomy(a: string, b: string)
    ensures Less(a, b) || a == b || Less(b, a)
    ensures !(Less(a, b) && Less(b, a))
    ensures a == b ==> !Less(a, b)
  {
    if a != "" && b != "" && a[0] == b[0] {
      LessTrichotomy(a[1..], b[1..]);
      assert a == [a[0]] + a[1..] && b == [b[0]] + b[1..];
    }
  }

  lemma {:induction false} LessTransitive(a: string, b: string, c: string)
    requires Less(a, b) && Less(b, c)
    ensures Less(a, c)
  {
    if a != "" && a[0] == b[0] && b[0] == c[0] { LessTransitive(a[1..], b[1..], c[1..]); }
  }

  lemma NotLessTransitive(a: string, b: string, c: string)
    ensures !Less(a, b) && !Less(b, c) ==> !Less(a, c)
  {
    LessTrichotomy(a, b);
    LessTrichotomy(b, c);
    LessTrichotomy(a, c);
    if !Less(a, b) && !Less(b, c) && Less(a, c) {
      if a != b && b != c { LessTransitive(c, b, a); }
    }
  }

  // ---------------------------------------------------------------- lower case

  function LowerChar(c: char): char {
    if 'A' <= c <= 'Z' then (c as int + 32) as char else c
  }

  function Lower(s: string): (r: string)
    ensures |r| == |s|
    ensures forall i :: 0 <= i < |s| ==> r[i] == LowerChar(s[i])
  {
    if s == "" then "" else [LowerChar(s[0])] + Lower(s[1..])
  }

  /** A capital letter becomes the small letter at its place in the alphabet, and no other character
      changes. */
  lemma LowerCharIs(c: char)
    ensures 'A' <= c <= 'Z' ==>
              'a' <= LowerChar(c) <= 'z' && LowerChar(c) as int - 'a' as int == c as int - 'A' as int
    ensures !('A' <= c <= 'Z') ==> LowerChar(c) == c
  {
  }

  // ---------------------------------------------------------------- white space

  predicate IsSpace(c: char) {
    c == ' ' || '\t' <= c <= '\r'
  }

  /** strings.Fields, with `word` the characters of the word being read: the maximal runs of
      characters that are not white space. */
  function FieldsFrom(word: string, s: string): seq<string>
    decreases |s|
  {
    if s == "" then (if word == "" then [] else [word])
    else if IsSpace(s[0]) then (if word == "" then [] else [word]) + FieldsFrom("", s[1..])
    else FieldsFrom(word + [s[0]], s[1..])
  }

  function Fields(s: string): seq<string> { FieldsFrom("", s) }

  function TrimLeft(s: string): string {
    if s != "" && IsSpace(s[0]) then TrimLeft(s[1..]) else s
  }

  function TrimRight(s: string): string {
    if s != "" && IsSpace(s[|s| - 1]) then TrimRight(s[..|s| - 1]) else s
  }

  function TrimSpace(s: string): string { TrimRight(TrimLeft(s)) }

  /** Words separated by single spaces, without white space at the ends. */
  function Clean(value: string): string { Join(' ', Fields(TrimSpace(value))) }

  ghost predicate IsWord(w: string) {
    w != "" && forall i :: 0 <= i < |w| ==> !IsSpace(w[i])
  }

  ghost predicate AreWords(words: seq<string>) {
    forall i :: 0 <= i < |words| ==> IsWord(words[i])
  }

  lemma {:induction false} FieldsAreWords(word: string, s: string)
    requires word == "" || IsWord(word)
    ensures AreWords(FieldsFrom(word, s))
    decreases |s|
  {
    if s != "" {
      if IsSpace(s[0]) { FieldsAreWords("", s[1..]); }
      else { FieldsAreWords(word + [s[0]], s[1..]); }
    }
  }

  /** Reading a word followed by the end or by a space yields it as one field. */
  lemma {:induction false} FieldsWord(word: string, w: string, rest: string)
    requires word + w != "" && (forall i :: 0 <= i < |w| ==> !IsSpace(w[i]))
    requires rest == "" || IsSpace(rest[0])
    ensures FieldsFrom(word, w + rest) ==
            [word + w] + (if rest == "" then [] else FieldsFrom("", rest[1..]))
    decreases |w|
  {
    if w == "" {
      assert w + rest == rest && word + w == word;
    } else {
      assert (w + rest)[0] == w[0] && (w + rest)[1..] == w[1..] + rest;
      assert word + [w[0]] + w[1..] == word + w;
      FieldsWord(word + [w[0]], w[1..], rest);
    }
  }

  /** The fields of words joined by single spaces are those words. */
  lemma {:induction false} FieldsJoin(words: seq<string>)
    requires AreWords(words)
    ensures Fields(Join(' ', words)) == words
  {
    if |words| == 1 {
      FieldsWord("", words[0], "");
      assert words[0] + "" == words[0] == "" + words[0];
    } else if |words| > 1 {
      var rest := " " + Join(' ', words[1..]);
      FieldsWord("", words[0], rest);
      assert words[0] + [' '] + Join(' ', words[1..]) == words[0] + rest;
      assert rest[1..] == Join(' ', words[1..]);
      FieldsJoin(words[1..]);
      assert "" + words[0] == words[0];
    }
  }

  /** Joined words start and end with a character that is not white space. */
  lemma {:induction false} JoinedEnds(words: seq<string>)
    requires AreWords(words) && words != []
    ensures var s := Join(' ', words); s != "" && !IsSpace(s[0]) && !IsSpace(s[|s| - 1])
  {
    assert IsWord(words[0]);
    if |words| > 1 { JoinedEnds(words[1..]); }
  }

  lemma CleanIdempotent(value: string)
    ensures Clean(Clean(value)) == Clean(value)
  {
    var words := Fields(TrimSpace(value));
    FieldsAreWords("", TrimSpace(value));
    if words != [] { JoinedEnds(words); }
    assert TrimSpace(Clean(value)) == Clean(value);
    FieldsJoin(words);
  }

  // ---------------------------------------------------------------- what cleaning keeps

  lemma SpacesAre(c: char)
    ensures IsSpace(c) <==> c in " \t\n\U{000B}\U{000C}\r"
  {
  }

  /** White space of any kind separates fields. */
  lemma {:induction false} FieldsSplit(word: string, a: string, c: char, b: string)
    requires IsSpace(c)
    ensures FieldsFrom(word, a + [c] + b) == FieldsFrom(word, a) + FieldsFrom("", b)
    decreases |a|
  {
    var s := a + [c] + b;
    if a == "" {
      assert s[0] == c && s[1..] == b;
    } else {
      assert s[0] == a[0] && s[1..] == a[1..] + [c] + b;
      FieldsSplit(if IsSpace(a[0]) then "" else word + [a[0]], a[1..], c, b);
    }
  }

  lemma {:induction false} TrimLeftKeepsFields(s: string)
    ensures Fields(TrimLeft(s)) == Fields(s)
  {
    if s != "" && IsSpace(s[0]) { TrimLeftKeepsFields(s[1..]); }
  }

  lemma {:induction false} TrimRightKeepsFields(s: string)
    ensures Fields(TrimRight(s)) == Fields(s)
  {
    if s != "" && IsSpace(s[|s| - 1]) {
      var n := |s| - 1;
      TrimRightKeepsFields(s[..n]);
      FieldsSplit("", s[..n], s[n], "");
      assert s == s[..n] + [s[n]] + "";
    }
  }

  /** Cleaning keeps the words and forgets the white space. */
  lemma CleanKeepsWords(s: string)
    ensures AreWords(Fields(s)) && Fields(Clean(s)) == Fields(s) && Clean(s) == Join(' ', Fields(s))
  {
    TrimLeftKeepsFields(s);
    TrimRightKeepsFields(TrimLeft(s));
    FieldsAreWords("", s);
    FieldsJoin(Fields(s));
  }

  /** Strings are cleaned to the same string exactly when they have the same words. */
  lemma SameCleanIff(a: string, b: string)
    ensures Clean(a) == Clean(b) <==> Fields(a) == Fields(b)
  {
    CleanKeepsWords(a);
    CleanKeepsWords(b);
  }

  lemma LowerKeepsSeparator(s: string)
    ensures '|' in Lower(s) <==> '|' in s
  {
    forall i | 0 <= i < |s| ensures Lower(s)[i] == '|' <==> s[i] == '|' {}
    if '|' in s {
      var i :| 0 <= i < |s| && s[i] == '|';
      assert Lower(s)[i] == '|';
    }
  }

  function Normalize(value: string): string { Lower(Clean(value)) }
}
