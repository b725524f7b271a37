/** When the deduplicated list does not depend on the order of the input. */
module InputOrder {
  import opened Sorting
  import opened Dedup
  import opened Canonical

  // ---------------------------------------------------------------- collecting from a list

  function Gather<T, U>(pick: T -> seq<U>, s: seq<T>): seq<U> {
    if s == [] then [] else Gather(pick, s[..|s| - 1]) + pick(s[|s| - 1])
  }

  lemma {:induction false} GatherConcat<T, U>(pick: T -> seq<U>, a: seq<T>, b: seq<T>)
    ensures Gather(pick, a + b) == Gather(pick, a) + Gather(pick, b)
    decreases |b|
  {
    if b == [] {
      assert a + b == a;
    } else {
      assert (a + b)[..|a + b| - 1] == a + b[..|b| - 1];
      GatherConcat(pick, a, b[..|b| - 1]);
    }
  }

  lemma GatherOne<T, U>(pick: T -> seq<U>, x: T)
    ensures Gather(pick, [x]) == pick(x)
  {
    assert [x][..0] == [];
  }

  lemma GatherAround<T, U>(pick: T -> seq<U>, s: seq<T>, k: nat)
    requires k < |s|
    ensures multiset(Gather(pick, s)) == multiset(pick(s[k])) + multiset(Gather(pick, s[..k] + s[k + 1..]))
  {
    hide Gather;
    var pre, post := s[..k], s[k + 1..];
    assert s == pre + ([s[k]] + post);
    GatherConcat(pick, pre, [s[k]] + post);
    GatherConcat(pick, [s[k]], post);
    GatherConcat(pick, pre, post);
    GatherOne(pick, s[k]);
  }

  lemma {:induction false} GatherPermutes<T, U>(pick: T -> seq<U>, a: seq<T>, b: seq<T>)
    requires multiset(a) == multiset(b)
    ensures multiset(Gather(pick, a)) == multiset(Gather(pick, b))
    decreases |a|
  {
    hide Gather;
    if a == [] {
      assert |multiset(b)| == 0;
      assert b == a;
    } else {
      assert a[0] in multiset(b);
      var k :| 0 <= k < |b| && b[k] == a[0];
      RemoveSame(a, b, k);
      GatherPermutes(pick, a[1..], b[..k] + b[k + 1..]);
      BothAround(pick, a, b, k);
    }
  }

  lemma BothAround<T, U>(pick: T -> seq<U>, a: seq<T>, b: seq<T>, k: nat)
    requires a != [] && k < |b| && b[k] == a[0]
    requires multiset(Gather(pick, a[1..])) == multiset(Gather(pick, b[..k] + b[k + 1..]))
    ensures multiset(Gather(pick, a)) == multiset(Gather(pick, b))
  {
    hide Gather;
    GatherAround(pick, a, 0);
    GatherAround(pick, b, k);
    assert a[..0] + a[1..] == a[1..];
  }

  ghost predicate AtMostOne<T(!new), U>(pick: T -> seq<U>) { forall x :: |pick(x)| <= 1 }

  /** The elements that yield nothing, and the others. */
  lemma {:induction false} Split<T(!new), U>(pick: T -> seq<U>, s: seq<T>) returns (rest: seq<T>, chosen: seq<T>)
    requires AtMostOne(pick)
    ensures multiset(rest + chosen) == multiset(s)
    ensures Gather(pick, rest) == [] && Gather(pick, chosen) == Gather(pick, s)
    ensures forall x :: x in chosen ==> |pick(x)| == 1
  {
    rest, chosen := [], [];
    if s != [] {
      var front, last := s[..|s| - 1], s[|s| - 1];
      rest, chosen := Split(pick, front);
      if pick(last) == [] {
        LastRests(pick, s, rest, chosen);
        rest := rest + [last];
      } else {
        LastChosen(pick, s, rest, chosen);
        chosen := chosen + [last];
      }
    }
  }

  lemma LastRests<T, U>(pick: T -> seq<U>, s: seq<T>, rest: seq<T>, chosen: seq<T>)
    requires s != [] && multiset(rest + chosen) == multiset(s[..|s| - 1]) && pick(s[|s| - 1]) == []
    ensures multiset(rest + [s[|s| - 1]] + chosen) == multiset(s)
    ensures Gather(pick, rest + [s[|s| - 1]]) == Gather(pick, rest) && Gather(pick, s) == Gather(pick, s[..|s| - 1])
  {
    hide Gather;
    var front, last := s[..|s| - 1], [s[|s| - 1]];
    assert s == front + last;
    GatherConcat(pick, rest, last);
    GatherConcat(pick, front, last);
    GatherOne(pick, s[|s| - 1]);
  }

  lemma LastChosen<T, U>(pick: T -> seq<U>, s: seq<T>, rest: seq<T>, chosen: seq<T>)
    requires s != [] && multiset(rest + chosen) == multiset(s[..|s| - 1])
    requires Gather(pick, chosen) == Gather(pick, s[..|s| - 1])
    ensures multiset(rest + (chosen + [s[|s| - 1]])) == multiset(s)
    ensures Gather(pick, chosen + [s[|s| - 1]]) == Gather(pick, s)
  {
    hide Gather;
    var front, last := s[..|s| - 1], [s[|s| - 1]];
    assert s == front + last;
    assert rest + (chosen + last) == rest + chosen + last;
    GatherConcat(pick, chosen, last);
    GatherConcat(pick, front, last);
    GatherOne(pick, s[|s| - 1]);
  }

  /** Every arrangement of what is gathered is gathered from an arrangement of the elements. */
  lemma {:induction false} Rearrange<T(!new), U>(pick: T -> seq<U>, s: seq<T>, b: seq<U>) returns (t: seq<T>)
    requires forall x :: x in s ==> |pick(x)| == 1
    requires multiset(Gather(pick, s)) == multiset(b)
    ensures multiset(t) == multiset(s) && Gather(pick, t) == b
    decreases |s|
  {
    t := [];
    if s == [] {
      assert |multiset(b)| == 0;
    } else {
      var k := Source(pick, s, b);
      var less := s[..k] + s[k + 1..];
      OneTaken(pick, s, b, k);
      t := Rearrange(pick, less, b[1..]);
      OnePut(pick, s, k, t);
      t := [s[k]] + t;
    }
  }

  lemma OneTaken<T(!new), U>(pick: T -> seq<U>, s: seq<T>, b: seq<U>, k: nat)
    requires k < |s| && b != [] && pick(s[k]) == [b[0]] && multiset(Gather(pick, s)) == multiset(b)
    ensures multiset(Gather(pick, s[..k] + s[k + 1..])) == multiset(b[1..]) && b == [b[0]] + b[1..]
  {
    hide Gather;
    GatherAround(pick, s, k);
    FirstRemoved(b, Gather(pick, s), Gather(pick, s[..k] + s[k + 1..]));
  }

  lemma OnePut<T, U>(pick: T -> seq<U>, s: seq<T>, k: nat, t: seq<T>)
    requires k < |s| && multiset(t) == multiset(s[..k] + s[k + 1..])
    ensures multiset([s[k]] + t) == multiset(s) && Gather(pick, [s[k]] + t) == pick(s[k]) + Gather(pick, t)
  {
    hide Gather;
    assert s == s[..k] + [s[k]] + s[k + 1..];
    GatherConcat(pick, [s[k]], t);
    GatherOne(pick, s[k]);
  }

  lemma FirstRemoved<U>(b: seq<U>, all: seq<U>, others: seq<U>)
    requires b != [] && multiset(all) == multiset(b) && multiset(all) == multiset([b[0]]) + multiset(others)
    ensures multiset(others) == multiset(b[1..]) && b == [b[0]] + b[1..]
  {
    assert b == [b[0]] + b[1..];
    assert multiset(b[1..]) == multiset(b) - multiset{b[0]};
    assert multiset(others) == multiset(all) - multiset{b[0]};
  }

  /** The first of what is gathered comes from some element. */
  lemma Source<T(!new), U>(pick: T -> seq<U>, s: seq<T>, b: seq<U>) returns (k: nat)
    requires s != [] && (forall x :: x in s ==> |pick(x)| == 1)
    requires multiset(Gather(pick, s)) == multiset(b)
    ensures b != [] && k < |s| && pick(s[k]) == [b[0]]
  {
    GatherAround(pick, s, 0);
    assert |multiset(Gather(pick, s))| > 0;
    assert b != [];
    assert b[0] in multiset(Gather(pick, s));
    k := SourceOf(pick, s, b[0]);
  }

  lemma {:induction false} SourceOf<T(!new), U>(pick: T -> seq<U>, s: seq<T>, y: U) returns (k: nat)
    requires (forall x :: x in s ==> |pick(x)| == 1) && y in Gather(pick, s)
    ensures k < |s| && pick(s[k]) == [y]
  {
    var front, last := s[..|s| - 1], s[|s| - 1];
    if y in pick(last) {
      k := |s| - 1;
    } else {
      k := SourceOf(pick, front, y);
    }
  }

  // ---------------------------------------------------------------- classes of raw items

  /** The record of fingerprint `f` an item contributes, if any. */
  function Contributes<T>(r: Rules<T>, norm: T -> T, named: T -> bool, f: string): T -> seq<T> {
    (x: T) => if named(norm(x)) && r.fingerprint(norm(x)) == f then [norm(x)] else []
  }

  lemma ClassExtends<T>(r: Rules<T>, records: seq<T>, x: T, f: string)
    ensures ClassOf(r, records + [x], f) == ClassOf(r, records, f) + if r.fingerprint(x) == f then [x] else []
  {
    assert (records + [x])[..|records|] == records;
  }

  lemma {:induction false} ClassIsGathered<T>(r: Rules<T>, norm: T -> T, named: T -> bool, items: seq<T>, f: string)
    ensures ClassOf(r, Admit(norm, named, items), f) == Gather(Contributes(r, norm, named, f), items)
  {
    if items != [] {
      var front, item := items[..|items| - 1], norm(items[|items| - 1]);
      ClassIsGathered(r, norm, named, front, f);
      ClassExtends(r, Admit(norm, named, front), item, f);
      assert Admit(norm, named, front) + [] == Admit(norm, named, front);
    }
  }

  /** Every fingerprint among the records has one best record. */
  ghost predicate OneBestEach<T>(r: Rules<T>, records: seq<T>) {
    forall f :: ClassOf(r, records, f) != [] ==> HasOneBest(r, ClassOf(r, records, f))
  }

  lemma SameKept<T(!new)>(r: Rules<T>, norm: T -> T, named: T -> bool, items: seq<T>, items': seq<T>)
    requires multiset(items') == multiset(items) && OneBestEach(r, Admit(norm, named, items))
    ensures Kept(r, Admit(norm, named, items')) == Kept(r, Admit(norm, named, items))
  {
    var u, v := Admit(norm, named, items), Admit(norm, named, items');
    forall f
      ensures f in Kept(r, u) <==> f in Kept(r, v)
      ensures f in Kept(r, u) ==> Kept(r, u)[f] == Kept(r, v)[f]
    {
      SameWinner(r, norm, named, items, items', f);
    }
  }

  lemma SameWinner<T(!new)>(r: Rules<T>, norm: T -> T, named: T -> bool, items: seq<T>, items': seq<T>, f: string)
    requires multiset(items') == multiset(items) && OneBestEach(r, Admit(norm, named, items))
    ensures var u, v := Kept(r, Admit(norm, named, items)), Kept(r, Admit(norm, named, items'));
            (f in u <==> f in v) && (f in u ==> u[f] == v[f])
  {
    var u, v := Admit(norm, named, items), Admit(norm, named, items');
    var c, d := ClassOf(r, u, f), ClassOf(r, v, f);
    KeptIsWinner(r, u, f);
    KeptIsWinner(r, v, f);
    ClassIsGathered(r, norm, named, items, f);
    ClassIsGathered(r, norm, named, items', f);
    GatherPermutes(Contributes(r, norm, named, f), items, items');
    hide Kept, Admit, ClassOf, Gather, Winner;
    assert c == [] <==> |multiset(c)| == 0;
    assert d == [] <==> |multiset(d)| == 0;
    if c != [] { OneBestWins(r, c, d); }
  }

  /** A class without one best record is kept differently for some order of the items. */
  lemma KeptDiffers<T(!new)>(r: Rules<T>, norm: T -> T, named: T -> bool, items: seq<T>, f: string)
    returns (items': seq<T>)
    requires ClassOf(r, Admit(norm, named, items), f) != []
    requires !HasOneBest(r, ClassOf(r, Admit(norm, named, items), f))
    ensures multiset(items') == multiset(items)
    ensures var u, v := Kept(r, Admit(norm, named, items)), Kept(r, Admit(norm, named, items'));
            f in u && f in v && u[f] != v[f]
  {
    var c := ClassOf(r, Admit(norm, named, items), f);
    DeterminedIff(r, c);
    var b :| b != [] && multiset(b) == multiset(c) && Winner(r, b) != Winner(r, c);
    items' := WithClass(r, norm, named, items, f, b);
    KeptIsWinner(r, Admit(norm, named, items), f);
    KeptIsWinner(r, Admit(norm, named, items'), f);
  }

  lemma WithClass<T(!new)>(r: Rules<T>, norm: T -> T, named: T -> bool, items: seq<T>, f: string, b: seq<T>)
    returns (items': seq<T>)
    requires multiset(b) == multiset(ClassOf(r, Admit(norm, named, items), f))
    ensures multiset(items') == multiset(items) && ClassOf(r, Admit(norm, named, items'), f) == b
  {
    var pick := Contributes(r, norm, named, f);
    ClassIsGathered(r, norm, named, items, f);
    hide Gather, Admit, ClassOf;
    var rest, chosen := Split(pick, items);
    var t := Rearrange(pick, chosen, b);
    items' := rest + t;
    GatherConcat(pick, rest, t);
    ClassIsGathered(r, norm, named, items', f);
    assert [] + b == b;
    assert multiset(items') == multiset(rest) + multiset(t) == multiset(rest + chosen);
  }

  // ---------------------------------------------------------------- the list

  /** Every map built from records can be listed. */
  lemma {:induction false} CanBeListed<T(!new)>(r: Rules<T>, records: seq<T>, keys: set<string>) returns (s: seq<T>)
    requires keys <= Kept(r, records).Keys
    ensures forall i, j :: 0 <= i < j < |s| ==> s[i] != s[j]
    ensures forall x :: x in s <==> exists f :: f in keys && Kept(r, records)[f] == x
    decreases keys
  {
    s := [];
    if keys != {} {
      var f :| f in keys;
      var front := CanBeListed(r, records, keys - {f});
      KeptKeys(r, records);
      hide Kept;
      var x := Kept(r, records)[f];
      s := front + [x];
      forall y ensures y in s <==> exists g :: g in keys && Kept(r, records)[g] == y {
        if exists g :: g in keys && Kept(r, records)[g] == y {
          var g :| g in keys && Kept(r, records)[g] == y;
          if g != f { assert g in keys - {f}; }
        }
      }
      forall y | y in front ensures y != x {
        var g :| g in keys - {f} && Kept(r, records)[g] == y;
        assert r.fingerprint(y) == g && r.fingerprint(x) == f;
      }
      forall i, j | 0 <= i < j < |s| ensures s[i] != s[j] {
        assert s[i] in front;
      }
    }
  }

  lemma HasResult<T(!new)>(r: Rules<T>, name: T -> string, records: seq<T>) returns (s: seq<T>)
    ensures IsCanonical(r, name, records, s)
  {
    var listed := CanBeListed(r, records, Kept(r, records).Keys);
    hide Kept;
    forall f | f in Kept(r, records) ensures Kept(r, records)[f] in listed {}
    assert Enumerates(Kept(r, records), listed);
    SortedEnumerationIsCanonical(r, name, records, listed);
    s := Sort(OrderBy(name, r.fingerprint), listed);
  }

  /** Different maps with a common key of different values are listed differently. */
  lemma ListsDiffer<T(!new)>(r: Rules<T>, name: T -> string, u: seq<T>, v: seq<T>, s: seq<T>, t: seq<T>, f: string)
    requires IsCanonical(r, name, u, s) && IsCanonical(r, name, v, t)
    requires f in Kept(r, u) && f in Kept(r, v) && Kept(r, u)[f] != Kept(r, v)[f]
    ensures s != t
  {
    KeptSeparated(r, name, u, s);
    KeptKeys(r, u);
    KeptKeys(r, v);
    assert Kept(r, u)[f] in s && Kept(r, v)[f] in t;
    if s == t { OneOfFingerprint(r, s, Kept(r, u)[f], Kept(r, v)[f]); }
  }

  lemma OneOfFingerprint<T>(r: Rules<T>, s: seq<T>, x: T, y: T)
    requires forall i, j :: 0 <= i < j < |s| ==> r.fingerprint(s[i]) != r.fingerprint(s[j])
    requires x in s && y in s && r.fingerprint(x) == r.fingerprint(y)
    ensures x == y
  {
    var i :| 0 <= i < |s| && s[i] == x;
    var j :| 0 <= j < |s| && s[j] == y;
    assert i == j;
  }

  /** The result is the same for every order of the input. */
  ghost predicate OrderFree<T(!new)>(r: Rules<T>, name: T -> string, norm: T -> T, named: T -> bool, items: seq<T>) {
    forall items', s, t ::
      && multiset(items') == multiset(items)
      && IsCanonical(r, name, Admit(norm, named, items), s)
      && IsCanonical(r, name, Admit(norm, named, items'), t)
      ==> s == t
  }

  lemma OneBestEachIsOrderFree<T(!new)>(r: Rules<T>, name: T -> string, norm: T -> T, named: T -> bool, items: seq<T>)
    requires OneBestEach(r, Admit(norm, named, items))
    ensures OrderFree(r, name, norm, named, items)
  {
    forall items', s, t |
      && multiset(items') == multiset(items)
      && IsCanonical(r, name, Admit(norm, named, items), s)
      && IsCanonical(r, name, Admit(norm, named, items'), t)
      ensures s == t
    {
      SameKept(r, norm, named, items, items');
      CanonicalIsUnique(r, name, Admit(norm, named, items), s, t);
    }
  }

  /** The list does not depend on the order of the input if and only if every fingerprint has a best
      record and no second, different one. */
  lemma OrderFreeIff<T(!new)>(r: Rules<T>, name: T -> string, norm: T -> T, named: T -> bool, items: seq<T>)
    ensures OrderFree(r, name, norm, named, items) <==> OneBestEach(r, Admit(norm, named, items))
  {
    var records := Admit(norm, named, items);
    if OneBestEach(r, records) {
      OneBestEachIsOrderFree(r, name, norm, named, items);
    } else {
      var f :| ClassOf(r, records, f) != [] && !HasOneBest(r, ClassOf(r, records, f));
      var items' := KeptDiffers(r, norm, named, items, f);
      var s := HasResult(r, name, records);
      var t := HasResult(r, name, Admit(norm, named, items'));
      ListsDiffer(r, name, records, Admit(norm, named, items'), s, t, f);
    }
  }
}
