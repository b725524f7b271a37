/** In-place insertion sort, which is what sort.Slice runs on short slices, and the fact that
    makes the choice of sorting algorithm irrelevant: a sorted arrangement is unique when
    elements the order does not separate are equal. */
module Sorting {

  /** Asymmetric, and not being less is transitive. */
  ghost predicate StrictWeak<T(!new)>(less: (T, T) -> bool) {
    && (forall x, y :: less(x, y) ==> !less(y, x))
    && (forall x, y, z :: !less(x, y) && !less(y, z) ==> !less(x, z))
  }

  ghost predicate Sorted<T>(less: (T, T) -> bool, s: seq<T>) {
    forall i, j :: 0 <= i < j < |s| ==> !less(s[j], s[i])
  }

  /** Elements of `s` that the order does not separate are equal. */
  ghost predicate Separates<T>(less: (T, T) -> bool, s: seq<T>) {
    forall x, y :: x in s && y in s && !less(x, y) && !less(y, x) ==> x == y
  }

  /** `x` moves left past the elements it is less than. */
  function Insert<T>(less: (T, T) -> bool, s: seq<T>, x: T): (r: seq<T>)
    ensures |r| == |s| + 1
  {
    if s == [] || !less(x, s[|s| - 1]) then s + [x]
    else Insert(less, s[..|s| - 1], x) + [s[|s| - 1]]
  }

  function Sort<T>(less: (T, T) -> bool, s: seq<T>): (r: seq<T>)
    ensures |r| == |s|
  {
    if s == [] then [] else Insert(less, Sort(less, s[..|s| - 1]), s[|s| - 1])
  }

  // ---------------------------------------------------------------- what sorting does

  lemma {:induction false} InsertPermutes<T>(less: (T, T) -> bool, s: seq<T>, x: T)
    ensures multiset(Insert(less, s, x)) == multiset(s) + multiset{x}
  {
    if s != [] && less(x, s[|s| - 1]) {
      InsertPermutes(less, s[..|s| - 1], x);
      assert s == s[..|s| - 1] + [s[|s| - 1]];
    }
  }

  lemma {:induction false} SortPermutes<T>(less: (T, T) -> bool, s: seq<T>)
    ensures multiset(Sort(less, s)) == multiset(s)
  {
    if s != [] {
      SortPermutes(less, s[..|s| - 1]);
      InsertPermutes(less, Sort(less, s[..|s| - 1]), s[|s| - 1]);
      assert s == s[..|s| - 1] + [s[|s| - 1]];
    }
  }

  lemma {:induction false} InsertSorts<T(!new)>(less: (T, T) -> bool, s: seq<T>, x: T)
    requires StrictWeak(less) && Sorted(less, s)
    ensures Sorted(less, Insert(less, s, x))
  {
    if s == [] {
    } else if less(x, s[|s| - 1]) {
      var front, last := s[..|s| - 1], s[|s| - 1];
      InsertSorts(less, front, x);
      InsertPermutes(less, front, x);
      var r := Insert(less, front, x);
      forall i | 0 <= i < |r| ensures !less(last, r[i]) {
        assert r[i] in multiset(r);
        if r[i] != x { var k :| 0 <= k < |front| && front[k] == r[i]; }
      }
    } else {
      forall i | 0 <= i < |s| ensures !less(x, s[i]) {
        if i < |s| - 1 { assert !less(s[|s| - 1], s[i]); }
      }
    }
  }

  lemma {:induction false} SortSorts<T(!new)>(less: (T, T) -> bool, s: seq<T>)
    requires StrictWeak(less)
    ensures Sorted(less, Sort(less, s))
  {
    if s != [] {
      SortSorts(less, s[..|s| - 1]);
      InsertSorts(less, Sort(less, s[..|s| - 1]), s[|s| - 1]);
    }
  }

  /** Sorting a sorted sequence changes nothing, even with ties. */
  lemma {:induction false} SortedStays<T>(less: (T, T) -> bool, s: seq<T>)
    requires Sorted(less, s)
    ensures Sort(less, s) == s
  {
    if s != [] {
      SortedStays(less, s[..|s| - 1]);
      assert s == s[..|s| - 1] + [s[|s| - 1]];
    }
  }

  lemma RemoveSame<T>(a: seq<T>, b: seq<T>, k: nat)
    requires a != [] && multiset(a) == multiset(b) && k < |b| && b[k] == a[0]
    ensures multiset(a[1..]) == multiset(b[..k] + b[k + 1..])
  {
    assert a == [a[0]] + a[1..];
    assert b == b[..k] + [b[k]] + b[k + 1..];
    assert multiset(a[1..]) == multiset(a) - multiset{a[0]};
    assert multiset(b[..k] + b[k + 1..]) == multiset(b) - multiset{b[k]};
  }

  lemma SameFirst<T>(less: (T, T) -> bool, a: seq<T>, b: seq<T>)
    requires Sorted(less, a) && Sorted(less, b) && multiset(a) == multiset(b) && Separates(less, a)
    requires a != [] && b != []
    ensures a[0] == b[0]
  {
    assert a[0] in multiset(b) && b[0] in multiset(a);
    var i :| 0 <= i < |b| && b[i] == a[0];
    var j :| 0 <= j < |a| && a[j] == b[0];
  }

  lemma TailMultiset<T>(s: seq<T>)
    requires s != []
    ensures multiset(s[1..]) == multiset(s) - multiset{s[0]}
  {
    assert s == [s[0]] + s[1..];
  }

  /** Two sorted arrangements of the same elements are equal. */
  lemma {:induction false} SortedUnique<T>(less: (T, T) -> bool, a: seq<T>, b: seq<T>)
    requires Sorted(less, a) && Sorted(less, b) && multiset(a) == multiset(b) && Separates(less, a)
    ensures a == b
  {
    assert |a| == |multiset(a)| == |multiset(b)| == |b|;
    if a != [] {
      SameFirst(less, a, b);
      TailMultiset(a);
      TailMultiset(b);
      SortedUnique(less, a[1..], b[1..]);
    }
  }

  /** The result of sorting does not depend on the arrangement sorted. */
  lemma SortInvariant<T(!new)>(less: (T, T) -> bool, a: seq<T>, b: seq<T>)
    requires StrictWeak(less) && multiset(a) == multiset(b) && Separates(less, a)
    ensures Sort(less, a) == Sort(less, b)
  {
    SortSorts(less, a);
    SortSorts(less, b);
    SortPermutes(less, a);
    SortPermutes(less, b);
    forall x | x in Sort(less, a) ensures x in a { assert x in multiset(Sort(less, a)); }
    SortedUnique(less, Sort(less, a), Sort(less, b));
  }

  lemma {:induction false} InsertAt<T>(less: (T, T) -> bool, s: seq<T>, x: T, j: nat)
    requires j <= |s| && (j == 0 || !less(x, s[j - 1]))
    requires forall k :: j <= k < |s| ==> less(x, s[k])
    ensures Insert(less, s, x) == s[..j] + [x] + s[j..]
  {
    if j < |s| {
      InsertAt(less, s[..|s| - 1], x, j);
      assert s[..|s| - 1][..j] == s[..j];
      assert s[j..] == s[..|s| - 1][j..] + [s[|s| - 1]];
    } else {
      assert s[..j] == s && s[j..] == [];
    }
  }

  /** The place where insertion puts an element. */
  function Place<T>(less: (T, T) -> bool, s: seq<T>, x: T): (j: nat)
    ensures j <= |s| && (j == 0 || !less(x, s[j - 1]))
    ensures forall k :: j <= k < |s| ==> less(x, s[k])
  {
    if s == [] || !less(x, s[|s| - 1]) then |s| else Place(less, s[..|s| - 1], x)
  }

  /** Of two elements the order does not separate, the one inserted first comes first. */
  lemma TiesKeepOrder<T(!new)>(less: (T, T) -> bool, s: seq<T>, x: T, y: T)
    requires StrictWeak(less) && !less(x, y) && !less(y, x)
    ensures var j := Place(less, s, x); Insert(less, Insert(less, s, x), y) == s[..j] + [x, y] + s[j..]
  {
    hide Place, Insert;
    var j := Place(less, s, x);
    InsertAt(less, s, x, j);
    var r := s[..j] + [x] + s[j..];
    forall k | j + 1 <= k < |r| ensures less(y, r[k]) {
      assert r[k] == s[k - 1] && less(x, s[k - 1]);
    }
    assert r[j] == x;
    InsertAt(less, r, y, j + 1);
    assert r[..j + 1] == s[..j] + [x] && r[j + 1..] == s[j..];
  }

  ghost predicate IgnoresOrder<T(!new)>(less: (T, T) -> bool, a: seq<T>) {
    forall b :: multiset(b) == multiset(a) ==> Sort(less, b) == Sort(less, a)
  }

  lemma SortTwoLast<T>(less: (T, T) -> bool, s: seq<T>, x: T, y: T)
    ensures Sort(less, s + [x, y]) == Insert(less, Insert(less, Sort(less, s), x), y)
  {
    assert (s + [x, y])[..|s| + 1] == s + [x];
    assert (s + [x])[..|s|] == s;
  }

  lemma TiesRevealOrder<T(!new)>(less: (T, T) -> bool, s: seq<T>, x: T, y: T)
    requires StrictWeak(less) && !less(x, y) && !less(y, x) && x != y
    ensures Sort(less, s + [x, y]) != Sort(less, s + [y, x])
  {
    var t := Sort(less, s);
    SortTwoLast(less, s, x, y);
    SortTwoLast(less, s, y, x);
    TiesKeepOrder(less, t, x, y);
    TiesKeepOrder(less, t, y, x);
    var j := Place(less, t, x);
    assert Place(less, t, y) == j;
    assert (t[..j] + [x, y] + t[j..])[j] == x && (t[..j] + [y, x] + t[j..])[j] == y;
  }

  /** The elements of `a` with two of them moved to the end. */
  lemma MoveTwoLast<T>(a: seq<T>, i: nat, j: nat) returns (s: seq<T>)
    requires i < j < |a|
    ensures multiset(s + [a[i], a[j]]) == multiset(a) && multiset(s + [a[j], a[i]]) == multiset(a)
  {
    s := a[..i] + a[i + 1..j] + a[j + 1..];
    assert a == a[..i] + [a[i]] + a[i + 1..j] + [a[j]] + a[j + 1..];
  }

  /** Sorting forgets the arrangement exactly when different elements are separated. */
  lemma IgnoresOrderIff<T(!new)>(less: (T, T) -> bool, a: seq<T>)
    requires StrictWeak(less)
    ensures IgnoresOrder(less, a) <==> Separates(less, a)
  {
    if Separates(less, a) {
      forall b | multiset(b) == multiset(a) ensures Sort(less, b) == Sort(less, a) { SortInvariant(less, a, b); }
    } else {
      TieBreaks(less, a);
    }
  }

  lemma TieBreaks<T(!new)>(less: (T, T) -> bool, a: seq<T>)
    requires StrictWeak(less) && !Separates(less, a)
    ensures !IgnoresOrder(less, a)
  {
    var x, y :| x in a && y in a && !less(x, y) && !less(y, x) && x != y;
    var i :| 0 <= i < |a| && a[i] == x;
    var j :| 0 <= j < |a| && a[j] == y;
    var s := MoveTwoLast(a, if i < j then i else j, if i < j then j else i);
    TiesRevealOrder(less, s, x, y);
  }

  // ---------------------------------------------------------------- the in-place algorithm

  /** Moves element `i` to its place among the sorted elements before it, by swaps. */
  method SinkLeft<T>(less: (T, T) -> bool, a: array<T>, i: nat)
    requires i < a.Length
    modifies a
    ensures a[..i + 1] == Insert(less, old(a[..i]), old(a[i]))
    ensures a[i + 1..] == old(a[i + 1..])
  {
    ghost var s, x := a[..i], a[i];
    var j := i;
    while j > 0 && less(a[j], a[j - 1])
      invariant 0 <= j <= i
      invariant a[..j] == s[..j] && a[j] == x && a[j + 1..i + 1] == s[j..]
      invariant a[i + 1..] == old(a[i + 1..])
      invariant forall k :: j <= k < i ==> less(x, s[k])
    {
      assert a[j - 1] == s[j - 1];
      a[j], a[j - 1] := a[j - 1], a[j];
      assert s[j - 1..] == [s[j - 1]] + s[j..];
      j := j - 1;
    }
    assert j > 0 ==> a[j - 1] == s[j - 1];
    InsertAt(less, s, x, j);
    assert a[..i + 1] == a[..j] + [a[j]] + a[j + 1..i + 1];
  }

  method InsertionSort<T>(less: (T, T) -> bool, a: array<T>)
    modifies a
    ensures a[..] == Sort(less, old(a[..]))
  {
    ghost var s := a[..];
    var i := 0;
    while i < a.Length
      invariant 0 <= i <= a.Length
      invariant a[..i] == Sort(less, s[..i]) && a[i..] == s[i..]
    {
      assert a[i] == a[i..][0] == s[i] && a[i + 1..] == a[i..][1..];
      assert s[..i + 1][..i] == s[..i];
      SinkLeft(less, a, i);
      i := i + 1;
    }
    assert s[..i] == s && a[..i] == a[..];
  }
}
