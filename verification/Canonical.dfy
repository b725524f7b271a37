/** The sorted list of the records kept: it is the same for every order in which the map is
    enumerated, and deduplicating it again changes nothing. */
module Canonical {
  import opened Dedup
  import opened Sorting
  import Strings

  /** By name, and by fingerprint where names agree. */
  function OrderBy<T>(name: T -> string, fingerprint: T -> string): (T, T) -> bool {
    (x: T, y: T) =>
      if name(x) == name(y) then Strings.Less(fingerprint(x), fingerprint(y)) else Strings.Less(name(x), name(y))
  }

  lemma OrderIsStrictWeak<T(!new)>(name: T -> string, fingerprint: T -> string)
    ensures StrictWeak(OrderBy(name, fingerprint))
  {
    var less := OrderBy(name, fingerprint);
    forall x, y | less(x, y) ensures !less(y, x) {
      Strings.LessTrichotomy(name(x), name(y));
      Strings.LessTrichotomy(fingerprint(x), fingerprint(y));
    }
    forall x, y, z | !less(x, y) && !less(y, z) ensures !less(x, z) {
      Strings.NotLessTransitive(name(x), name(y), name(z));
      Strings.NotLessTransitive(fingerprint(x), fingerprint(y), fingerprint(z));
      Strings.LessTrichotomy(name(x), name(y));
      Strings.LessTrichotomy(name(y), name(z));
      Strings.LessTrichotomy(name(x), name(z));
    }
  }

  /** `s` lists the values of a map, each once, in any order. */
  ghost predicate Enumerates<T>(m: map<string, T>, s: seq<T>) {
    && (forall i, j :: 0 <= i < j < |s| ==> s[i] != s[j])
    && (forall x :: x in s ==> exists f :: f in m && m[f] == x)
    && (forall f :: f in m ==> m[f] in s)
  }

  /** `s` is what the pipeline makes of `records`, for some enumeration order of its map. */
  ghost predicate IsCanonical<T>(r: Rules<T>, name: T -> string, records: seq<T>, s: seq<T>) {
    Enumerates(Kept(r, records), s) && Sorted(OrderBy(name, r.fingerprint), s)
  }

  lemma {:induction false} DistinctCounts<T>(s: seq<T>, x: T)
    requires forall i, j :: 0 <= i < j < |s| ==> s[i] != s[j]
    ensures multiset(s)[x] == if x in s then 1 else 0
  {
    if s != [] {
      DistinctCounts(s[1..], x);
      assert s == [s[0]] + s[1..];
    }
  }

  lemma SameElementsSameMultiset<T>(a: seq<T>, b: seq<T>)
    requires forall i, j :: 0 <= i < j < |a| ==> a[i] != a[j]
    requires forall i, j :: 0 <= i < j < |b| ==> b[i] != b[j]
    requires forall x :: x in a <==> x in b
    ensures multiset(a) == multiset(b)
  {
    forall x ensures multiset(a)[x] == multiset(b)[x] {
      DistinctCounts(a, x);
      DistinctCounts(b, x);
    }
  }

  /** The list is as long as the map. */
  lemma EnumeratesCount<T(!new)>(r: Rules<T>, records: seq<T>, s: seq<T>)
    requires Enumerates(Kept(r, records), s)
    ensures |s| == |Kept(r, records).Keys|
  {
    KeptKeys(r, records);
    KeptSeparated(r, (x: T) => "", records, s);
    var m := Kept(r, records);
    forall f ensures f in m.Keys <==> exists i :: 0 <= i < |s| && r.fingerprint(s[i]) == f {
      if f in m {
        assert m[f] in s;
        var i :| 0 <= i < |s| && s[i] == m[f];
        assert r.fingerprint(s[i]) == f;
      }
      if i :| 0 <= i < |s| && r.fingerprint(s[i]) == f { assert s[i] in s; }
    }
    FingerprintsCount(r, m.Keys, s);
  }

  lemma {:induction false} FingerprintsCount<T>(r: Rules<T>, keys: set<string>, s: seq<T>)
    requires forall i, j :: 0 <= i < j < |s| ==> r.fingerprint(s[i]) != r.fingerprint(s[j])
    requires forall f :: f in keys <==> exists i :: 0 <= i < |s| && r.fingerprint(s[i]) == f
    ensures |s| == |keys|
    decreases |s|
  {
    if s == [] {
      assert keys == {};
    } else {
      var n := |s| - 1;
      var f := r.fingerprint(s[n]);
      forall g ensures g in keys - {f} <==> exists i :: 0 <= i < n && r.fingerprint(s[..n][i]) == g {
        if g in keys && g != f {
          var i :| 0 <= i < |s| && r.fingerprint(s[i]) == g;
          assert s[..n][i] == s[i];
        }
        if i :| 0 <= i < n && r.fingerprint(s[..n][i]) == g {
          assert s[i] == s[..n][i];
        }
      }
      FingerprintsCount(r, keys - {f}, s[..n]);
    }
  }

  /** Different records kept have different fingerprints, so the order separates them. */
  lemma KeptSeparated<T(!new)>(r: Rules<T>, name: T -> string, records: seq<T>, s: seq<T>)
    requires Enumerates(Kept(r, records), s)
    ensures Separates(OrderBy(name, r.fingerprint), s)
    ensures forall i, j :: 0 <= i < j < |s| ==> r.fingerprint(s[i]) != r.fingerprint(s[j])
  {
    KeptKeys(r, records);
    forall x, y | x in s && y in s && r.fingerprint(x) == r.fingerprint(y) ensures x == y {
      assert Kept(r, records)[r.fingerprint(x)] == x;
    }
    var less := OrderBy(name, r.fingerprint);
    forall x, y | x in s && y in s && !less(x, y) && !less(y, x) ensures x == y {
      Strings.LessTrichotomy(name(x), name(y));
      Strings.LessTrichotomy(r.fingerprint(x), r.fingerprint(y));
    }
  }

  /** Whatever the enumeration order and the sorting algorithm, there is one result. */
  lemma CanonicalIsUnique<T(!new)>(r: Rules<T>, name: T -> string, records: seq<T>, s: seq<T>, t: seq<T>)
    requires IsCanonical(r, name, records, s) && IsCanonical(r, name, records, t)
    ensures s == t
  {
    SameElementsSameMultiset(s, t);
    KeptSeparated(r, name, records, s);
    SortedUnique(OrderBy(name, r.fingerprint), s, t);
  }

  /** Sorting any enumeration gives that result. */
  lemma SortedEnumerationIsCanonical<T(!new)>(r: Rules<T>, name: T -> string, records: seq<T>, listed: seq<T>)
    requires Enumerates(Kept(r, records), listed)
    ensures IsCanonical(r, name, records, Sort(OrderBy(name, r.fingerprint), listed))
  {
    var less := OrderBy(name, r.fingerprint);
    var s := Sort(less, listed);
    OrderIsStrictWeak(name, r.fingerprint);
    SortSorts(less, listed);
    SortPermutes(less, listed);
    forall x ensures x in s <==> x in listed {
      assert x in s <==> x in multiset(s);
      assert x in listed <==> x in multiset(listed);
    }
    forall i, j | 0 <= i < j < |s| ensures s[i] != s[j] {
      DistinctCounts(listed, s[i]);
      if s[i] == s[j] { RepeatCounts(s, i, j); }
    }
  }

  lemma RepeatCounts<T>(s: seq<T>, i: nat, j: nat)
    requires i < j < |s| && s[i] == s[j]
    ensures multiset(s)[s[i]] >= 2
  {
    assert s == s[..j] + [s[j]] + s[j + 1..];
    assert s[i] == s[..j][i];
    assert s[i] in multiset(s[..j]);
  }

  /** Deduplicating a result again changes nothing. */
  lemma CanonicalIsIdempotent<T(!new)>(r: Rules<T>, name: T -> string, records: seq<T>, s: seq<T>)
    requires IsCanonical(r, name, records, s)
    ensures IsCanonical(r, name, s, s)
  {
    KeptSeparated(r, name, records, s);
    DistinctAllKept(r, s);
    KeptKeys(r, s);
    forall x | x in s ensures exists f :: f in Kept(r, s) && Kept(r, s)[f] == x {
      var i :| 0 <= i < |s| && s[i] == x;
      assert Kept(r, s)[r.fingerprint(s[i])] == x;
    }
  }

  /** Position `i` is the only one in `s` with fingerprint `f`. */
  ghost predicate OnlyAt<T>(r: Rules<T>, s: seq<T>, f: string, i: nat) {
    i < |s| && r.fingerprint(s[i]) == f && forall j :: 0 <= j < |s| && j != i ==> r.fingerprint(s[j]) != f
  }

  /** Every fingerprint of the input occurs exactly once in the output, carried by the winner of
      its class; nothing else occurs. */
  lemma EachFingerprintOnce<T(!new)>(r: Rules<T>, name: T -> string, records: seq<T>, s: seq<T>, x: T)
    requires IsCanonical(r, name, records, s) && x in records
    ensures exists i: nat :: OnlyAt(r, s, r.fingerprint(x), i)
                        && ClassOf(r, records, r.fingerprint(x)) != []
                        && s[i] == Winner(r, ClassOf(r, records, r.fingerprint(x)))
    ensures forall y :: y in s ==> y in records
  {
    var f := r.fingerprint(x);
    KeptKeys(r, records);
    KeptIsWinner(r, records, f);
    KeptSeparated(r, name, records, s);
    var w := Kept(r, records)[f];
    assert w in s;
    var i: nat :| i < |s| && s[i] == w;
    assert OnlyAt(r, s, f, i);
  }

  lemma KeptOfTwo<T>(r: Rules<T>, x: T, y: T)
    ensures Kept(r, [x, y]) ==
            if r.fingerprint(x) != r.fingerprint(y) then map[r.fingerprint(x) := x, r.fingerprint(y) := y]
            else map[r.fingerprint(x) := if Beats(r, y, x) then y else x]
  {
    assert [x, y][..1] == [x] && [x][..0] == [];
    assert Kept(r, [x]) == map[r.fingerprint(x) := x];
  }

  /** Of two records both are listed if their fingerprints differ, and otherwise the one preferred. */
  lemma ListOfTwo<T(!new)>(r: Rules<T>, name: T -> string, x: T, y: T, s: seq<T>)
    requires IsCanonical(r, name, [x, y], s)
    ensures if r.fingerprint(x) != r.fingerprint(y) then |s| == 2 && x in s && y in s
            else s == [if Beats(r, y, x) then y else x]
  {
    KeptOfTwo(r, x, y);
    EnumeratesCount(r, [x, y], s);
    var m := Kept(r, [x, y]);
    hide Kept;
    if r.fingerprint(x) != r.fingerprint(y) {
      assert m.Keys == {r.fingerprint(x), r.fingerprint(y)};
      assert m[r.fingerprint(x)] in s && m[r.fingerprint(y)] in s;
    } else {
      assert m.Keys == {r.fingerprint(x)};
      assert m[r.fingerprint(x)] in s;
    }
  }

  /** Ranging over a map: its values, each once, in an order nobody fixes. */
  method ListValues<T>(r: Rules<T>, ghost records: seq<T>, m: map<string, T>) returns (listed: seq<T>)
    requires m == Kept(r, records)
    ensures Enumerates(m, listed)
  {
    KeptKeys(r, records);
    listed := [];
    var rest := m.Keys;
    while rest != {}
      invariant rest <= m.Keys
      invariant forall f :: f in m && f !in rest ==> m[f] in listed
      invariant forall i :: 0 <= i < |listed| ==>
                  var f := r.fingerprint(listed[i]); f in m && f !in rest && m[f] == listed[i]
      invariant forall i, j :: 0 <= i < j < |listed| ==> listed[i] != listed[j]
      decreases rest
    {
      var f :| f in rest;
      listed, rest := listed + [m[f]], rest - {f};
    }
  }

  /** Sorts an enumeration of the map in place. */
  method SortListed<T(!new)>(r: Rules<T>, name: T -> string, ghost records: seq<T>, listed: seq<T>)
    returns (result: seq<T>)
    requires Enumerates(Kept(r, records), listed)
    ensures IsCanonical(r, name, records, result)
  {
    SortedEnumerationIsCanonical(r, name, records, listed);
    var a := new T[|listed|](i requires 0 <= i < |listed| => listed[i]);
    assert a[..] == listed;
    InsertionSort(OrderBy(name, r.fingerprint), a);
    return a[..];
  }

  // ---------------------------------------------------------------- from raw items

  /** Applying the whole pipeline to its own result returns that result. */
  lemma PipelineIsIdempotent<T(!new)>(r: Rules<T>, name: T -> string, norm: T -> T, named: T -> bool,
                                      items: seq<T>, s: seq<T>, t: seq<T>)
    requires forall x :: norm(norm(x)) == norm(x)
    requires IsCanonical(r, name, Admit(norm, named, items), s)
    requires IsCanonical(r, name, Admit(norm, named, s), t)
    ensures t == s
  {
    var records := Admit(norm, named, items);
    AdmitNormalises(norm, named, items);
    KeptKeys(r, records);
    forall i | 0 <= i < |s| ensures named(s[i]) && norm(s[i]) == s[i] {
      assert s[i] in s;
      assert s[i] in records;
    }
    AdmitFixed(norm, named, s);
    CanonicalIsIdempotent(r, name, records, s);
    CanonicalIsUnique(r, name, s, s, t);
  }

  /** Every named item has its fingerprint exactly once in the result, carried by the winner of
      its class, and every record of the result is a named normal form of an input item. */
  lemma EveryNamedItemOnce<T(!new)>(r: Rules<T>, name: T -> string, norm: T -> T, named: T -> bool,
                                    items: seq<T>, s: seq<T>, k: nat)
    requires IsCanonical(r, name, Admit(norm, named, items), s)
    requires k < |items| && named(norm(items[k]))
    ensures var f, records := r.fingerprint(norm(items[k])), Admit(norm, named, items);
            && ClassOf(r, records, f) != []
            && exists i: nat :: OnlyAt(r, s, f, i) && s[i] == Winner(r, ClassOf(r, records, f))
    ensures forall y :: y in s ==> named(y) && exists m :: 0 <= m < |items| && norm(items[m]) == y
  {
    var records := Admit(norm, named, items);
    AdmitMembers(norm, named, items, norm(items[k]));
    EachFingerprintOnce(r, name, records, s, norm(items[k]));
    forall y | y in s ensures named(y) && exists m :: 0 <= m < |items| && norm(items[m]) == y {
      AdmitMembers(norm, named, items, y);
    }
  }
}
