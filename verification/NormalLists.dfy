/** Lists in normal form: volatile fields erased, sorted by a key. */
module NormalLists {
  import opened Sorting
  import Strings

  function Map<S, T>(f: S -> T, s: seq<S>): (r: seq<T>)
    ensures |r| == |s|
    ensures forall i :: 0 <= i < |s| ==> r[i] == f(s[i])
  {
    if s == [] then [] else [f(s[0])] + Map(f, s[1..])
  }

  function ByKey<T>(key: T -> string): (T, T) -> bool {
    (x: T, y: T) => Strings.Less(key(x), key(y))
  }

  function Normal<T>(sort: seq<T> -> seq<T>, erase: T -> T, s: seq<T>): seq<T> { sort(Map(erase, s)) }

  /** A sorting algorithm: it arranges by key, in whatever order where keys agree, and leaves a list
      that is already sorted as it is. */
  ghost predicate SortsBy<T(!new)>(sort: seq<T> -> seq<T>, key: T -> string) {
    forall s: seq<T> ::
      && multiset(sort(s)) == multiset(s) && Sorted(ByKey(key), sort(s))
      && (Sorted(ByKey(key), s) ==> sort(s) == s)
  }

  /** The algorithm that sort.Slice runs on short slices. */
  function Stable<T>(key: T -> string): seq<T> -> seq<T> {
    (s: seq<T>) => Sort(ByKey(key), s)
  }

  lemma StableSorts<T(!new)>(key: T -> string)
    ensures SortsBy(Stable(key), key)
  {
    ByKeyIsStrictWeak(key);
    forall s: seq<T>
      ensures multiset(Stable(key)(s)) == multiset(s) && Sorted(ByKey(key), Stable(key)(s))
      ensures Sorted(ByKey(key), s) ==> Stable(key)(s) == s
    {
      SortPermutes(ByKey(key), s);
      SortSorts(ByKey(key), s);
      if Sorted(ByKey(key), s) { SortedStays(ByKey(key), s); }
    }
  }

  lemma ByKeyIsStrictWeak<T(!new)>(key: T -> string)
    ensures StrictWeak(ByKey(key))
  {
    var less := ByKey(key);
    forall x, y | less(x, y) ensures !less(y, x) { Strings.LessTrichotomy(key(x), key(y)); }
    forall x, y, z | !less(x, y) && !less(y, z) ensures !less(x, z) {
      Strings.NotLessTransitive(key(x), key(y), key(z));
    }
  }

  /** Elements with the same key are equal. */
  ghost predicate KeysDistinct<T>(key: T -> string, s: seq<T>) {
    forall x, y :: x in s && y in s && key(x) == key(y) ==> x == y
  }

  lemma SeparatesIff<T>(key: T -> string, s: seq<T>)
    ensures Separates(ByKey(key), s) <==> KeysDistinct(key, s)
  {
    var less := ByKey(key);
    forall x, y ensures !less(x, y) && !less(y, x) <==> key(x) == key(y) {
      Strings.LessTrichotomy(key(x), key(y));
    }
  }

  lemma MapConcat<S, T>(f: S -> T, a: seq<S>, b: seq<S>)
    ensures Map(f, a + b) == Map(f, a) + Map(f, b)
  {
  }

  lemma MapAround<S, T>(f: S -> T, b: seq<S>, k: nat)
    requires k < |b|
    ensures multiset(Map(f, b)) == multiset{f(b[k])} + multiset(Map(f, b[..k] + b[k + 1..]))
  {
    hide Map;
    var pre, post := b[..k], b[k + 1..];
    assert b == pre + ([b[k]] + post);
    MapConcat(f, pre, [b[k]] + post);
    MapConcat(f, [b[k]], post);
    MapConcat(f, pre, post);
    assert Map(f, [b[k]]) == [f(b[k])];
  }

  /** Mapping respects permutation. */
  lemma {:induction false} MapPermutes<S, T>(f: S -> T, a: seq<S>, b: seq<S>)
    requires multiset(a) == multiset(b)
    ensures multiset(Map(f, a)) == multiset(Map(f, b))
    decreases |a|
  {
    if a == [] {
      assert |multiset(b)| == 0;
    } else {
      assert a[0] in multiset(b);
      var k :| 0 <= k < |b| && b[k] == a[0];
      RemoveSame(a, b, k);
      MapPermutes(f, a[1..], b[..k] + b[k + 1..]);
      MapAround(f, b, k);
    }
  }

  lemma MapTwice<S, T, U>(f: S -> T, g: T -> U, h: S -> U, s: seq<S>)
    requires forall x :: x in s ==> g(f(x)) == h(x)
    ensures Map(g, Map(f, s)) == Map(h, s)
  {
  }

  /** Two ways of forgetting that determine each other identify the same lists up to order. */
  lemma SameUpToOrder<S, T, U>(f: S -> T, g: S -> U, there: T -> U, back: U -> T, a: seq<S>, b: seq<S>)
    requires forall x :: x in a + b ==> there(f(x)) == g(x) && back(g(x)) == f(x)
    ensures multiset(Map(f, a)) == multiset(Map(f, b)) <==> multiset(Map(g, a)) == multiset(Map(g, b))
  {
    assert forall x :: (x in a ==> x in a + b) && (x in b ==> x in a + b);
    MapTwice(f, there, g, a);
    MapTwice(f, there, g, b);
    MapTwice(g, back, f, a);
    MapTwice(g, back, f, b);
    if multiset(Map(f, a)) == multiset(Map(f, b)) { MapPermutes(there, Map(f, a), Map(f, b)); }
    if multiset(Map(g, a)) == multiset(Map(g, b)) { MapPermutes(back, Map(g, a), Map(g, b)); }
  }

  /** Whatever the sorting algorithm. */
  lemma NormalIsIdempotent<T(!new)>(sort: seq<T> -> seq<T>, erase: T -> T, key: T -> string, s: seq<T>)
    requires SortsBy(sort, key) && forall x :: erase(erase(x)) == erase(x)
    ensures Normal(sort, erase, Normal(sort, erase, s)) == Normal(sort, erase, s)
  {
    var r := sort(Map(erase, s));
    assert multiset(r) == multiset(Map(erase, s));
    forall i | 0 <= i < |r| ensures erase(r[i]) == r[i] {
      assert r[i] in multiset(r);
    }
    assert Map(erase, r) == r;
  }

  /** Lists with the same normal form agree up to order once erased; the converse holds when
      different erased elements have different keys. Whatever the sorting algorithm. */
  lemma SameNormal<T(!new)>(sort: seq<T> -> seq<T>, erase: T -> T, key: T -> string, a: seq<T>, b: seq<T>)
    requires SortsBy(sort, key)
    ensures Normal(sort, erase, a) == Normal(sort, erase, b) ==> multiset(Map(erase, a)) == multiset(Map(erase, b))
    ensures KeysDistinct(key, Map(erase, a)) && multiset(Map(erase, a)) == multiset(Map(erase, b)) ==>
              Normal(sort, erase, a) == Normal(sort, erase, b)
  {
    var u, v := Map(erase, a), Map(erase, b);
    assert multiset(sort(u)) == multiset(u) && multiset(sort(v)) == multiset(v);
    if KeysDistinct(key, u) && multiset(u) == multiset(v) {
      forall x | x in sort(u) ensures x in u { assert x in multiset(sort(u)); }
      SeparatesIff(key, sort(u));
      SortedUnique(ByKey(key), sort(u), sort(v));
    }
  }

  ghost predicate OrderForgotten<T(!new)>(sort: seq<T> -> seq<T>, erase: T -> T, s: seq<T>) {
    forall t :: multiset(t) == multiset(s) ==> Normal(sort, erase, t) == Normal(sort, erase, s)
  }

  /** With distinct keys, rearranging a list never changes its normal form, whatever the sorting
      algorithm. */
  lemma DistinctKeysForgetOrder<T(!new)>(sort: seq<T> -> seq<T>, erase: T -> T, key: T -> string, s: seq<T>)
    requires SortsBy(sort, key) && KeysDistinct(key, Map(erase, s))
    ensures OrderForgotten(sort, erase, s)
  {
    forall t | multiset(t) == multiset(s) ensures Normal(sort, erase, t) == Normal(sort, erase, s) {
      MapPermutes(erase, t, s);
      SameNormal(sort, erase, key, s, t);
    }
  }

  /** For stable sorting the condition is exact: rearranging a list never changes its normal form if
      and only if different erased elements have different keys. */
  lemma NormalIgnoresOrderIff<T(!new)>(erase: T -> T, key: T -> string, s: seq<T>)
    ensures OrderForgotten(Stable(key), erase, s) <==> KeysDistinct(key, Map(erase, s))
  {
    StableSorts(key);
    if KeysDistinct(key, Map(erase, s)) { DistinctKeysForgetOrder(Stable(key), erase, key, s); }
    else { TiesShow(erase, key, s); }
  }

  lemma TwoOrders<T(!new)>(erase: T -> T, key: T -> string, front: seq<T>, p: T, q: T)
    requires key(erase(p)) == key(erase(q)) && erase(p) != erase(q)
    ensures Normal(Stable(key), erase, front + [p, q]) != Normal(Stable(key), erase, front + [q, p])
  {
    MapConcat(erase, front, [p, q]);
    MapConcat(erase, front, [q, p]);
    assert Map(erase, [p, q]) == [erase(p), erase(q)] && Map(erase, [q, p]) == [erase(q), erase(p)];
    ByKeyIsStrictWeak(key);
    Strings.LessTrichotomy(key(erase(p)), key(erase(q)));
    TiesRevealOrder(ByKey(key), Map(erase, front), erase(p), erase(q));
  }

  lemma TieShows<T(!new)>(erase: T -> T, key: T -> string, s: seq<T>, i: nat, j: nat)
    requires i < j < |s| && key(erase(s[i])) == key(erase(s[j])) && erase(s[i]) != erase(s[j])
    ensures !OrderForgotten(Stable(key), erase, s)
  {
    var front := MoveTwoLast(s, i, j);
    TwoOrders(erase, key, front, s[i], s[j]);
    hide Map, Stable, Sort;
    var a, b := front + [s[i], s[j]], front + [s[j], s[i]];
    assert Normal(Stable(key), erase, a) != Normal(Stable(key), erase, s)
        || Normal(Stable(key), erase, b) != Normal(Stable(key), erase, s);
  }

  lemma TiesShow<T(!new)>(erase: T -> T, key: T -> string, s: seq<T>)
    requires !KeysDistinct(key, Map(erase, s))
    ensures !OrderForgotten(Stable(key), erase, s)
  {
    var e := Map(erase, s);
    var x, y :| x in e && y in e && key(x) == key(y) && x != y;
    var i: nat :| i < |e| && e[i] == x;
    var j: nat :| j < |e| && e[j] == y;
    if i < j { TieShows(erase, key, s, i, j); } else { TieShows(erase, key, s, j, i); }
  }

  // ---------------------------------------------------------------- on slices

  /** append([]T(nil), source...) */
  method Copy<T>(source: array<T>) returns (copy: array<T>)
    ensures fresh(copy) && copy[..] == source[..]
  {
    copy := new T[source.Length](i requires 0 <= i < source.Length reads source => source[i]);
  }

  method EraseAll<T>(erase: T -> T, a: array<T>)
    modifies a
    ensures a[..] == Map(erase, old(a[..]))
  {
    for i := 0 to a.Length
      invariant forall k :: 0 <= k < i ==> a[k] == erase(old(a[k]))
      invariant forall k :: i <= k < a.Length ==> a[k] == old(a[k])
    {
      a[i] := erase(a[i]);
    }
  }
}
