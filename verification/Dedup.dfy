/** Keeping one record per fingerprint with a replacement rule that is not transitive: a later
    record replaces the one kept when it is better on either of two criteria. */
module Dedup {

  /** What a record is compared by. */
  datatype Rules<!T> = Rules(fingerprint: T -> string, rank: T -> int, detail: T -> int)

  predicate Beats<T>(r: Rules<T>, item: T, existing: T) {
    r.rank(item) > r.rank(existing) || r.detail(item) > r.detail(existing)
  }

  // ---------------------------------------------------------------- the map of records kept

  function Keep<T>(r: Rules<T>, kept: map<string, T>, item: T): map<string, T> {
    var f := r.fingerprint(item);
    if f in kept && !Beats(r, item, kept[f]) then kept else kept[f := item]
  }

  /** The map after all records: for each fingerprint the record kept. */
  function Kept<T>(r: Rules<T>, records: seq<T>): map<string, T> {
    if records == [] then map[]
    else Keep(r, Kept(r, records[..|records| - 1]), records[|records| - 1])
  }

  /** The records of one fingerprint, in input order. */
  function ClassOf<T>(r: Rules<T>, records: seq<T>, f: string): seq<T> {
    if records == [] then []
    else
      var last := records[|records| - 1];
      ClassOf(r, records[..|records| - 1], f) + if r.fingerprint(last) == f then [last] else []
  }

  /** The record of a class that is kept. */
  function Winner<T>(r: Rules<T>, records: seq<T>): T
    requires records != []
  {
    var last := records[|records| - 1];
    if |records| == 1 then last
    else
      var w := Winner(r, records[..|records| - 1]);
      if Beats(r, last, w) then last else w
  }

  lemma WinnerExtends<T>(r: Rules<T>, records: seq<T>, last: T)
    requires records != []
    ensures Winner(r, records + [last]) == if Beats(r, last, Winner(r, records)) then last else Winner(r, records)
  {
    assert (records + [last])[..|records|] == records;
  }

  /** What the map holds for a fingerprint is the winner of its class. */
  lemma {:induction false} KeptIsWinner<T>(r: Rules<T>, records: seq<T>, f: string)
    ensures f in Kept(r, records) <==> ClassOf(r, records, f) != []
    ensures f in Kept(r, records) ==> Kept(r, records)[f] == Winner(r, ClassOf(r, records, f))
  {
    if records != [] {
      var front, last := records[..|records| - 1], records[|records| - 1];
      KeptIsWinner(r, front, f);
      var c := ClassOf(r, front, f);
      if c != [] { WinnerExtends(r, c, last); }
      assert c + [] == c && ([] + [last]) == [last];
    }
  }

  /** Keys are the fingerprints of their records, and every record kept comes from the input. */
  lemma {:induction false} KeptKeys<T>(r: Rules<T>, records: seq<T>)
    ensures forall f :: f in Kept(r, records) ==>
              && r.fingerprint(Kept(r, records)[f]) == f
              && Kept(r, records)[f] in records
    ensures forall x :: x in records ==> r.fingerprint(x) in Kept(r, records)
  {
    if records != [] {
      KeptKeys(r, records[..|records| - 1]);
      assert records == records[..|records| - 1] + [records[|records| - 1]];
    }
  }

  /** Records with distinct fingerprints are all kept. */
  lemma {:induction false} DistinctAllKept<T>(r: Rules<T>, records: seq<T>)
    requires forall i, j :: 0 <= i < j < |records| ==> r.fingerprint(records[i]) != r.fingerprint(records[j])
    ensures forall i :: 0 <= i < |records| ==>
              r.fingerprint(records[i]) in Kept(r, records) && Kept(r, records)[r.fingerprint(records[i])] == records[i]
  {
    if records != [] {
      var front, last := records[..|records| - 1], records[|records| - 1];
      DistinctAllKept(r, front);
      KeptKeys(r, front);
      assert forall i :: 0 <= i < |front| ==> front[i] == records[i];
      assert r.fingerprint(last) !in Kept(r, front);
      forall i | 0 <= i < |front|
        ensures r.fingerprint(records[i]) in Kept(r, records)
                && Kept(r, records)[r.fingerprint(records[i])] == records[i]
      {
        assert front[i] == records[i];
      }
    }
  }

  // ---------------------------------------------------------------- the records that enter

  /** The normalised items, without those that have no name. */
  function Admit<T>(norm: T -> T, named: T -> bool, items: seq<T>): seq<T> {
    if items == [] then []
    else
      var item := norm(items[|items| - 1]);
      Admit(norm, named, items[..|items| - 1]) + if named(item) then [item] else []
  }

  /** What one more item does to the map. */
  function Enter<T>(r: Rules<T>, norm: T -> T, named: T -> bool, kept: map<string, T>, item: T): map<string, T> {
    if named(norm(item)) then Keep(r, kept, norm(item)) else kept
  }

  lemma KeptEnters<T>(r: Rules<T>, norm: T -> T, named: T -> bool, items: seq<T>, i: nat)
    requires i < |items|
    ensures Kept(r, Admit(norm, named, items[..i + 1])) ==
            Enter(r, norm, named, Kept(r, Admit(norm, named, items[..i])), items[i])
  {
    assert items[..i + 1][..i] == items[..i];
    var before, item := Admit(norm, named, items[..i]), norm(items[i]);
    assert (before + [item])[..|before|] == before;
    assert before + [] == before;
  }

  ghost predicate NormalForms<T>(norm: T -> T, named: T -> bool, items: seq<T>) {
    forall i :: 0 <= i < |items| ==> named(items[i]) && norm(items[i]) == items[i]
  }

  /** Exactly the named normal forms of input items enter. */
  lemma {:induction false} AdmitMembers<T>(norm: T -> T, named: T -> bool, items: seq<T>, x: T)
    ensures x in Admit(norm, named, items) <==>
              named(x) && exists i :: 0 <= i < |items| && norm(items[i]) == x
  {
    if items != [] {
      var n := |items| - 1;
      AdmitMembers(norm, named, items[..n], x);
      assert forall i :: 0 <= i < n ==> items[..n][i] == items[i];
    }
  }

  /** Named normal forms enter as they are. */
  lemma {:induction false} AdmitFixed<T>(norm: T -> T, named: T -> bool, items: seq<T>)
    requires NormalForms(norm, named, items)
    ensures Admit(norm, named, items) == items
  {
    if items != [] {
      AdmitFixed(norm, named, items[..|items| - 1]);
      assert items == items[..|items| - 1] + [items[|items| - 1]];
    }
  }

  /** What enters is in normal form, when normalising twice is normalising once. */
  lemma AdmitNormalises<T(!new)>(norm: T -> T, named: T -> bool, items: seq<T>)
    requires forall x :: norm(norm(x)) == norm(x)
    ensures NormalForms(norm, named, Admit(norm, named, items))
  {
    var records := Admit(norm, named, items);
    forall i | 0 <= i < |records| ensures named(records[i]) && norm(records[i]) == records[i] {
      AdmitMembers(norm, named, items, records[i]);
    }
  }

  // ---------------------------------------------------------------- which record wins

  /** Record `i` is the one kept, and no later record of the class beats it. */
  ghost predicate Stands<T>(r: Rules<T>, records: seq<T>, i: nat) {
    && i < |records| && records[i] == Winner(r, records)
    && forall j :: i < j < |records| ==> !Beats(r, records[j], records[i])
  }

  lemma {:induction false} NoLaterRecordBeatsWinner<T>(r: Rules<T>, records: seq<T>)
    requires records != []
    ensures exists i: nat :: Stands(r, records, i)
  {
    var n := |records| - 1;
    if n == 0 || Beats(r, records[n], Winner(r, records[..n])) {
      assert Stands(r, records, n);
    } else {
      NoLaterRecordBeatsWinner(r, records[..n]);
      var i: nat :| Stands(r, records[..n], i);
      forall j | i < j < |records| ensures !Beats(r, records[j], records[i]) {
        if j < n { assert records[..n][j] == records[j]; }
      }
      assert Stands(r, records, i);
    }
  }

  /** At least as good as every record of the class on both criteria. */
  ghost predicate IsBest<T>(r: Rules<T>, records: seq<T>, x: T) {
    forall j :: 0 <= j < |records| ==> r.rank(records[j]) <= r.rank(x) && r.detail(records[j]) <= r.detail(x)
  }

  ghost predicate HasBest<T>(r: Rules<T>, records: seq<T>) {
    exists i :: 0 <= i < |records| && IsBest(r, records, records[i])
  }

  lemma {:induction false} BestWins<T>(r: Rules<T>, records: seq<T>, i: nat)
    requires i < |records| && IsBest(r, records, records[i])
    ensures r.rank(Winner(r, records)) == r.rank(records[i])
    ensures r.detail(Winner(r, records)) == r.detail(records[i])
  {
    var n := |records| - 1;
    if i < n {
      assert forall j :: 0 <= j < n ==> records[..n][j] == records[j];
      BestWins(r, records[..n], i);
    } else if n > 0 {
      NoLaterRecordBeatsWinner(r, records[..n]);
      var k: nat :| Stands(r, records[..n], k);
      assert Winner(r, records[..n]) == records[k];
    }
  }

  /** The record kept is best on both criteria exactly when the class has a record that is. */
  lemma WinnerIsBestIff<T>(r: Rules<T>, records: seq<T>)
    requires records != []
    ensures IsBest(r, records, Winner(r, records)) <==> HasBest(r, records)
  {
    NoLaterRecordBeatsWinner(r, records);
    var k: nat :| Stands(r, records, k);
    if HasBest(r, records) {
      var i :| 0 <= i < |records| && IsBest(r, records, records[i]);
      BestWins(r, records, i);
    }
  }

  predicate SameScore<T>(r: Rules<T>, x: T, y: T) { r.rank(x) == r.rank(y) && r.detail(x) == r.detail(y) }

  /** So with such a record the outcome does not depend on input order. */
  lemma WinnerIgnoresOrder<T>(r: Rules<T>, a: seq<T>, b: seq<T>)
    requires a != [] && b != [] && multiset(a) == multiset(b) && HasBest(r, a)
    ensures SameScore(r, Winner(r, b), Winner(r, a))
  {
    var i :| 0 <= i < |a| && IsBest(r, a, a[i]);
    assert a[i] in multiset(b);
    var k :| 0 <= k < |b| && b[k] == a[i];
    forall j | 0 <= j < |b| ensures r.rank(b[j]) <= r.rank(b[k]) && r.detail(b[j]) <= r.detail(b[k]) {
      assert b[j] in multiset(a);
    }
    assert IsBest(r, b, b[k]);
    BestWins(r, a, i);
    BestWins(r, b, k);
  }

  /** A record that beats the winner would change the outcome by coming last. */
  lemma ComingLastWins<T>(r: Rules<T>, a: seq<T>, k: nat) returns (b: seq<T>)
    requires k < |a| && Beats(r, a[k], Winner(r, a))
    ensures b != [] && multiset(b) == multiset(a) && Beats(r, Winner(r, b), Winner(r, a))
  {
    var rest := a[..k] + a[k + 1..];
    b := rest + [a[k]];
    assert a == a[..k] + [a[k]] + a[k + 1..];
    if rest != [] { WinnerExtends(r, rest, a[k]); }
  }

  /** Every arrangement of the class has a winner with the same score. */
  ghost predicate OrderIrrelevant<T(!new)>(r: Rules<T>, a: seq<T>)
    requires a != []
  {
    forall b | b != [] && multiset(b) == multiset(a) :: SameScore(r, Winner(r, b), Winner(r, a))
  }

  lemma NoBestNoOrder<T(!new)>(r: Rules<T>, a: seq<T>)
    requires a != [] && !IsBest(r, a, Winner(r, a))
    ensures !OrderIrrelevant(r, a)
  {
    var k :| 0 <= k < |a| && Beats(r, a[k], Winner(r, a));
    var b := ComingLastWins(r, a, k);
  }

  /** The outcome ignores the input order exactly when the class has a best record. */
  lemma OrderIrrelevantIff<T(!new)>(r: Rules<T>, a: seq<T>)
    requires a != []
    ensures HasBest(r, a) <==> OrderIrrelevant(r, a)
  {
    WinnerIsBestIff(r, a);
    if HasBest(r, a) {
      forall b | b != [] && multiset(b) == multiset(a) ensures SameScore(r, Winner(r, b), Winner(r, a)) {
        WinnerIgnoresOrder(r, a, b);
      }
    } else {
      NoBestNoOrder(r, a);
    }
  }

  // ---------------------------------------------------------------- which record, whatever the order

  /** There is a best record, and no second one that differs. */
  ghost predicate HasOneBest<T>(r: Rules<T>, a: seq<T>) {
    && HasBest(r, a)
    && forall x, y :: x in a && y in a && IsBest(r, a, x) && IsBest(r, a, y) ==> x == y
  }

  /** Every arrangement of the class has the same winner. */
  ghost predicate Determined<T(!new)>(r: Rules<T>, a: seq<T>)
    requires a != []
  {
    forall b | b != [] && multiset(b) == multiset(a) :: Winner(r, b) == Winner(r, a)
  }

  lemma {:induction false} WinnerIsMember<T>(r: Rules<T>, a: seq<T>)
    requires a != []
    ensures Winner(r, a) in a
  {
    if |a| > 1 {
      WinnerIsMember(r, a[..|a| - 1]);
      assert forall x :: x in a[..|a| - 1] ==> x in a;
    }
  }

  /** Nothing beats a best record that comes first. */
  lemma {:induction false} BestFirstWins<T>(r: Rules<T>, a: seq<T>)
    requires a != [] && IsBest(r, a, a[0])
    ensures Winner(r, a) == a[0]
  {
    if |a| > 1 {
      var front := a[..|a| - 1];
      assert forall j :: 0 <= j < |front| ==> front[j] == a[j];
      BestFirstWins(r, front);
    }
  }

  lemma BestIsPermuted<T>(r: Rules<T>, a: seq<T>, b: seq<T>, x: T)
    requires multiset(a) == multiset(b) && IsBest(r, a, x)
    ensures IsBest(r, b, x)
  {
    forall j | 0 <= j < |b| ensures r.rank(b[j]) <= r.rank(x) && r.detail(b[j]) <= r.detail(x) {
      assert b[j] in multiset(a);
    }
  }

  lemma MoveFirst<T>(a: seq<T>, x: T) returns (b: seq<T>)
    requires x in a
    ensures b != [] && b[0] == x && multiset(b) == multiset(a)
  {
    var k :| 0 <= k < |a| && a[k] == x;
    b := [a[k]] + (a[..k] + a[k + 1..]);
    assert a == a[..k] + [a[k]] + a[k + 1..];
  }

  lemma FirstBestWins<T(!new)>(r: Rules<T>, a: seq<T>, x: T) returns (b: seq<T>)
    requires x in a && IsBest(r, a, x)
    ensures b != [] && multiset(b) == multiset(a) && Winner(r, b) == x
  {
    b := MoveFirst(a, x);
    BestIsPermuted(r, a, b, x);
    BestFirstWins(r, b);
  }

  lemma OneBestWins<T(!new)>(r: Rules<T>, a: seq<T>, b: seq<T>)
    requires a != [] && b != [] && multiset(a) == multiset(b) && HasOneBest(r, a)
    ensures Winner(r, b) == Winner(r, a) && IsBest(r, a, Winner(r, a))
  {
    WinnerIsBestIff(r, a);
    WinnerIsMember(r, a);
    WinnerIsMember(r, b);
    WinnerIgnoresOrder(r, a, b);
    hide Winner, HasBest;
    assert Winner(r, b) in multiset(a);
    assert IsBest(r, a, Winner(r, a));
    assert IsBest(r, a, Winner(r, b));
  }

  /** The record kept is the same for every input order if and only if the class has a best record
      and no second, different one. */
  lemma DeterminedIff<T(!new)>(r: Rules<T>, a: seq<T>)
    requires a != []
    ensures Determined(r, a) <==> HasOneBest(r, a)
  {
    if HasOneBest(r, a) {
      forall b | b != [] && multiset(b) == multiset(a) ensures Winner(r, b) == Winner(r, a) { OneBestWins(r, a, b); }
    } else if HasBest(r, a) {
      var x, y :| x in a && y in a && IsBest(r, a, x) && IsBest(r, a, y) && x != y;
      var b := FirstBestWins(r, a, x);
      var c := FirstBestWins(r, a, y);
    } else {
      WinnerIsBestIff(r, a);
      var k :| 0 <= k < |a| && Beats(r, a[k], Winner(r, a));
      var b := ComingLastWins(r, a, k);
    }
  }

  /** The two criteria never disagree within the class. */
  ghost predicate Agreeing<T>(r: Rules<T>, records: seq<T>) {
    forall i, j :: 0 <= i < |records| && 0 <= j < |records| ==>
      !(r.rank(records[i]) > r.rank(records[j]) && r.detail(records[i]) < r.detail(records[j]))
  }

  /** A class in which the criteria agree has a best record. */
  lemma {:induction false} AgreeingHasBest<T>(r: Rules<T>, records: seq<T>)
    requires records != [] && Agreeing(r, records)
    ensures HasBest(r, records)
  {
    var n := |records| - 1;
    if n == 0 {
      assert IsBest(r, records, records[0]);
    } else {
      assert forall j :: 0 <= j < n ==> records[..n][j] == records[j];
      AgreeingHasBest(r, records[..n]);
      var i :| 0 <= i < n && IsBest(r, records[..n], records[..n][i]);
      if Beats(r, records[n], records[i]) {
        assert IsBest(r, records, records[n]);
      } else {
        assert IsBest(r, records, records[i]);
      }
    }
  }

  ghost predicate RankNonIncreasing<T>(r: Rules<T>, records: seq<T>) {
    forall i, j :: 0 <= i < j < |records| ==> r.rank(records[i]) >= r.rank(records[j])
  }

  /** The first record of maximal detail. */
  ghost predicate FirstMostDetailed<T>(r: Rules<T>, records: seq<T>, i: nat) {
    && i < |records|
    && (forall j :: 0 <= j < |records| ==> r.detail(records[j]) <= r.detail(records[i]))
    && (forall j :: 0 <= j < i ==> r.detail(records[j]) < r.detail(records[i]))
  }

  lemma FirstMostDetailedExtends<T>(r: Rules<T>, front: seq<T>, last: T, i: nat)
    requires FirstMostDetailed(r, front, i)
    ensures var all := front + [last];
            if r.detail(last) > r.detail(front[i]) then FirstMostDetailed(r, all, |front|)
            else FirstMostDetailed(r, all, i)
  {
  }

  /** On records of non-increasing rank the first record of maximal detail is kept. */
  lemma {:induction false} FirstMostDetailedWins<T>(r: Rules<T>, records: seq<T>)
    requires records != [] && RankNonIncreasing(r, records)
    ensures exists i: nat :: FirstMostDetailed(r, records, i) && records[i] == Winner(r, records)
  {
    var n := |records| - 1;
    if n == 0 {
      assert FirstMostDetailed(r, records, 0);
    } else {
      var front, last := records[..n], records[n];
      assert RankNonIncreasing(r, front);
      FirstMostDetailedWins(r, front);
      var i: nat :| FirstMostDetailed(r, front, i) && front[i] == Winner(r, front);
      FirstMostDetailedExtends(r, front, last, i);
      assert records == front + [last];
      assert r.rank(records[n]) <= r.rank(records[i]);
      WinnerExtends(r, front, last);
    }
  }
}
