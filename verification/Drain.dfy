/** How fast passes that meet no failure empty the queue. */
module Drain {
  import opened Common
  import opened Protocol
  import opened Backlog
  import opened SyncEngine

  /** What a pass leaves when every send is acknowledged and every delete succeeds. */
  function CleanPass(rows: seq<Row>): seq<Row> {
    WithoutFirst(rows, |Routables(Window(rows))|)
  }

  /** It is what `Flush` leaves when it returns nil, and nothing more is missing otherwise. */
  lemma FlushIsCleanPass(rows0: seq<Row>, rows: seq<Row>, sent: nat, complete: bool)
    requires PassResult(rows0, rows, sent, complete)
    ensures complete ==> rows == CleanPass(rows0) && sent == |rows0| - |CleanPass(rows0)|
    ensures |rows| >= |CleanPass(rows0)|
  {
    CleanPassShape(rows0);
    PickSizes(Window(rows0));
  }

  function CleanPasses(rows: seq<Row>, passes: nat): seq<Row>
    decreases passes
  {
    if passes == 0 then rows else CleanPasses(CleanPass(rows), passes - 1)
  }

  lemma CleanPassShape(rows: seq<Row>)
    ensures |Routables(Window(rows))| <= |Routables(rows)|
    ensures CleanPass(rows) == Others(Window(rows)) + rows[|Window(rows)|..]
    ensures Routables(CleanPass(rows)) == Routables(rows)[|Routables(Window(rows))|..]
    ensures Others(CleanPass(rows)) == Others(rows)
  {
    var w, rest := Window(rows), rows[|Window(rows)|..];
    assert rows == w + rest;
    WithoutFirstPrefix(w, rest);
    PickConcat(w, rest, true);
    PickConcat(w, rest, false);
    OthersAreUnroutable(w);
    PickUniform(Others(w), false);
    PickConcat(Others(w), rest, true);
    PickConcat(Others(w), rest, false);
  }

  lemma {:induction false} OthersAreUnroutable(rows: seq<Row>)
    ensures AllAre(Others(rows), false)
  {
    if rows != [] { OthersAreUnroutable(rows[1..]); }
  }

  /** With k unroutable rows, a clean pass removes at least min(n, 100 - k) of n routable ones. */
  lemma PassRemoves(rows: seq<Row>)
    ensures var n, k, removed := |Routables(rows)|, |Others(rows)|, |rows| - |CleanPass(rows)|;
            Min(n, WINDOW - k) <= removed <= Min(n, WINDOW)
  {
    CleanPassShape(rows);
    PickSizes(rows);
    PickSizes(CleanPass(rows));
    var w, rest := Window(rows), rows[|Window(rows)|..];
    assert rows == w + rest;
    PickConcat(w, rest, false);
    PickSizes(w);
  }

  lemma AllRoutablePass(rows: seq<Row>)
    requires AllAre(rows, true)
    ensures CleanPass(rows) == rows[|Window(rows)|..]
  {
    CleanPassShape(rows);
    PickUniform(Window(rows), true);
  }

  /** Without unroutable rows, the j-th clean pass leaves what follows the first 100 j rows. */
  lemma {:induction false} PassesTakeHundreds(rows: seq<Row>, passes: nat)
    requires AllAre(rows, true)
    ensures CleanPasses(rows, passes) == rows[Min(WINDOW * passes, |rows|)..]
    decreases passes
  {
    if passes > 0 {
      var next := rows[|Window(rows)|..];
      AllRoutablePass(rows);
      PassesTakeHundreds(next, passes - 1);
      assert next[Min(WINDOW * (passes - 1), |next|)..] == rows[Min(WINDOW * passes, |rows|)..];
    }
  }

  /** So a queue of n rows is empty after ceil(n / 100) clean passes and not before. */
  lemma EmptyAfterCeiling(rows: seq<Row>, passes: nat)
    requires AllAre(rows, true)
    ensures CleanPasses(rows, passes) == [] <==> passes >= (|rows| + WINDOW - 1) / WINDOW
  {
    PassesTakeHundreds(rows, passes);
  }

  /** With k < 100 unroutable rows, n routable ones are gone once (100 - k) passes >= n. */
  lemma {:induction false} DrainsAroundForeignRows(rows: seq<Row>, passes: nat)
    requires |Others(rows)| < WINDOW
    requires (WINDOW - |Others(rows)|) * passes >= |Routables(rows)|
    ensures Routables(CleanPasses(rows, passes)) == [] && Others(CleanPasses(rows, passes)) == Others(rows)
    decreases passes
  {
    if passes > 0 {
      PassShrinks(rows);
      var step, left := WINDOW - |Others(rows)|, |Routables(CleanPass(rows))|;
      OnePassLess(step, passes, |Routables(rows)|, left);
      DrainsAroundForeignRows(CleanPass(rows), passes - 1);
    }
  }

  lemma OnePassLess(step: nat, passes: nat, n: nat, left: nat)
    requires passes > 0 && step * passes >= n && (left == 0 || left <= n - step)
    ensures step * (passes - 1) >= left
  {
    assert step * passes == step * (passes - 1) + step;
  }

  lemma PassShrinks(rows: seq<Row>)
    ensures var n, left := |Routables(rows)|, |Routables(CleanPass(rows))|;
            left == 0 || left <= n - (WINDOW - |Others(rows)|)
    ensures Others(CleanPass(rows)) == Others(rows)
  {
    CleanPassShape(rows);
    PassRemoves(rows);
    PickSizes(rows);
    PickSizes(CleanPass(rows));
  }

  /** A clean pass makes no progress exactly when its window holds no routable row; then no
      number of passes does, and rows queued later are never sent. */
  lemma BlockedIff(rows: seq<Row>)
    ensures CleanPass(rows) == rows <==> AllAre(Window(rows), false)
  {
    var w := Window(rows);
    CleanPassShape(rows);
    PickSizes(rows);
    PickSizes(CleanPass(rows));
    PickSizes(w);
    if AllAre(w, false) {
      PickUniform(w, false);
      assert rows == w + rows[|w|..];
    } else {
      var i :| 0 <= i < |w| && Routable(w[i].kind);
      PickMembers(w, true, w[i]);
    }
  }

  lemma {:induction false} BlockedForever(rows: seq<Row>, later: seq<Row>, passes: nat)
    requires |rows| >= WINDOW && AllAre(rows[..WINDOW], false)
    ensures CleanPasses(rows + later, passes) == rows + later
    decreases passes
  {
    if passes > 0 {
      assert Window(rows + later) == rows[..WINDOW];
      BlockedIff(rows + later);
      BlockedForever(rows, later, passes - 1);
    }
  }
}
