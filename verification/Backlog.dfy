/** Sequences of queue rows: the routable ones, the others, and what deleting by id does. */
module Backlog {
  import opened Common
  import opened Protocol

  /** The rows, in order, whose type has a route (`routable`) or has none (`!routable`). */
  function Pick(rows: seq<Row>, routable: bool): (r: seq<Row>)
    ensures |r| <= |rows|
  {
    if rows == [] then []
    else if Routable(rows[0].kind) == routable then [rows[0]] + Pick(rows[1..], routable)
    else Pick(rows[1..], routable)
  }

  function Routables(rows: seq<Row>): seq<Row> { Pick(rows, true) }

  function Others(rows: seq<Row>): seq<Row> { Pick(rows, false) }

  predicate AllAre(rows: seq<Row>, routable: bool) {
    forall i :: 0 <= i < |rows| ==> Routable(rows[i].kind) == routable
  }

  lemma {:induction false} PickConcat(a: seq<Row>, b: seq<Row>, routable: bool)
    ensures Pick(a + b, routable) == Pick(a, routable) + Pick(b, routable)
  {
    if a == [] {
      assert a + b == b;
    } else {
      assert (a + b)[1..] == a[1..] + b;
      PickConcat(a[1..], b, routable);
    }
  }

  lemma {:induction false} PickUniform(a: seq<Row>, routable: bool)
    requires AllAre(a, routable)
    ensures Pick(a, routable) == a && Pick(a, !routable) == []
  {
    if a != [] { PickUniform(a[1..], routable); }
  }

  lemma {:induction false} PickSizes(a: seq<Row>)
    ensures |Routables(a)| + |Others(a)| == |a|
  {
    if a != [] { PickSizes(a[1..]); }
  }

  /** A row is picked exactly when it occurs and has the wanted routability. */
  lemma {:induction false} PickMembers(a: seq<Row>, routable: bool, r: Row)
    ensures r in Pick(a, routable) <==> r in a && Routable(r.kind) == routable
  {
    if a != [] { PickMembers(a[1..], routable, r); }
  }

  ghost predicate IdsIncrease(rows: seq<Row>) {
    forall i, j :: 0 <= i < j < |rows| ==> rows[i].id < rows[j].id
  }

  /** When ids increase, deleting by id removes exactly the row at that position. */
  lemma {:induction false} DeleteAt(rows: seq<Row>, k: nat)
    requires k < |rows| && IdsIncrease(rows)
    ensures DeleteId(rows, rows[k].id) == rows[..k] + rows[k + 1..]
  {
    if k == 0 {
      DeleteMissing(rows[1..], rows[0].id);
    } else {
      DeleteAt(rows[1..], k - 1);
      assert rows[1..][..k - 1] == rows[1..k];
      assert rows[1..][k..] == rows[k + 1..];
    }
  }

  lemma {:induction false} DeleteMissing(rows: seq<Row>, id: int)
    requires forall i :: 0 <= i < |rows| ==> rows[i].id != id
    ensures DeleteId(rows, id) == rows
  {
    if rows != [] { DeleteMissing(rows[1..], id); }
  }

  /** Removing the row behind an unroutable prefix removes the first routable row. */
  lemma PickWithoutHead(rows: seq<Row>, k: nat)
    requires k < |rows| && Routable(rows[k].kind) && AllAre(rows[..k], false)
    ensures Routables(rows) == [rows[k]] + Routables(rows[..k] + rows[k + 1..])
    ensures Others(rows) == Others(rows[..k] + rows[k + 1..])
  {
    var pre, head, post := rows[..k], [rows[k]], rows[k + 1..];
    assert rows == pre + (head + post);
    PickUniform(pre, false);
    PickUniform(head, true);
    PickConcat(pre, head + post, true);
    PickConcat(head, post, true);
    PickConcat(pre, post, true);
    PickConcat(pre, head + post, false);
    PickConcat(head, post, false);
    PickConcat(pre, post, false);
  }
}
