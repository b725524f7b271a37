/** How often a queued row can be acknowledged: an exact account of duplicates. */
module Duplicates {
  import opened Common
  import opened Protocol
  import opened Invariants

  function Bit(b: bool): nat { if b then 1 else 0 }

  /** How often the replay of `row` was acknowledged. */
  function Acks(log: seq<Receipt>, row: Row): nat {
    if log == [] then 0 else Acks(log[..|log| - 1], row) + Bit(log[|log| - 1] == Replay(row))
  }

  /** The acknowledged row a producer is about to delete. */
  function RowAt(pc: Pc): Option<Row> {
    if pc.FlushDeleting? && pc.pass.index < |pc.pass.items| then Some(pc.pass.items[pc.pass.index]) else None
  }

  ghost predicate AboutToDelete(s: State, row: Row) {
    exists p :: RowAt(s.pcs.At(p)) == Some(row)
  }

  ghost predicate Deleted(s: State, row: Row) { row in s.enqueued && row !in s.rows }

  /** The acknowledgement of `row` is wasted: its DELETE fails, or the agent crashes before it. */
  ghost predicate Mishap(s: State, l: Label, row: Row) {
    match l
    case Crash => AboutToDelete(s, row)
    case Step(p, a) => a == Delete(false) && RowAt(s.pcs.At(p)) == Some(row)
  }

  ghost function Mishaps(cfg: Config, s0: State, labels: seq<Label>, row: Row): nat
    requires Run(cfg, s0, labels).Some?
  {
    if labels == [] then 0
    else
      var front := labels[..|labels| - 1];
      Mishaps(cfg, s0, front, row) + Bit(Mishap(Run(cfg, s0, front).value, labels[|labels| - 1], row))
  }

  /** What is owed to an acknowledgement that was not wasted: the row is deleted, or about to be. */
  ghost function Settled(s: State, row: Row): nat { Bit(AboutToDelete(s, row)) + Bit(Deleted(s, row)) }

  // ---------------------------------------------------------------- one step

  predicate AcksRow(e: Effect, row: Row) {
    e.wire.Traffic? && Acceptable(e.wire.outcome) && e.wire.receipt == Replay(row)
  }

  /** A producer comes to delete a row exactly by an acknowledgement of it, and leaves it by the
      DELETE, which succeeds or fails. */
  lemma OwnRow(cfg: Config, rows: seq<Row>, config: map<Key, string>, p: Proc, pc: Pc, a: Action, row: Row)
    requires Act(cfg, rows, config, p, pc, a).Some?
    ensures var e := Act(cfg, rows, config, p, pc, a).value;
            && (RowAt(pc) != Some(row) ==> (RowAt(e.pc) == Some(row) <==> AcksRow(e, row)) && !IsDelete(e, pc, row))
            && (RowAt(pc) == Some(row) ==>
                  && !AcksRow(e, row)
                  && (RowAt(e.pc) == Some(row) <==> !IsDelete(e, pc, row) && a != Delete(false))
                  && (IsDelete(e, pc, row) ==> a != Delete(false)))
            && (RowAt(e.pc) != RowAt(pc) ==> Critical(pc))
            && (e.queue.DeleteRow? ==> RowAt(pc).Some? && IsDelete(e, pc, RowAt(pc).value))
  {
  }

  predicate IsDelete(e: Effect, pc: Pc, row: Row) { e.queue.DeleteRow? && RowAt(pc) == Some(row) }

  lemma AcksAfter(log: seq<Receipt>, op: WireOp, row: Row)
    ensures Acks(Acked(log, op), row) ==
            Acks(log, row) + Bit(op.Traffic? && Acceptable(op.outcome) && op.receipt == Replay(row))
  {
    if op.Traffic? { assert (log + [op.receipt])[..|log|] == log; }
  }

  /** While one producer is in its critical section, no other is about to delete a row. */
  lemma AboutToDeleteAfter(cfg: Config, s: State, p: Proc, e: Effect, row: Row)
    requires SingleEngine(cfg) && Inv(cfg, s) && (RowAt(e.pc) != RowAt(s.pcs.At(p)) ==> Critical(s.pcs.At(p)))
    ensures var s' := Apply(cfg, s, p, e);
            if Critical(s.pcs.At(p)) then
              && (AboutToDelete(s, row) <==> RowAt(s.pcs.At(p)) == Some(row))
              && (AboutToDelete(s', row) <==> RowAt(e.pc) == Some(row))
            else AboutToDelete(s', row) <==> AboutToDelete(s, row)
  {
    hide Act;
    var s' := Apply(cfg, s, p, e);
    assert s'.pcs.At(p) == e.pc;
    assert forall q :: q != p ==> s'.pcs.At(q) == s.pcs.At(q);
    forall q | Critical(s.pcs.At(p)) && RowAt(s.pcs.At(q)).Some? ensures q == p { MutualExclusion(cfg, s, p, q); }
  }

  /** Only the DELETE of a row, and only of that row, makes it a deleted one. */
  lemma DeletedAfter(cfg: Config, s: State, p: Proc, e: Effect, row: Row)
    requires Inv(cfg, s) && Disciplined(p, s.pcs.At(p), e)
    ensures Deleted(Apply(cfg, s, p, e), row) <==> Deleted(s, row) || IsDelete(e, s.pcs.At(p), row)
    ensures IsDelete(e, s.pcs.At(p), row) ==> !Deleted(s, row)
  {
    var s' := Apply(cfg, s, p, e);
    if e.queue.DeleteRow? {
      DeleteEffect(cfg, s, p, e);
      RemovedMembers(s, s.pcs.At(p).pass.index - s.pcs.At(p).pass.sent, row);
    } else if e.queue.InsertRow? {
      InsertedMembers(s, s'.enqueued[|s.enqueued|], row);
    }
  }

  lemma RemovedMembers(s: State, k: nat, row: Row)
    requires RowsOk(s) && k < |s.rows|
    ensures row in s.rows[..k] + s.rows[k + 1..] <==> row in s.rows && row != s.rows[k]
    ensures s.rows[k] in s.enqueued
  {
    assert IsInsert(s, s.rows[k]);
    assert s.rows == s.rows[..k] + [s.rows[k]] + s.rows[k + 1..];
    forall i | 0 <= i < |s.rows| && i != k ensures s.rows[i] != s.rows[k] {
      if i < k { assert s.rows[i].ticket < s.rows[k].ticket; } else { assert s.rows[k].ticket < s.rows[i].ticket; }
    }
  }

  lemma InsertedMembers(s: State, r: Row, row: Row)
    requires RowsOk(s) && r.ticket == |s.enqueued|
    ensures r !in s.enqueued
    ensures row in s.rows + [r] <==> row in s.rows || row == r
    ensures row in s.enqueued + [r] <==> row in s.enqueued || row == r
  {
  }

  lemma StepSettles(cfg: Config, s: State, p: Proc, a: Action, e: Effect, row: Row)
    requires SingleEngine(cfg) && Inv(cfg, s) && Enabled(cfg, s, p, a) == Some(e)
    ensures var s' := Apply(cfg, s, p, e);
            Acks(s'.acked, row) + Settled(s, row) ==
            Acks(s.acked, row) + Bit(Mishap(s, Step(p, a), row)) + Settled(s', row)
  {
    ProgramIsDisciplined(cfg, s.rows, s.config, p, s.pcs.At(p), a);
    OwnRow(cfg, s.rows, s.config, p, s.pcs.At(p), a, row);
    AcksAfter(s.acked, e.wire, row);
    AboutToDeleteAfter(cfg, s, p, e, row);
    DeletedAfter(cfg, s, p, e, row);
    hide Act, AboutToDelete, Deleted, Inv, Disciplined;
  }

  lemma CrashSettles(s: State, row: Row)
    ensures Settled(s, row) == Bit(Mishap(s, Crash, row)) + Settled(Restarted(s), row)
  {
    assert !AboutToDelete(Restarted(s), row);
  }

  // ---------------------------------------------------------------- the account

  /** In every run of the single-engine system, a row is acknowledged exactly once for each DELETE of
      it that failed, once for each crash between an acknowledgement and its DELETE, and once more
      if it is deleted or about to be. */
  lemma {:induction false} AcksAreAccountedFor(cfg: Config, s0: State, labels: seq<Label>, s: State, row: Row)
    requires SingleEngine(cfg) && Init(s0) && Run(cfg, s0, labels) == Some(s)
    ensures Acks(s.acked, row) == Mishaps(cfg, s0, labels, row) + Settled(s, row)
    decreases |labels|
  {
    InitEstablishes(cfg, s0);
    if labels != [] {
      var front, last := labels[..|labels| - 1], labels[|labels| - 1];
      var before := Run(cfg, s0, front).value;
      AcksAreAccountedFor(cfg, s0, front, before, row);
      RunKeeps(cfg, s0, front, before);
      hide Inv, Mishap, Settled;
      match last
      case Crash => CrashSettles(before, row);
      case Step(p, a) => StepSettles(cfg, before, p, a, Enabled(cfg, before, p, a).value, row);
    } else {
      assert forall p :: RowAt(s0.pcs.At(p)) == None;
    }
  }

  lemma AboutToDeleteIsLive(cfg: Config, s: State, row: Row)
    requires Inv(cfg, s)
    ensures Settled(s, row) <= 1
  {
    if AboutToDelete(s, row) {
      var p :| RowAt(s.pcs.At(p)) == Some(row);
      assert FlushOk(s.rows, s.acked, s.pcs.At(p));
      var pass := s.pcs.At(p).pass;
      assert s.rows[pass.index - pass.sent..][0] == pass.items[pass.index..][0];
    }
  }

  /** So duplicates are paid for: beyond the first acknowledgement, there is one failed DELETE or
      crash for each. */
  lemma DuplicatesAreBounded(cfg: Config, s0: State, labels: seq<Label>, s: State, row: Row)
    requires SingleEngine(cfg) && Init(s0) && Run(cfg, s0, labels) == Some(s)
    ensures Acks(s.acked, row) <= Mishaps(cfg, s0, labels, row) + 1
  {
    AcksAreAccountedFor(cfg, s0, labels, s, row);
    InitEstablishes(cfg, s0);
    RunKeeps(cfg, s0, labels, s);
    AboutToDeleteIsLive(cfg, s, row);
  }
}
