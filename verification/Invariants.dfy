/** The inductive invariant of the single-engine system. */
module Invariants {
  import opened Common
  import opened Protocol
  import opened Backlog

  // ---------------------------------------------------------------- the invariant

  /** The mutex of an engine is held exactly by the producer that is inside its critical section. */
  ghost predicate LocksOk(cfg: Config, s: State) {
    && (forall p :: Critical(s.pcs.At(p)) ==>
          cfg.engine(p) in s.holders && s.holders[cfg.engine(p)] == p)
    && (forall e :: e in s.holders ==>
          Critical(s.pcs.At(s.holders[e])) && cfg.engine(s.holders[e]) == e)
  }

  ghost predicate IsInsert(s: State, r: Row) {
    r.ticket < |s.enqueued| && s.enqueued[r.ticket] == r
  }

  /** Id order agrees with enqueue order on live rows, and live rows are unchanged inserts. */
  ghost predicate RowsOk(s: State) {
    && (forall i :: 0 <= i < |s.enqueued| ==> s.enqueued[i].ticket == i)
    && (forall i :: 0 <= i < |s.rows| ==> IsInsert(s, s.rows[i]))
    && IdsIncrease(s.rows)
    && TicketsIncrease(s.rows)
  }

  ghost predicate TicketsIncrease(rows: seq<Row>) {
    forall i, j :: 0 <= i < j < |rows| ==> rows[i].ticket < rows[j].ticket
  }

  /** The routable rows left are a suffix of all routable inserts; what is gone was acknowledged. */
  ghost predicate LedgerOk(s: State) {
    && s.deleted <= |Routables(s.enqueued)|
    && Routables(s.rows) == Routables(s.enqueued)[s.deleted..]
    && Others(s.rows) == Others(s.enqueued)
    && (forall i :: 0 <= i < s.deleted ==> Replay(Routables(s.enqueued)[i]) in s.acked)
  }

  /** Replays reached the Portal in enqueue order. */
  ghost predicate ReplaysOrdered(log: seq<Receipt>) {
    forall i, j :: 0 <= i < j < |log| && log[i].Replay? && log[j].Replay? ==>
      log[i].row.ticket <= log[j].row.ticket
  }

  /** A replay received so far is of a routable insert, and not ahead of any routable row left. */
  ghost predicate ReceiptOk(s: State, r: Receipt) {
    r.Replay? ==>
      && IsInsert(s, r.row) && Routable(r.row.kind)
      && forall k :: 0 <= k < |s.rows| && Routable(s.rows[k].kind) ==> r.row.ticket <= s.rows[k].ticket
  }

  ghost predicate ReceiptsOk(s: State) {
    && ReplaysOrdered(s.received)
    && (forall i :: 0 <= i < |s.received| ==> ReceiptOk(s, s.received[i]))
  }

  /** The agent has seen acknowledged only what the Portal received. */
  ghost predicate AcksOk(s: State) {
    forall r :: r in s.acked ==> r in s.received
  }

  /** The rows a pass still has to handle are live, in place, behind unroutable rows only. */
  ghost predicate PassOk(rows: seq<Row>, pass: Pass) {
    && pass.sent <= pass.index <= |pass.items|
    && var skipped, left := pass.index - pass.sent, |pass.items| - pass.index;
    && skipped + left <= |rows|
    && rows[skipped..skipped + left] == pass.items[pass.index..]
    && AllAre(rows[..skipped], false)
    && (pass.covered ==> skipped + left == |rows|)
  }

  ghost predicate FlushOk(rows: seq<Row>, acked: seq<Receipt>, pc: Pc) {
    && (pc.Flushing? || pc.FlushSending? || pc.FlushDeleting? ==> PassOk(rows, pc.pass))
    && (pc.FlushSending? || pc.FlushDeleting? ==> AtRoutable(pc.pass))
    && (pc.FlushDeleting? ==>
          acked != [] && acked[|acked| - 1] == Replay(pc.pass.items[pc.pass.index]))
  }

  /** The payload was acknowledged when sent live, or put into the queue. */
  ghost predicate Emitted(s: State, kind: Kind, payload: Bytes) {
    || Live(kind, payload) in s.acked
    || exists i :: 0 <= i < |s.enqueued| && s.enqueued[i].kind == kind && s.enqueued[i].payload == payload
  }

  /** The fingerprint is that of a genuine payload of `p` which was handed over. */
  ghost predicate Covered(cfg: Config, s: State, p: Proc, f: string) {
    exists payload :: Emitted(s, KindOf(p), payload) && cfg.genuine(p, payload) && cfg.fingerprint(payload) == f
  }

  ghost predicate SuppressionOk(cfg: Config, s: State) {
    && (forall p :: s.pcs.At(p).Persisting? ==> Emitted(s, KindOf(p), s.pcs.At(p).payload))
    && (InventoryFingerprint in s.config ==> Covered(cfg, s, Inventory, s.config[InventoryFingerprint]))
    && (SoftwareFingerprint in s.config ==> Covered(cfg, s, Software, s.config[SoftwareFingerprint]))
  }

  /** The payload a producer has collected and not yet finished with. */
  function Carried(pc: Pc): Option<Bytes> {
    if pc.Ready? || pc.SendLocked? || pc.LiveSending? || pc.LiveFailed? || pc.Persisting? then Some(pc.payload)
    else None
  }

  /** It is one that the producer makes. */
  ghost predicate PayloadsOk(cfg: Config, s: State) {
    forall p :: Carried(s.pcs.At(p)).Some? ==> cfg.genuine(p, Carried(s.pcs.At(p)).value)
  }

  ghost predicate Inv(cfg: Config, s: State) {
    && LocksOk(cfg, s)
    && RowsOk(s)
    && LedgerOk(s)
    && ReceiptsOk(s)
    && (forall p :: FlushOk(s.rows, s.acked, s.pcs.At(p)))
    && AcksOk(s)
    && SuppressionOk(cfg, s)
    && PayloadsOk(cfg, s)
  }

  // ---------------------------------------------------------------- it holds initially

  lemma InitEstablishes(cfg: Config, s: State)
    requires Init(s)
    ensures Inv(cfg, s)
  {
  }

  // ---------------------------------------------------------------- it is kept by every step

  lemma MutualExclusion(cfg: Config, s: State, p: Proc, q: Proc)
    requires SingleEngine(cfg) && LocksOk(cfg, s)
    requires Critical(s.pcs.At(p)) && Critical(s.pcs.At(q))
    ensures p == q
  {
  }

  /** What any effect of the program looks like from outside. */
  ghost predicate Disciplined(p: Proc, pc: Pc, e: Effect) {
    // The mutex is taken on entering a critical section and released on leaving it.
    && Critical(pc) == (e.lock.Release? || (e.lock.Hold? && Critical(e.pc)))
    && Critical(e.pc) == (e.lock.Take? || (e.lock.Hold? && Critical(pc)))
    // Queue and network are touched only at these points, and never together.
    && (e.queue.DeleteRow? ==>
          && pc.FlushDeleting? && pc.pass.index < |pc.pass.items| && e.wire.NoTraffic?
          && e.queue.id == pc.pass.items[pc.pass.index].id
          && e.pc == Flushing(pc.pass.(index := pc.pass.index + 1, sent := pc.pass.sent + 1)))
    && (e.queue.InsertRow? ==>
          && pc.LiveFailed? && e.wire.NoTraffic? && e.pc == Persisting(pc.payload)
          && e.queue.kind == KindOf(p) && e.queue.payload == pc.payload)
    && (e.wire.Traffic? ==>
          || (pc.FlushSending? && pc.pass.index < |pc.pass.items|
              && e.wire.receipt == Replay(pc.pass.items[pc.pass.index]))
          || (pc.LiveSending? && e.wire.receipt == Live(KindOf(p), pc.payload)))
  }

  lemma ProgramIsDisciplined(cfg: Config, rows: seq<Row>, config: map<Key, string>, p: Proc, pc: Pc, a: Action)
    ensures Act(cfg, rows, config, p, pc, a).Some? ==>
              Disciplined(p, pc, Act(cfg, rows, config, p, pc, a).value)
  {
  }

  /** Where a producer can be after an effect, as far as the invariant speaks of program points. */
  ghost predicate Moves(cfg: Config, rows: seq<Row>, p: Proc, pc: Pc, e: Effect) {
    || (e.pc == pc && e.queue.LeaveQueue? && e.wire.NoTraffic?
        && (e.put.PutKey? ==> !IsFingerprintKey(e.put.key)))
    || (&& (e.pc.Flushing? ==>
              || e.queue.DeleteRow?
              || (pc.Flushing? && pc.pass.index < |pc.pass.items| && !AtRoutable(pc.pass) && e.queue.LeaveQueue?
                  && e.pc.pass == pc.pass.(index := pc.pass.index + 1))
              || (e.queue.LeaveQueue?
                  && e.pc.pass == Pass(rows[..Min(WINDOW, |rows|)], 0, 0, |rows| <= WINDOW)))
        && (e.pc.FlushSending? ==>
              && e.queue.LeaveQueue?
              && ((pc.Flushing? && AtRoutable(pc.pass)) || pc.FlushSending?) && e.pc.pass == pc.pass)
        && (e.pc.FlushDeleting? ==>
              && e.queue.LeaveQueue? && pc.FlushSending? && e.pc.pass == pc.pass
              && e.wire.Traffic? && Acceptable(e.wire.outcome))
        && (e.pc.Persisting? ==>
              || (e.queue.InsertRow? && e.queue.payload == e.pc.payload && e.queue.kind == KindOf(p))
              || (e.wire.Traffic? && Acceptable(e.wire.outcome)
                  && e.wire.receipt == Live(KindOf(p), e.pc.payload)))
        && (e.put.PutKey? ==>
              && pc.Persisting? && FingerprintKey(p) == Some(e.put.key)
              && e.put.value == cfg.fingerprint(pc.payload)))
  }

  lemma ProgramMoves(cfg: Config, rows: seq<Row>, config: map<Key, string>, p: Proc, pc: Pc, a: Action)
    ensures Act(cfg, rows, config, p, pc, a).Some? ==>
              Moves(cfg, rows, p, pc, Act(cfg, rows, config, p, pc, a).value)
  {
  }

  lemma KeepsLocks(cfg: Config, s: State, p: Proc, e: Effect)
    requires SingleEngine(cfg) && LocksOk(cfg, s) && Disciplined(p, s.pcs.At(p), e)
    requires e.lock.Take? ==> cfg.engine(p) !in s.holders
    ensures LocksOk(cfg, Apply(cfg, s, p, e))
  {
  }

  /** A DELETE removes exactly the acknowledged row, which is the first routable row left. */
  lemma DeleteEffect(cfg: Config, s: State, p: Proc, e: Effect)
    requires Inv(cfg, s) && Disciplined(p, s.pcs.At(p), e) && e.queue.DeleteRow?
    ensures var pass := s.pcs.At(p).pass;
            var k := pass.index - pass.sent;
            && 0 <= k < |s.rows| && s.rows[k] == pass.items[pass.index]
            && Routable(s.rows[k].kind) && AllAre(s.rows[..k], false)
            && NewRows(s, e.queue) == s.rows[..k] + s.rows[k + 1..]
            && NewDeleted(s, e.queue) == s.deleted + 1
  {
    var pass := s.pcs.At(p).pass;
    assert FlushOk(s.rows, s.acked, s.pcs.At(p));
    var k := pass.index - pass.sent;
    assert s.rows[k] == s.rows[k..][0];
    DeleteAt(s.rows, k);
  }

  // The three ways a step can change the queue.

  ghost predicate SameQueue(s: State, s': State) {
    s'.rows == s.rows && s'.enqueued == s.enqueued && s'.deleted == s.deleted
  }

  ghost predicate InsertedRow(s: State, s': State, row: Row) {
    && s'.rows == s.rows + [row] && s'.enqueued == s.enqueued + [row] && s'.deleted == s.deleted
    && row.id == NextId(s.rows) && row.ticket == |s.enqueued|
  }

  ghost predicate RemovedRow(s: State, s': State, k: nat) {
    && k < |s.rows| && Routable(s.rows[k].kind) && AllAre(s.rows[..k], false)
    && s'.rows == s.rows[..k] + s.rows[k + 1..]
    && s'.enqueued == s.enqueued && s'.deleted == s.deleted + 1
  }

  lemma InsertKeepsRows(s: State, s': State, row: Row)
    requires RowsOk(s) && InsertedRow(s, s', row)
    ensures RowsOk(s')
  {
  }

  lemma RemoveKeepsRows(s: State, s': State, k: nat)
    requires RowsOk(s) && RemovedRow(s, s', k)
    ensures RowsOk(s')
  {
    forall i | 0 <= i < |s'.rows| ensures IsInsert(s', s'.rows[i]) {
      assert s'.rows[i] == if i < k then s.rows[i] else s.rows[i + 1];
      assert IsInsert(s, s'.rows[i]);
    }
  }

  lemma InsertKeepsLedger(s: State, s': State, row: Row)
    requires LedgerOk(s) && InsertedRow(s, s', row) && s'.acked == s.acked
    ensures LedgerOk(s')
  {
    PickConcat(s.rows, [row], true);
    PickConcat(s.rows, [row], false);
    PickConcat(s.enqueued, [row], true);
    PickConcat(s.enqueued, [row], false);
  }

  lemma RemoveKeepsLedger(s: State, s': State, k: nat)
    requires LedgerOk(s) && RemovedRow(s, s', k) && s'.acked == s.acked
    requires Replay(s.rows[k]) in s.acked
    ensures LedgerOk(s')
  {
    PickWithoutHead(s.rows, k);
    var all := Routables(s.enqueued);
    assert all[s.deleted] == all[s.deleted..][0] == s.rows[k];
    assert all[s.deleted..][1..] == all[s'.deleted..];
  }

  lemma InsertKeepsReceipts(s: State, s': State, row: Row)
    requires RowsOk(s) && ReceiptsOk(s) && InsertedRow(s, s', row) && s'.received == s.received
    ensures ReceiptsOk(s')
  {
    forall i | 0 <= i < |s'.received| ensures ReceiptOk(s', s'.received[i]) {
      assert ReceiptOk(s, s.received[i]);
    }
  }

  lemma RemoveKeepsReceipts(s: State, s': State, k: nat)
    requires ReceiptsOk(s) && RemovedRow(s, s', k) && s'.received == s.received
    ensures ReceiptsOk(s')
  {
    forall i | 0 <= i < |s'.received| ensures ReceiptOk(s', s'.received[i]) {
      assert ReceiptOk(s, s.received[i]);
    }
  }

  lemma FirstRoutableIsOldest(s: State, k: nat)
    requires RowsOk(s) && k < |s.rows| && AllAre(s.rows[..k], false)
    ensures forall j :: 0 <= j < |s.rows| && Routable(s.rows[j].kind) ==> s.rows[k].ticket <= s.rows[j].ticket
  {
    assert forall j :: 0 <= j < k ==> s.rows[..k][j] == s.rows[j];
  }

  /** Receiving the first routable row left keeps the receipts in order. */
  lemma ReplayKeepsReceipts(s: State, s': State, k: nat)
    requires RowsOk(s) && ReceiptsOk(s) && SameQueue(s, s')
    requires k < |s.rows| && Routable(s.rows[k].kind) && AllAre(s.rows[..k], false)
    requires s'.received == s.received || s'.received == s.received + [Replay(s.rows[k])]
    ensures ReceiptsOk(s')
  {
    assert IsInsert(s, s.rows[k]);
    FirstRoutableIsOldest(s, k);
    forall i | 0 <= i < |s'.received| ensures ReceiptOk(s', s'.received[i]) {
      if i < |s.received| { assert ReceiptOk(s, s.received[i]); }
    }
    forall i | 0 <= i < |s.received| && s.received[i].Replay?
      ensures s.received[i].row.ticket <= s.rows[k].ticket
    {
      assert ReceiptOk(s, s.received[i]);
    }
  }

  lemma LiveKeepsReceipts(s: State, s': State, r: Receipt)
    requires ReceiptsOk(s) && SameQueue(s, s') && r.Live?
    requires s'.received == s.received || s'.received == s.received + [r]
    ensures ReceiptsOk(s')
  {
    forall i | 0 <= i < |s'.received| ensures ReceiptOk(s', s'.received[i]) {
      if i < |s.received| { assert ReceiptOk(s, s.received[i]); }
    }
  }

  lemma KeepsTables(cfg: Config, s: State, p: Proc, e: Effect)
    requires Inv(cfg, s) && Disciplined(p, s.pcs.At(p), e)
    ensures var s' := Apply(cfg, s, p, e); RowsOk(s') && LedgerOk(s') && ReceiptsOk(s') && AcksOk(s')
  {
    var s' := Apply(cfg, s, p, e);
    if e.queue.DeleteRow? {
      DeleteKeepsTables(cfg, s, p, e);
    } else if e.queue.InsertRow? {
      var row := s'.enqueued[|s.enqueued|];
      InsertKeepsRows(s, s', row);
      InsertKeepsLedger(s, s', row);
      InsertKeepsReceipts(s, s', row);
    } else if e.wire.Traffic? {
      TrafficKeepsReceipts(cfg, s, p, e);
    }
  }

  lemma DeleteKeepsTables(cfg: Config, s: State, p: Proc, e: Effect)
    requires Inv(cfg, s) && Disciplined(p, s.pcs.At(p), e) && e.queue.DeleteRow?
    ensures var s' := Apply(cfg, s, p, e); RowsOk(s') && LedgerOk(s') && ReceiptsOk(s')
  {
    var s' := Apply(cfg, s, p, e);
    assert FlushOk(s.rows, s.acked, s.pcs.At(p));
    DeleteEffect(cfg, s, p, e);
    var k := s.pcs.At(p).pass.index - s.pcs.At(p).pass.sent;
    RemoveKeepsRows(s, s', k);
    RemoveKeepsLedger(s, s', k);
    RemoveKeepsReceipts(s, s', k);
  }

  lemma TrafficKeepsReceipts(cfg: Config, s: State, p: Proc, e: Effect)
    requires Inv(cfg, s) && Disciplined(p, s.pcs.At(p), e) && e.queue.LeaveQueue? && e.wire.Traffic?
    ensures ReceiptsOk(Apply(cfg, s, p, e))
  {
    var s' := Apply(cfg, s, p, e);
    if e.wire.receipt.Replay? {
      assert FlushOk(s.rows, s.acked, s.pcs.At(p));
      var pass := s.pcs.At(p).pass;
      var k := pass.index - pass.sent;
      assert s.rows[k] == s.rows[k..][0] == pass.items[pass.index];
      ReplayKeepsReceipts(s, s', k);
    } else {
      LiveKeepsReceipts(s, s', e.wire.receipt);
    }
  }

  lemma KeepsFlush(cfg: Config, s: State, p: Proc, e: Effect)
    requires SingleEngine(cfg) && Inv(cfg, s)
    requires Disciplined(p, s.pcs.At(p), e) && Moves(cfg, s.rows, p, s.pcs.At(p), e)
    ensures forall q :: FlushOk(Apply(cfg, s, p, e).rows, Apply(cfg, s, p, e).acked, Apply(cfg, s, p, e).pcs.At(q))
  {
    var s' := Apply(cfg, s, p, e);
    forall q ensures FlushOk(s'.rows, s'.acked, s'.pcs.At(q)) {
      if q != p {
        KeepsOthersFlush(cfg, s, p, e, q);
      } else if e.queue.DeleteRow? {
        DeleteAdvances(cfg, s, p, e);
      } else {
        KeepsOwnFlush(cfg, s.rows, s.acked, p, s.pcs.At(p), e);
      }
    }
  }

  lemma KeepsOthersFlush(cfg: Config, s: State, p: Proc, e: Effect, q: Proc)
    requires SingleEngine(cfg) && Inv(cfg, s) && Disciplined(p, s.pcs.At(p), e)
    requires q != p
    ensures FlushOk(Apply(cfg, s, p, e).rows, Apply(cfg, s, p, e).acked, s.pcs.At(q))
  {
    if Critical(s.pcs.At(q)) && Critical(s.pcs.At(p)) { MutualExclusion(cfg, s, p, q); }
  }

  lemma DeleteAdvances(cfg: Config, s: State, p: Proc, e: Effect)
    requires Inv(cfg, s) && Disciplined(p, s.pcs.At(p), e) && e.queue.DeleteRow?
    ensures FlushOk(Apply(cfg, s, p, e).rows, Apply(cfg, s, p, e).acked, e.pc)
  {
    hide DeleteId, NextId;
    DeleteEffect(cfg, s, p, e);
    AdvancePass(s.rows, s.pcs.At(p).pass, NewRows(s, e.queue));
  }

  lemma KeepsOwnFlush(cfg: Config, rows: seq<Row>, acked: seq<Receipt>, p: Proc, pc: Pc, e: Effect)
    requires FlushOk(rows, acked, pc) && Disciplined(p, pc, e) && Moves(cfg, rows, p, pc, e)
    requires !e.queue.DeleteRow?
    ensures FlushOk(rows, Acked(acked, e.wire), e.pc)
  {
    FreshPass(rows);
    if pc.Flushing? && pc.pass.index < |pc.pass.items| && !AtRoutable(pc.pass) { SkipPass(rows, pc.pass); }
  }

  lemma FreshPass(rows: seq<Row>)
    ensures PassOk(rows, Pass(rows[..Min(WINDOW, |rows|)], 0, 0, |rows| <= WINDOW))
  {
    var items := rows[..Min(WINDOW, |rows|)];
    assert rows[0..|items|] == items[0..];
  }

  lemma AdvancePass(rows: seq<Row>, pass: Pass, rows': seq<Row>)
    requires PassOk(rows, pass) && AtRoutable(pass)
    requires var k := pass.index - pass.sent; rows' == rows[..k] + rows[k + 1..]
    ensures PassOk(rows', pass.(index := pass.index + 1, sent := pass.sent + 1))
  {
    var k, left := pass.index - pass.sent, |pass.items| - pass.index;
    assert rows'[..k] == rows[..k];
    assert rows'[k..k + left - 1] == rows[k..k + left][1..];
    assert pass.items[pass.index + 1..] == pass.items[pass.index..][1..];
  }

  lemma SkipPass(rows: seq<Row>, pass: Pass)
    requires PassOk(rows, pass) && pass.index < |pass.items| && !AtRoutable(pass)
    ensures PassOk(rows, pass.(index := pass.index + 1))
  {
    var k, left := pass.index - pass.sent, |pass.items| - pass.index;
    assert rows[k] == rows[k..k + left][0] == pass.items[pass.index];
    assert rows[..k + 1] == rows[..k] + [rows[k]];
    assert rows[k + 1..k + left] == rows[k..k + left][1..];
    assert pass.items[pass.index + 1..] == pass.items[pass.index..][1..];
  }

  lemma KeepsSuppression(cfg: Config, s: State, p: Proc, e: Effect)
    requires Inv(cfg, s) && Moves(cfg, s.rows, p, s.pcs.At(p), e)
    ensures SuppressionOk(cfg, Apply(cfg, s, p, e))
  {
    var s' := Apply(cfg, s, p, e);
    EmittedGrows(cfg, s, s');
    if e.queue.InsertRow? {
      assert s'.enqueued[|s.enqueued|].payload == e.queue.payload;
    }
    forall q | s'.pcs.At(q).Persisting? ensures Emitted(s', KindOf(q), s'.pcs.At(q).payload) {
      if q != p || e.pc == s.pcs.At(p) { assert Emitted(s, KindOf(q), s.pcs.At(q).payload); }
    }
  }

  lemma ProgramCarries(cfg: Config, rows: seq<Row>, config: map<Key, string>, p: Proc, pc: Pc, a: Action)
    ensures var e := Act(cfg, rows, config, p, pc, a);
            e.Some? && Carried(e.value.pc).Some? ==>
              Carried(e.value.pc) == Carried(pc) || cfg.genuine(p, Carried(e.value.pc).value)
  {
  }

  lemma KeepsPayloads(cfg: Config, s: State, p: Proc, a: Action, e: Effect)
    requires PayloadsOk(cfg, s) && Enabled(cfg, s, p, a) == Some(e)
    ensures PayloadsOk(cfg, Apply(cfg, s, p, e))
  {
    ProgramCarries(cfg, s.rows, s.config, p, s.pcs.At(p), a);
    hide Act;
    var s' := Apply(cfg, s, p, e);
    forall q | Carried(s'.pcs.At(q)).Some? ensures cfg.genuine(q, Carried(s'.pcs.At(q)).value) {
      assert s'.pcs.At(q) == if q == p then e.pc else s.pcs.At(q);
      assert Carried(s.pcs.At(q)).Some? ==> cfg.genuine(q, Carried(s.pcs.At(q)).value);
    }
  }

  lemma EmittedGrows(cfg: Config, s: State, s': State)
    requires s.acked <= s'.acked && s.enqueued <= s'.enqueued
    ensures forall k, x :: Emitted(s, k, x) ==> Emitted(s', k, x)
    ensures forall p, f :: Covered(cfg, s, p, f) ==> Covered(cfg, s', p, f)
  {
  }

  lemma NextKeeps(cfg: Config, s: State, l: Label, s': State)
    requires SingleEngine(cfg) && Inv(cfg, s) && Next(cfg, s, l) == Some(s')
    ensures Inv(cfg, s')
  {
    if l.Step? {
      var p, a := l.proc, l.action;
      var e := Enabled(cfg, s, p, a).value;
      ProgramIsDisciplined(cfg, s.rows, s.config, p, s.pcs.At(p), a);
      KeepsLocks(cfg, s, p, e);
      ProgramMoves(cfg, s.rows, s.config, p, s.pcs.At(p), a);
      KeepsTables(cfg, s, p, e);
      KeepsFlush(cfg, s, p, e);
      KeepsSuppression(cfg, s, p, e);
      KeepsPayloads(cfg, s, p, a, e);
    }
  }

  lemma {:induction false} RunKeeps(cfg: Config, s: State, labels: seq<Label>, s': State)
    requires SingleEngine(cfg) && Inv(cfg, s) && Run(cfg, s, labels) == Some(s')
    ensures Inv(cfg, s')
    decreases |labels|
  {
    if labels != [] {
      var init, last := labels[..|labels| - 1], labels[|labels| - 1];
      RunKeeps(cfg, s, init, Run(cfg, s, init).value);
      NextKeeps(cfg, Run(cfg, s, init).value, last, s');
    }
  }

  lemma ReachableInv(cfg: Config, s: State)
    requires SingleEngine(cfg) && Reachable(cfg, s)
    ensures Inv(cfg, s)
  {
    var s0, labels :| Init(s0) && Run(cfg, s0, labels) == Some(s);
    InitEstablishes(cfg, s0);
    RunKeeps(cfg, s0, labels, s);
  }
}
