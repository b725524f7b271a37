/** What the delivery protocol guarantees in every reachable state of the single-engine system. */
module Delivery {
  import opened Common
  import opened Protocol
  import opened Backlog
  import opened Invariants

  /** FIFO without loss: what is queued is a suffix of what was ever queued, and every row that
      is gone was acknowledged. Unroutable rows are never touched. */
  lemma QueueIsSuffixOfHistory(cfg: Config, s: State)
    requires SingleEngine(cfg) && Reachable(cfg, s)
    ensures s.deleted <= |Routables(s.enqueued)|
    ensures Routables(s.rows) == Routables(s.enqueued)[s.deleted..]
    ensures Others(s.rows) == Others(s.enqueued)
    ensures forall i :: 0 <= i < s.deleted ==> Replay(Routables(s.enqueued)[i]) in s.acked
  {
    ReachableInv(cfg, s);
  }

  /** Conservation: every insert is still in the table or was deleted. */
  lemma InsertsAreQueuedOrDeleted(cfg: Config, s: State)
    requires SingleEngine(cfg) && Reachable(cfg, s)
    ensures |s.enqueued| == s.deleted + |s.rows|
  {
    ReachableInv(cfg, s);
    PickSizes(s.rows);
    PickSizes(s.enqueued);
  }

  lemma DeletedOrLeft(all: seq<Row>, deleted: nat, row: Row)
    requires deleted <= |all| && row in all
    ensures row in all[deleted..] || exists i :: 0 <= i < deleted && all[i] == row
  {
    var i :| 0 <= i < |all| && all[i] == row;
    if i >= deleted { assert all[deleted..][i - deleted] == row; }
  }

  /** A payload once reported as queued is still queued, or has been acknowledged. */
  lemma NothingQueuedIsLost(cfg: Config, s: State, row: Row)
    requires SingleEngine(cfg) && Reachable(cfg, s) && row in s.enqueued
    ensures row in s.rows || (Replay(row) in s.acked && Replay(row) in s.received)
  {
    hide Run, Reachable;
    ReachableInv(cfg, s);
    if Routable(row.kind) {
      PickMembers(s.enqueued, true, row);
      PickMembers(s.rows, true, row);
      DeletedOrLeft(Routables(s.enqueued), s.deleted, row);
    } else {
      PickMembers(s.enqueued, false, row);
      PickMembers(s.rows, false, row);
    }
  }

  /** Replays reach the Portal in enqueue order, through retries, lost replies, failed deletes,
      restarts and reused ids; a row received again is received before any later row. */
  lemma ReplaysArriveInOrder(cfg: Config, s: State, i: nat, j: nat, k: nat)
    requires SingleEngine(cfg) && Reachable(cfg, s)
    requires i < j < k < |s.received|
    requires s.received[i].Replay? && s.received[j].Replay? && s.received[k].Replay?
    ensures s.received[i].row.ticket <= s.received[j].row.ticket <= s.received[k].row.ticket
    ensures s.received[i] == s.received[k] ==> s.received[j] == s.received[i]
  {
    ReachableInv(cfg, s);
    assert ReceiptOk(s, s.received[i]) && ReceiptOk(s, s.received[j]) && ReceiptOk(s, s.received[k]);
  }

  /** No receipt runs ahead of the queue: a replay the Portal has seen is not newer than any
      routable row still waiting. */
  lemma NoReplayOvertakes(cfg: Config, s: State, r: Receipt, live: Row)
    requires SingleEngine(cfg) && Reachable(cfg, s)
    requires r in s.received && r.Replay? && live in s.rows && Routable(live.kind)
    ensures r.row.ticket <= live.ticket
  {
    ReachableInv(cfg, s);
    var i :| 0 <= i < |s.received| && s.received[i] == r;
    assert ReceiptOk(s, s.received[i]);
  }

  /** Inside a pass, every row of the snapshot not yet handled is still the live row with that
      id, so the DELETE of an acknowledged row removes that row and nothing else. */
  lemma SnapshotStaysLive(cfg: Config, s: State, p: Proc, i: nat)
    requires SingleEngine(cfg) && Reachable(cfg, s)
    requires s.pcs.At(p).Flushing? || s.pcs.At(p).FlushSending? || s.pcs.At(p).FlushDeleting?
    requires s.pcs.At(p).pass.index <= i < |s.pcs.At(p).pass.items|
    ensures s.pcs.At(p).pass.items[i] in s.rows
    ensures forall r :: r in s.rows && r.id == s.pcs.At(p).pass.items[i].id ==> r == s.pcs.At(p).pass.items[i]
    ensures forall q :: q != p ==> !Critical(s.pcs.At(q))
  {
    hide Run, Reachable;
    ReachableInv(cfg, s);
    var pass := s.pcs.At(p).pass;
    assert FlushOk(s.rows, s.acked, s.pcs.At(p));
    var k := i - pass.sent;
    assert s.rows[k] == s.rows[pass.index - pass.sent..][i - pass.index] == pass.items[pass.index..][i - pass.index];
    forall q | q != p ensures !Critical(s.pcs.At(q)) {
      if Critical(s.pcs.At(q)) { MutualExclusion(cfg, s, p, q); }
    }
  }

  lemma DeleteHitsAcknowledgedRow(cfg: Config, s: State, p: Proc, s': State)
    requires SingleEngine(cfg) && Reachable(cfg, s)
    requires Next(cfg, s, Step(p, Delete(true))) == Some(s')
    ensures exists k: nat :: RemovedRow(s, s', k) && Replay(s.rows[k]) in s.acked
  {
    ReachableInv(cfg, s);
    var e := Enabled(cfg, s, p, Delete(true)).value;
    AcknowledgedRowGoes(cfg, s, p, e);
  }

  lemma AcknowledgedRowGoes(cfg: Config, s: State, p: Proc, e: Effect)
    requires Inv(cfg, s) && Enabled(cfg, s, p, Delete(true)) == Some(e)
    ensures exists k: nat :: RemovedRow(s, Apply(cfg, s, p, e), k) && Replay(s.rows[k]) in s.acked
  {
    ProgramIsDisciplined(cfg, s.rows, s.config, p, s.pcs.At(p), Delete(true));
    if e.queue.DeleteRow? {
      assert FlushOk(s.rows, s.acked, s.pcs.At(p));
      DeleteEffect(cfg, s, p, e);
      var k := s.pcs.At(p).pass.index - s.pcs.At(p).pass.sent;
      assert RemovedRow(s, Apply(cfg, s, p, e), k);
    }
  }

  // ---------------------------------------------------------------- suppression

  /** The payload is in the hands of the Portal, or will be replayed. */
  ghost predicate Safe(s: State, kind: Kind, payload: Bytes) {
    || Live(kind, payload) in s.acked
    || (exists r :: (r in s.rows || Replay(r) in s.acked) && r.kind == kind && r.payload == payload)
  }

  lemma EmittedIsSafe(cfg: Config, s: State, kind: Kind, payload: Bytes)
    requires SingleEngine(cfg) && Reachable(cfg, s) && Emitted(s, kind, payload)
    ensures Safe(s, kind, payload)
  {
    if Live(kind, payload) !in s.acked {
      var i :| 0 <= i < |s.enqueued| && s.enqueued[i].kind == kind && s.enqueued[i].payload == payload;
      NothingQueuedIsLost(cfg, s, s.enqueued[i]);
    }
  }

  /** A stored fingerprint is that of a genuine payload acknowledged or still queued, whatever crashed
      or failed to be stored. */
  lemma StoredFingerprintIsSafe(cfg: Config, s: State, p: Proc) returns (x: Bytes)
    requires SingleEngine(cfg) && Reachable(cfg, s)
    requires FingerprintKey(p).Some? && FingerprintKey(p).value in s.config
    ensures Safe(s, KindOf(p), x) && cfg.genuine(p, x)
    ensures cfg.fingerprint(x) == s.config[FingerprintKey(p).value]
  {
    ReachableInv(cfg, s);
    assert Covered(cfg, s, p, s.config[FingerprintKey(p).value]);
    x :| Emitted(s, KindOf(p), x) && cfg.genuine(p, x) && cfg.fingerprint(x) == s.config[FingerprintKey(p).value];
    EmittedIsSafe(cfg, s, KindOf(p), x);
  }

  /** A suppressed payload leaves everything stored as it was. */
  lemma SuppressedStep(cfg: Config, s: State, p: Proc, payload: Bytes, readable: bool, s': State)
    requires Reachable(cfg, s)
    requires Next(cfg, s, Step(p, Collect(payload, readable))) == Some(s') && s'.pcs.At(p) == Idle
    ensures Reachable(cfg, s') && cfg.genuine(p, payload)
    ensures s'.rows == s.rows && s'.acked == s.acked && s'.config == s.config
    ensures FingerprintKey(p).Some? && FingerprintKey(p).value in s.config
    ensures s.config[FingerprintKey(p).value] == cfg.fingerprint(payload)
  {
    assert Suppressed(cfg, s.config, p, payload, readable);
    var s0, labels :| Init(s0) && Run(cfg, s0, labels) == Some(s);
    RunSnoc(cfg, s0, labels, Step(p, Collect(payload, readable)));
  }

  /** A run that is SKIPPED hides nothing: a payload of the same producer with the same fingerprint is
      safe. If the fingerprint separates what `content` separates among the payloads the producer
      makes, that payload has the same content. */
  lemma SkippedRunHidesNothing<T>(cfg: Config, s: State, p: Proc, payload: Bytes, readable: bool,
                                  s': State, content: Bytes -> T) returns (x: Bytes)
    requires SingleEngine(cfg) && Reachable(cfg, s)
    requires Next(cfg, s, Step(p, Collect(payload, readable))) == Some(s') && s'.pcs.At(p) == Idle
    requires forall x, y | cfg.genuine(p, x) && cfg.genuine(p, y) ::
               cfg.fingerprint(x) == cfg.fingerprint(y) ==> content(x) == content(y)
    ensures Safe(s', KindOf(p), x) && cfg.genuine(p, x)
    ensures cfg.fingerprint(x) == cfg.fingerprint(payload) && content(x) == content(payload)
  {
    SuppressedStep(cfg, s, p, payload, readable, s');
    x := StoredFingerprintIsSafe(cfg, s', p);
  }

  // ---------------------------------------------------------------- the producers' own rows

  /** The producers queue routable payloads only, so a table without foreign rows stays so. */
  lemma {:induction false} OnlyRoutableRows(cfg: Config, s0: State, labels: seq<Label>, s: State)
    requires SingleEngine(cfg) && Init(s0) && AllAre(s0.rows, true) && Run(cfg, s0, labels) == Some(s)
    ensures AllAre(s.rows, true)
    decreases |labels|
  {
    if labels != [] {
      var front, last := labels[..|labels| - 1], labels[|labels| - 1];
      var before := Run(cfg, s0, front).value;
      OnlyRoutableRows(cfg, s0, front, before);
      InitEstablishes(cfg, s0);
      RunKeeps(cfg, s0, front, before);
      if last.Step? {
        OnlyRoutableStep(cfg, before, last.proc, last.action, Enabled(cfg, before, last.proc, last.action).value);
      }
    }
  }

  lemma OnlyRoutableStep(cfg: Config, s: State, p: Proc, a: Action, e: Effect)
    requires Inv(cfg, s) && AllAre(s.rows, true) && Enabled(cfg, s, p, a) == Some(e)
    ensures AllAre(NewRows(s, e.queue), true)
  {
    ProgramIsDisciplined(cfg, s.rows, s.config, p, s.pcs.At(p), a);
    if e.queue.DeleteRow? { DeleteEffect(cfg, s, p, e); }
  }
}
