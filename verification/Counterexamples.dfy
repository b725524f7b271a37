/** Runs showing that the hypotheses of the delivery theorems cannot be dropped. */
module Counterexamples {
  import opened Common
  import opened Protocol
  import opened Backlog
  import opened Delivery
  import opened Latest

  /** Payloads are their own fingerprints. */
  const SHARED := Config((p: Proc) => 0, (x: Bytes) => x, (p: Proc, x: Bytes) => true)

  const GOOD := Replied(200, Blank)
  const BAD := Replied(500, Blank)

  /** Extends a run by one step, whose effect is `e`. */
  lemma Extend(cfg: Config, s0: State, run: seq<Label>, s: State, p: Proc, a: Action, e: Effect)
    returns (run': seq<Label>, s': State)
    requires Run(cfg, s0, run) == Some(s)
    requires Act(cfg, s.rows, s.config, p, s.pcs.At(p), a) == Some(e)
    requires e.lock.Take? ==> cfg.engine(p) !in s.holders
    ensures Run(cfg, s0, run') == Some(s') && s' == Apply(cfg, s, p, e)
  {
    run' := run + [Step(p, a)];
    RunSnoc(cfg, s0, run, Step(p, a));
    s' := Apply(cfg, s, p, e);
  }

  function Start(rows: seq<Row>): State {
    State(rows, map[], map[], ALL_IDLE, rows, 0, [], [])
  }

  function Sends(receipt: Receipt, pc: Pc, o: Outcome, lock: LockOp): Effect {
    Effect(pc, lock, LeaveQueue, Traffic(o, receipt), LeaveConfig)
  }

  function Stores(cfg: Config, p: Proc, x: Bytes): Effect
    requires FingerprintKey(p).Some?
  {
    Effect(Idle, Hold, LeaveQueue, NoTraffic, PutKey(FingerprintKey(p).value, cfg.fingerprint(x)))
  }

  /** Producer `p` opens a pass over a table of at most one row. */
  lemma OpenPass(cfg: Config, s0: State, run: seq<Label>, s: State, p: Proc) returns (run': seq<Label>, s': State)
    requires Run(cfg, s0, run) == Some(s) && s.pcs.At(p) == Idle && cfg.engine(p) !in s.holders
    requires |s.rows| <= 1
    ensures Run(cfg, s0, run') == Some(s')
    ensures s' == s.(holders := s.holders[cfg.engine(p) := p],
                     pcs := s.pcs.With(p, Flushing(Pass(s.rows, 0, 0, true))))
  {
    assert s.rows[..|s.rows|] == s.rows;
    run', s' := Extend(cfg, s0, run, s, p, LockForFlush, Move(FlushLocked, Take));
    run', s' := Extend(cfg, s0, run', s', p, ReadPending(true), Move(Flushing(Pass(s.rows, 0, 0, true)), Hold));
  }

  /** The first row of the pass is sent and acknowledged. */
  lemma ReplayHead(cfg: Config, s0: State, run: seq<Label>, s: State, p: Proc, row: Row)
    returns (run': seq<Label>, s': State)
    requires Run(cfg, s0, run) == Some(s) && s.pcs.At(p) == Flushing(Pass([row], 0, 0, true))
    requires Routable(row.kind)
    ensures Run(cfg, s0, run') == Some(s')
    ensures s' == s.(pcs := s.pcs.With(p, FlushDeleting(Pass([row], 0, 0, true))),
                     received := s.received + [Replay(row)], acked := s.acked + [Replay(row)])
  {
    var pass := Pass([row], 0, 0, true);
    run', s' := Extend(cfg, s0, run, s, p, ReadToken(true), Move(FlushSending(pass, 0), Hold));
    run', s' := Extend(cfg, s0, run', s', p, Attempt(GOOD), Sends(Replay(row), FlushDeleting(pass), GOOD, Hold));
  }

  /** The row is deleted. */
  lemma DeleteHead(cfg: Config, s0: State, run: seq<Label>, s: State, p: Proc, pass: Pass)
    returns (run': seq<Label>, s': State)
    requires Run(cfg, s0, run) == Some(s) && s.pcs.At(p) == FlushDeleting(pass)
    requires |pass.items| == 1 && pass.index == 0
    requires |s.rows| == 1 && s.rows[0].id == pass.items[0].id
    ensures Run(cfg, s0, run') == Some(s')
    ensures s' == s.(rows := [], deleted := s.deleted + 1,
                     pcs := s.pcs.With(p, Flushing(pass.(index := 1, sent := pass.sent + 1))))
  {
    hide Run;
    assert DeleteId(s.rows, pass.items[0].id) == [] by {
      DeleteAt(s.rows, 0);
      assert s.rows[..0] + s.rows[1..] == [];
    }
    run', s' := Extend(cfg, s0, run, s, p, Delete(true),
                       Effect(Flushing(pass.(index := 1, sent := pass.sent + 1)), Hold,
                              DeleteRow(pass.items[0].id), NoTraffic, LeaveConfig));
  }

  /** The row is deleted and the pass ends, leaving an empty table. */
  lemma DeleteOnly(cfg: Config, s0: State, run: seq<Label>, s: State, p: Proc, pass: Pass)
    returns (run': seq<Label>, s': State)
    requires Run(cfg, s0, run) == Some(s) && s.pcs.At(p) == FlushDeleting(pass)
    requires |pass.items| == 1 && pass.index == 0
    requires |s.rows| == 1 && s.rows[0].id == pass.items[0].id
    ensures Run(cfg, s0, run') == Some(s')
    ensures s' == s.(rows := [], deleted := s.deleted + 1, holders := s.holders - {cfg.engine(p)},
                     pcs := s.pcs.With(p, Flushed(pass.covered)))
  {
    run', s' := DeleteHead(cfg, s0, run, s, p, pass);
    run', s' := Extend(cfg, s0, run', s', p, FinishFlush, Move(Flushed(pass.covered), Release));
  }

  /** A payload is collected after the opening pass and brought to its first attempt. */
  lemma BeginSend(cfg: Config, s0: State, run: seq<Label>, s: State, p: Proc, drained: bool, x: Bytes)
    returns (run': seq<Label>, s': State)
    requires Run(cfg, s0, run) == Some(s) && s.pcs.At(p) == Flushed(drained) && cfg.engine(p) !in s.holders
    requires !Suppressed(cfg, s.config, p, x, true) && cfg.genuine(p, x)
    ensures Run(cfg, s0, run') == Some(s')
    ensures s' == s.(holders := s.holders[cfg.engine(p) := p], pcs := s.pcs.With(p, LiveSending(x, drained, 0)))
  {
    run', s' := Extend(cfg, s0, run, s, p, Collect(x, true), Move(Ready(x, drained), Hold));
    run', s' := Extend(cfg, s0, run', s', p, LockForSend, Move(SendLocked(x, drained), Take));
    run', s' := Extend(cfg, s0, run', s', p, ReadToken(true), Move(LiveSending(x, drained, 0), Hold));
  }

  /** The Portal answers 500 and the payload is queued. */
  lemma FailAndQueue(cfg: Config, s0: State, run: seq<Label>, s: State, p: Proc, drained: bool, x: Bytes)
    returns (run': seq<Label>, s': State)
    requires Run(cfg, s0, run) == Some(s) && s.pcs.At(p) == LiveSending(x, drained, 0)
    ensures Run(cfg, s0, run') == Some(s')
    ensures var row := Row(NextId(s.rows), KindOf(p), x, |s.enqueued|);
            s' == s.(rows := s.rows + [row], enqueued := s.enqueued + [row],
                     received := s.received + [Live(KindOf(p), x)],
                     holders := s.holders - {cfg.engine(p)}, pcs := s.pcs.With(p, Persisting(x)))
  {
    run', s' := Extend(cfg, s0, run, s, p, Attempt(BAD), Sends(Live(KindOf(p), x), LiveFailed(x), BAD, Hold));
    run', s' := Extend(cfg, s0, run', s', p, Queue(Inserted),
                       Effect(Persisting(x), Release, InsertRow(KindOf(p), x), NoTraffic, LeaveConfig));
  }

  lemma Store(cfg: Config, s0: State, run: seq<Label>, s: State, p: Proc, x: Bytes)
    returns (run': seq<Label>, s': State)
    requires Run(cfg, s0, run) == Some(s) && s.pcs.At(p) == Persisting(x) && FingerprintKey(p).Some?
    ensures Run(cfg, s0, run') == Some(s')
    ensures s' == s.(config := s.config[FingerprintKey(p).value := cfg.fingerprint(x)], pcs := s.pcs.With(p, Idle))
  {
    run', s' := Extend(cfg, s0, run, s, p, Persist(true), Stores(cfg, p, x));
  }

  // ---------------------------------------------------------------- two engines, one database

  const OLD := Row(1, HeartbeatType, "a", 0)

  function Reused(q: Proc, x: Bytes): Row { Row(1, KindOf(q), x, 1) }

  const HANDLED := Pass([OLD], 0, 0, true)

  /** Two producers with engines of their own; `q` stores fingerprints. */
  ghost predicate Apart(cfg: Config, p: Proc, q: Proc) {
    cfg.engine(p) != cfg.engine(q) && FingerprintKey(q).Some?
  }

  /** Both producers have read the same row and had it acknowledged; neither has deleted it. */
  lemma OldReplayedTwice(cfg: Config, p: Proc, q: Proc) returns (run: seq<Label>, s: State)
    requires Apart(cfg, p, q)
    ensures Run(cfg, Start([OLD]), run) == Some(s)
    ensures s == State([OLD], map[], map[cfg.engine(p) := p, cfg.engine(q) := q],
                       ALL_IDLE.With(p, FlushDeleting(HANDLED)).With(q, FlushDeleting(HANDLED)), [OLD], 0,
                       [Replay(OLD), Replay(OLD)], [Replay(OLD), Replay(OLD)])
  {
    var s0 := Start([OLD]);
    NoSteps(cfg, s0);
    hide Run;
    run, s := OpenPass(cfg, s0, [], s0, p);
    run, s := ReplayHead(cfg, s0, run, s, p, OLD);
    LaterWriteWins(ALL_IDLE, p, Flushing(HANDLED));
    run, s := OpenPass(cfg, s0, run, s, q);
    run, s := ReplayHead(cfg, s0, run, s, q, OLD);
    LaterWriteWins(ALL_IDLE.With(p, FlushDeleting(HANDLED)), q, Flushing(HANDLED));
  }

  /** `q` deletes the row, finishes, and queues a payload under the same id. */
  lemma IdReused(cfg: Config, p: Proc, q: Proc, x: Bytes) returns (run: seq<Label>, s: State)
    requires Apart(cfg, p, q) && cfg.genuine(q, x)
    ensures Run(cfg, Start([OLD]), run) == Some(s)
    ensures s.rows == [Reused(q, x)] && s.enqueued == [OLD, Reused(q, x)] && s.acked == [Replay(OLD), Replay(OLD)]
    ensures s.pcs.At(p) == FlushDeleting(HANDLED)
    ensures s.config == map[FingerprintKey(q).value := cfg.fingerprint(x)]
  {
    var s0 := Start([OLD]);
    run, s := OldReplayedTwice(cfg, p, q);
    hide Run;
    run, s := DeleteOnly(cfg, s0, run, s, q, HANDLED);
    run, s := BeginSend(cfg, s0, run, s, q, true, x);
    run, s := FailAndQueue(cfg, s0, run, s, q, true, x);
    run, s := Store(cfg, s0, run, s, q, x);
  }

  /** With two engines on one database, an id reused while the other engine is between an
      acknowledgement and its DELETE makes that DELETE remove a row nobody acknowledged, and
      the stored fingerprint then suppresses the lost snapshot. */
  lemma TwoEnginesLoseARow(cfg: Config, p: Proc, q: Proc, x: Bytes) returns (s: State)
    requires Apart(cfg, p, q) && cfg.genuine(q, x)
    ensures Reachable(cfg, s) && s.rows == [] && s.acked == [Replay(OLD), Replay(OLD)]
    ensures Reused(q, x) in s.enqueued && FingerprintKey(q).value in s.config
    ensures Suppressed(cfg, s.config, q, x, true)
  {
    var run;
    run, s := IdReused(cfg, p, q, x);
    hide Run;
    run, s := DeleteOnly(cfg, Start([OLD]), run, s, p, HANDLED);
    assert Reused(q, x) == s.enqueued[1];
    assert Reachable(cfg, s);
  }

  /** Every producer has something to send. */
  ghost predicate Productive(cfg: Config) { forall p :: MakesSome(cfg, p) }

  ghost predicate MakesSome(cfg: Config, p: Proc) { exists x :: cfg.genuine(p, x) }

  /** Of two producers on different engines at least one stores fingerprints. */
  lemma FindApart(cfg: Config) returns (p: Proc, q: Proc, x: Bytes)
    requires !SingleEngine(cfg) && Productive(cfg)
    ensures Apart(cfg, p, q) && cfg.genuine(q, x)
  {
    p, q :| cfg.engine(p) != cfg.engine(q);
    if q == Heartbeat { p, q := q, p; }
    assert MakesSome(cfg, q);
    x :| cfg.genuine(q, x);
  }

  ghost predicate NothingLost(cfg: Config) {
    forall s, row | Reachable(cfg, s) && row in s.enqueued :: row in s.rows || Replay(row) in s.acked
  }

  ghost predicate StoredIsSafe(cfg: Config, s: State, p: Proc) {
    FingerprintKey(p).Some? && FingerprintKey(p).value in s.config ==>
      exists x :: Safe(s, KindOf(p), x) && cfg.fingerprint(x) == s.config[FingerprintKey(p).value]
  }

  ghost predicate SuppressionSound(cfg: Config) {
    forall s, p | Reachable(cfg, s) :: StoredIsSafe(cfg, s, p)
  }

  /** A queued payload is never lost, and suppression is sound, exactly when all producers share
      one engine. */
  lemma SafeIffSingleEngine(cfg: Config)
    requires Productive(cfg)
    ensures NothingLost(cfg) <==> SingleEngine(cfg)
    ensures SuppressionSound(cfg) <==> SingleEngine(cfg)
  {
    if SingleEngine(cfg) {
      SingleEngineIsSafe(cfg);
    } else {
      var p, q, x := FindApart(cfg);
      var s := TwoEnginesLoseARow(cfg, p, q, x);
      assert !(Reused(q, x) in s.rows || Replay(Reused(q, x)) in s.acked);
      assert !StoredIsSafe(cfg, s, q);
    }
  }

  lemma SingleEngineIsSafe(cfg: Config)
    requires SingleEngine(cfg)
    ensures NothingLost(cfg) && SuppressionSound(cfg)
  {
    forall s, row | Reachable(cfg, s) && row in s.enqueued ensures row in s.rows || Replay(row) in s.acked {
      NothingQueuedIsLost(cfg, s, row);
    }
    forall s, p | Reachable(cfg, s) ensures StoredIsSafe(cfg, s, p) {
      if FingerprintKey(p).Some? && FingerprintKey(p).value in s.config { var x := StoredFingerprintIsSafe(cfg, s, p); }
    }
  }

  // ---------------------------------------------------------------- an opening pass that fails

  const STALE := Row(1, InventoryType, "old", 0)

  /** A first run that queues the snapshot "old" and stores its fingerprint. */
  lemma QueueOld() returns (run: seq<Label>, s: State)
    ensures Run(SHARED, Start([]), run) == Some(s)
    ensures s == State([STALE], map[InventoryFingerprint := "old"], map[], Start([]).pcs, [STALE], 0,
                       [Live(InventoryType, "old")], [])
  {
    var s0 := Start([]);
    run, s := OpenPass(SHARED, s0, [], s0, Inventory);
    run, s := Extend(SHARED, s0, run, s, Inventory, FinishFlush, Move(Flushed(true), Release));
    run, s := BeginSend(SHARED, s0, run, s, Inventory, true, "old");
    run, s := FailAndQueue(SHARED, s0, run, s, Inventory, true, "old");
    run, s := Store(SHARED, s0, run, s, Inventory, "old");
  }

  /** A failed opening pass is only logged. If the live send then succeeds while an older
      snapshot is queued, the older snapshot is the last one the Portal acknowledges, the queue
      is empty, and the newer fingerprint is stored: the Portal stays out of date. */
  lemma OlderSnapshotCanWin()
    ensures exists s ::
              && Reachable(SHARED, s) && s.rows == [] && s.holders == map[]
              && LastAck(s.acked, InventoryType) == Some("old")
              && InventoryFingerprint in s.config && s.config[InventoryFingerprint] == "new"
  {
    hide Run;
    var s0 := Start([]);
    var run, s := QueueOld();
    run, s := Extend(SHARED, s0, run, s, Inventory, LockForFlush, Move(FlushLocked, Take));
    run, s := Extend(SHARED, s0, run, s, Inventory, ReadPending(false), Move(Flushed(false), Release));
    assert "old"[0] != "new"[0];
    run, s := BeginSend(SHARED, s0, run, s, Inventory, false, "new");
    run, s := Extend(SHARED, s0, run, s, Inventory, Attempt(GOOD),
                     Sends(Live(InventoryType, "new"), Persisting("new"), GOOD, Release));
    run, s := Store(SHARED, s0, run, s, Inventory, "new");
    run, s := OpenPass(SHARED, s0, run, s, Heartbeat);
    run, s := ReplayHead(SHARED, s0, run, s, Heartbeat, STALE);
    run, s := DeleteOnly(SHARED, s0, run, s, Heartbeat, Pass([STALE], 0, 0, true));
    assert s.acked[|s.acked| - 1] == Replay(STALE);
    assert Reachable(SHARED, s);
  }

  // ---------------------------------------------------------------- a delivery that fails and is not queued

  datatype Drop = NoToken | NotQueued(insert: Insert)

  /** A producer opens a pass on an empty table, ends it and collects `x`. */
  lemma Collected(cfg: Config, p: Proc, x: Bytes) returns (run: seq<Label>, s: State)
    requires cfg.genuine(p, x)
    ensures Run(cfg, Start([]), run) == Some(s)
    ensures s == Start([]).(pcs := ALL_IDLE.With(p, Ready(x, true)))
  {
    var s0 := Start([]);
    NoSteps(cfg, s0);
    hide Run;
    run, s := OpenPass(cfg, s0, [], s0, p);
    run, s := Extend(cfg, s0, run, s, p, FinishFlush, Move(Flushed(true), Release));
    run, s := Extend(cfg, s0, run, s, p, Collect(x, true), Move(Ready(x, true), Hold));
    assert s.holders == map[];
  }

  /** The Portal answers 500, and the row is not inserted. */
  lemma FailWithoutQueueing(cfg: Config, s0: State, run: seq<Label>, s: State, p: Proc, x: Bytes, insert: Insert)
    returns (run': seq<Label>, s': State)
    requires Run(cfg, s0, run) == Some(s) && s.pcs.At(p) == LiveSending(x, true, 0) && insert != Inserted
    ensures Run(cfg, s0, run') == Some(s')
    ensures s' == s.(received := s.received + [Live(KindOf(p), x)],
                     holders := s.holders - {cfg.engine(p)}, pcs := s.pcs.With(p, Idle))
  {
    hide Run;
    run', s' := Extend(cfg, s0, run, s, p, Attempt(BAD), Sends(Live(KindOf(p), x), LiveFailed(x), BAD, Hold));
    run', s' := Extend(cfg, s0, run', s', p, Queue(insert), Move(Idle, Release));
  }

  /** Whatever the producer, the engines and the payload: without a readable token, with a cancelled
      context or with a failed insert, a failed delivery ends with the payload in neither place. */
  lemma FailedDeliveryIsDropped(cfg: Config, p: Proc, x: Bytes, drop: Drop) returns (s: State)
    requires cfg.genuine(p, x) && (drop.NotQueued? ==> drop.insert != Inserted)
    ensures Reachable(cfg, s) && s.pcs.At(p) == Idle && s.holders == map[]
    ensures s.rows == [] && s.enqueued == [] && s.acked == []
    ensures s.received == if drop.NoToken? then [] else [Live(KindOf(p), x)]
  {
    var s0, run := Start([]), [];
    run, s := Collected(cfg, p, x);
    hide Run;
    run, s := Extend(cfg, s0, run, s, p, LockForSend, Move(SendLocked(x, true), Take));
    if drop.NoToken? {
      run, s := Extend(cfg, s0, run, s, p, ReadToken(false), Move(Idle, Release));
    } else {
      run, s := Extend(cfg, s0, run, s, p, ReadToken(true), Move(LiveSending(x, true, 0), Hold));
      run, s := FailWithoutQueueing(cfg, s0, run, s, p, x, drop.insert);
    }
    assert Reachable(cfg, s);
  }
}
