/** Which snapshot the Portal acknowledged last, compared with the stored fingerprint. */
module Latest {
  import opened Common
  import opened Protocol
  import opened Backlog
  import opened Invariants

  /** The payload of the last acknowledgement of a kind. */
  function LastAck(log: seq<Receipt>, kind: Kind): Option<Bytes> {
    if log == [] then None
    else
      var r := log[|log| - 1];
      if r.Live? && r.kind == kind then Some(r.payload)
      else if r.Replay? && r.row.kind == kind then Some(r.row.payload)
      else LastAck(log[..|log| - 1], kind)
  }

  /** The payload of the last queued row of a kind. */
  function LastRow(rows: seq<Row>, kind: Kind): Option<Bytes> {
    if rows == [] then None
    else if rows[|rows| - 1].kind == kind then Some(rows[|rows| - 1].payload)
    else LastRow(rows[..|rows| - 1], kind)
  }

  predicate NoRowOf(rows: seq<Row>, kind: Kind) {
    forall i :: 0 <= i < |rows| ==> rows[i].kind != kind
  }

  lemma {:induction false} LastRowConcat(a: seq<Row>, b: seq<Row>, kind: Kind)
    ensures LastRow(a + b, kind) == if LastRow(b, kind).Some? then LastRow(b, kind) else LastRow(a, kind)
    decreases |b|
  {
    if b == [] {
      assert a + b == a;
    } else {
      assert (a + b)[..|a + b| - 1] == a + b[..|b| - 1];
      LastRowConcat(a, b[..|b| - 1], kind);
    }
  }

  lemma {:induction false} LastRowNone(rows: seq<Row>, kind: Kind)
    ensures LastRow(rows, kind).None? <==> NoRowOf(rows, kind)
  {
    if rows != [] {
      LastRowNone(rows[..|rows| - 1], kind);
      assert rows == rows[..|rows| - 1] + [rows[|rows| - 1]];
    }
  }

  /** Deleting the first routable row changes the last row of a kind only if it was that row. */
  lemma LastRowRemoved(rows: seq<Row>, k: nat, kind: Kind)
    requires k < |rows| && Routable(rows[k].kind) && AllAre(rows[..k], false) && Routable(kind)
    ensures var left := LastRow(rows[..k] + rows[k + 1..], kind);
            || left == LastRow(rows, kind)
            || (left.None? && rows[k].kind == kind && LastRow(rows, kind) == Some(rows[k].payload))
  {
    var pre, head, post := rows[..k], [rows[k]], rows[k + 1..];
    assert rows == pre + (head + post);
    LastRowNone(pre, kind);
    LastRowConcat(pre, head + post, kind);
    LastRowConcat(head, post, kind);
    LastRowConcat(pre, post, kind);
  }

  /** The newest payload the agent has handed over: the last one queued, else the last one
      acknowledged. */
  function Newest(rows: seq<Row>, acked: seq<Receipt>, kind: Kind): Option<Bytes> {
    if LastRow(rows, kind).Some? then LastRow(rows, kind) else LastAck(acked, kind)
  }

  lemma NewestInserted(rows: seq<Row>, acked: seq<Receipt>, row: Row, kind: Kind)
    ensures Newest(rows + [row], acked, kind) ==
            if row.kind == kind then Some(row.payload) else Newest(rows, acked, kind)
  {
    assert (rows + [row])[..|rows|] == rows;
  }

  /** Deleting the row that was acknowledged last does not change what was handed over last. */
  lemma NewestRemoved(rows: seq<Row>, acked: seq<Receipt>, k: nat, kind: Kind)
    requires k < |rows| && Routable(rows[k].kind) && AllAre(rows[..k], false) && Routable(kind)
    requires acked != [] && acked[|acked| - 1] == Replay(rows[k])
    ensures Newest(rows[..k] + rows[k + 1..], acked, kind) == Newest(rows, acked, kind)
  {
    LastRowRemoved(rows, k, kind);
  }

  lemma NewestReplayed(rows: seq<Row>, acked: seq<Receipt>, k: nat, kind: Kind)
    requires k < |rows|
    ensures Newest(rows, acked + [Replay(rows[k])], kind) == Newest(rows, acked, kind)
  {
    LastRowNone(rows, kind);
    assert (acked + [Replay(rows[k])])[..|acked|] == acked;
  }

  lemma NewestLive(rows: seq<Row>, acked: seq<Receipt>, r: Receipt, kind: Kind)
    requires r.Live? && (r.kind == kind ==> NoRowOf(rows, kind))
    ensures Newest(rows, acked + [r], kind) ==
            if r.kind == kind then Some(r.payload) else Newest(rows, acked, kind)
  {
    LastRowNone(rows, kind);
    assert (acked + [r])[..|acked|] == acked;
  }

  /** The fingerprint stored for producer `p`, or about to be. */
  function Expected(cfg: Config, s: State, p: Proc): Option<string>
    requires FingerprintKey(p).Some?
  {
    var key := FingerprintKey(p).value;
    if s.pcs.At(p).Persisting? then Some(cfg.fingerprint(s.pcs.At(p).payload))
    else if key in s.config then Some(s.config[key]) else None
  }

  ghost predicate NewestOk(cfg: Config, s: State, p: Proc) {
    && FingerprintKey(p).Some?
    && var newest := Newest(s.rows, s.acked, KindOf(p));
       Expected(cfg, s, p) == if newest.None? then None else Some(cfg.fingerprint(newest.value))
  }

  predicate AcksLive(s: State, p: Proc, l: Label) {
    && l.Step? && l.proc == p && l.action.Attempt? && Acceptable(l.action.outcome)
    && s.pcs.At(p).LiveSending?
  }

  /** Due fingerprints are stored: no crash and no failed Put comes between a hand-over of `p` and
      its fingerprint. */
  predicate StoresDue(s: State, p: Proc, l: Label) {
    (l.Crash? ==> !s.pcs.At(p).Persisting?) && l != Step(p, Persist(false))
  }

  /** The step hands over a payload of `p`: it is acknowledged live, or queued. */
  predicate HandsOverOf(s: State, p: Proc, l: Label) {
    AcksLive(s, p, l) || (l == Step(p, Queue(Inserted)) && s.pcs.At(p).LiveFailed?)
  }

  /** A payload queued comes after everything queued before. One acknowledged live does so only if
      nothing of its kind is queued, or what is queued last has its fingerprint. */
  predicate Harmless(cfg: Config, s: State, p: Proc, l: Label) {
    AcksLive(s, p, l) ==>
      var last := LastRow(s.rows, KindOf(p));
      last.None? || cfg.fingerprint(last.value) == cfg.fingerprint(s.pcs.At(p).payload)
  }

  /** The last hand-over of the run, if there is one, is harmless. */
  predicate LastHandOverHarmless(cfg: Config, s0: State, p: Proc, labels: seq<Label>) {
    labels == [] ||
    var front, last := labels[..|labels| - 1], labels[|labels| - 1];
    var before := Run(cfg, s0, front);
    before.Some? &&
    if HandsOverOf(before.value, p, last) then Harmless(cfg, before.value, p, last)
    else LastHandOverHarmless(cfg, s0, p, front)
  }

  /** No store was lost since the last hand-over of `p`, or since the start. */
  predicate StoredSince(cfg: Config, s0: State, p: Proc, labels: seq<Label>) {
    labels == [] ||
    var front, last := labels[..|labels| - 1], labels[|labels| - 1];
    var before := Run(cfg, s0, front);
    before.Some? && (HandsOverOf(before.value, p, last)
                     || (StoresDue(before.value, p, last) && StoredSince(cfg, s0, p, front)))
  }

  /** What a step hands over: a payload it queues, or one acknowledged when sent live. */
  function HandsOver(e: Effect): Option<(Kind, Bytes)> {
    if e.queue.InsertRow? then Some((e.queue.kind, e.queue.payload))
    else if e.wire.Traffic? && Acceptable(e.wire.outcome) && e.wire.receipt.Live?
    then Some((e.wire.receipt.kind, e.wire.receipt.payload))
    else None
  }

  lemma NewestAfter(cfg: Config, s: State, p: Proc, a: Action, e: Effect, kind: Kind)
    requires Inv(cfg, s) && Enabled(cfg, s, p, a) == Some(e) && Routable(kind)
    requires e.queue.LeaveQueue? && HandsOver(e).Some? && HandsOver(e).value.0 == kind ==> NoRowOf(s.rows, kind)
    ensures var s' := Apply(cfg, s, p, e);
            Newest(s'.rows, s'.acked, kind) ==
            if HandsOver(e).Some? && HandsOver(e).value.0 == kind then Some(HandsOver(e).value.1)
            else Newest(s.rows, s.acked, kind)
  {
    ProgramIsDisciplined(cfg, s.rows, s.config, p, s.pcs.At(p), a);
    if e.queue.DeleteRow? {
      NewestAfterDelete(cfg, s, p, e, kind);
    } else if e.queue.InsertRow? {
      NewestInserted(s.rows, s.acked, Row(NextId(s.rows), e.queue.kind, e.queue.payload, |s.enqueued|), kind);
    } else if e.wire.Traffic? && Acceptable(e.wire.outcome) {
      if e.wire.receipt.Replay? {
        NewestAfterReplay(cfg, s, p, e, kind);
      } else {
        NewestLive(s.rows, s.acked, e.wire.receipt, kind);
      }
    }
  }

  lemma NewestAfterDelete(cfg: Config, s: State, p: Proc, e: Effect, kind: Kind)
    requires Inv(cfg, s) && Disciplined(p, s.pcs.At(p), e) && e.queue.DeleteRow? && Routable(kind)
    ensures Newest(NewRows(s, e.queue), s.acked, kind) == Newest(s.rows, s.acked, kind)
  {
    DeleteEffect(cfg, s, p, e);
    assert FlushOk(s.rows, s.acked, s.pcs.At(p));
    NewestRemoved(s.rows, s.acked, s.pcs.At(p).pass.index - s.pcs.At(p).pass.sent, kind);
  }

  lemma NewestAfterReplay(cfg: Config, s: State, p: Proc, e: Effect, kind: Kind)
    requires Inv(cfg, s) && Disciplined(p, s.pcs.At(p), e)
    requires e.wire.Traffic? && e.wire.receipt.Replay?
    ensures Newest(s.rows, s.acked + [e.wire.receipt], kind) == Newest(s.rows, s.acked, kind)
  {
    assert FlushOk(s.rows, s.acked, s.pcs.At(p));
    var k := s.pcs.At(p).pass.index - s.pcs.At(p).pass.sent;
    assert s.rows[k] == s.rows[k..][0] == s.pcs.At(p).pass.items[s.pcs.At(p).pass.index];
    NewestReplayed(s.rows, s.acked, k, kind);
  }

  /** A producer hands over its own kind and stores under its own key, and only what is due. */
  lemma OwnKindOwnKey(cfg: Config, rows: seq<Row>, config: map<Key, string>, p: Proc, pc: Pc, a: Action)
    requires Act(cfg, rows, config, p, pc, a).Some?
    ensures var e := Act(cfg, rows, config, p, pc, a).value;
            && (HandsOver(e).Some? ==> e.pc.Persisting? && HandsOver(e).value == (KindOf(p), e.pc.payload))
            && (e.pc.Persisting? && e.pc != pc ==> HandsOver(e).Some?)
            && (e.put.PutKey? && IsFingerprintKey(e.put.key) ==>
                  pc.Persisting? && e.pc.Idle? && FingerprintKey(p) == Some(e.put.key)
                  && e.put.value == cfg.fingerprint(pc.payload))
            && (pc.Persisting? && e.pc != pc && a != Persist(false) && FingerprintKey(p).Some? ==>
                  e.put == PutKey(FingerprintKey(p).value, cfg.fingerprint(pc.payload)))
            && (HandsOver(e).Some? && e.queue.LeaveQueue? ==>
                  pc.LiveSending? && a.Attempt? && Acceptable(a.outcome))
  {
  }

  /** The stored or due fingerprint of a producer follows what it hands over. */
  lemma ExpectedAfter(cfg: Config, s: State, p: Proc, q: Proc, a: Action, e: Effect)
    requires FingerprintKey(p).Some? && Enabled(cfg, s, q, a) == Some(e)
    requires StoresDue(s, p, Step(q, a))
    ensures Expected(cfg, Apply(cfg, s, q, e), p) ==
            if q == p && HandsOver(e).Some? then Some(cfg.fingerprint(HandsOver(e).value.1))
            else Expected(cfg, s, p)
  {
    OwnKindOwnKey(cfg, s.rows, s.config, q, s.pcs.At(q), a);
  }

  lemma HandOverLabels(cfg: Config, s: State, p: Proc, q: Proc, a: Action, e: Effect)
    requires Enabled(cfg, s, q, a) == Some(e)
    ensures HandsOverOf(s, p, Step(q, a)) <==> q == p && HandsOver(e).Some?
    ensures AcksLive(s, p, Step(q, a)) <==> q == p && HandsOver(e).Some? && e.queue.LeaveQueue?
    ensures HandsOver(e).Some? ==> HandsOver(e).value == (KindOf(q), s.pcs.At(q).payload)
  {
  }

  /** A live acknowledgement makes the stored fingerprint that of the newest payload exactly when
      it is harmless. */
  lemma LiveAckDecides(cfg: Config, s: State, p: Proc, a: Action, e: Effect)
    requires FingerprintKey(p).Some? && Enabled(cfg, s, p, a) == Some(e) && AcksLive(s, p, Step(p, a))
    ensures NewestOk(cfg, Apply(cfg, s, p, e), p) <==> Harmless(cfg, s, p, Step(p, a))
  {
    var payload := s.pcs.At(p).payload;
    LastRowNone(s.rows, KindOf(p));
    assert e == ActLive(p, payload, s.pcs.At(p).drained, s.pcs.At(p).attempt, a.outcome);
    var acked := s.acked + [Live(KindOf(p), payload)];
    assert acked[|acked| - 1] == Live(KindOf(p), payload);
    assert Newest(s.rows, acked, KindOf(p)) ==
           if NoRowOf(s.rows, KindOf(p)) then Some(payload) else LastRow(s.rows, KindOf(p));
  }

  /** One step: a hand-over decides whether the stored fingerprint is that of the newest payload,
      whatever was the case before; no other step changes it. */
  lemma HandOverDecides(cfg: Config, s: State, p: Proc, q: Proc, a: Action, e: Effect)
    requires Inv(cfg, s) && FingerprintKey(p).Some? && Enabled(cfg, s, q, a) == Some(e)
    requires StoresDue(s, p, Step(q, a))
    ensures NewestOk(cfg, Apply(cfg, s, q, e), p) <==>
            if HandsOverOf(s, p, Step(q, a)) then Harmless(cfg, s, p, Step(q, a)) else NewestOk(cfg, s, p)
  {
    HandOverLabels(cfg, s, p, q, a, e);
    if AcksLive(s, p, Step(q, a)) {
      LiveAckDecides(cfg, s, p, a, e);
    } else {
      NewestAfter(cfg, s, q, a, e, KindOf(p));
      ExpectedAfter(cfg, s, p, q, a, e);
    }
  }

  lemma StepDecides(cfg: Config, s: State, p: Proc, l: Label)
    requires Inv(cfg, s) && FingerprintKey(p).Some? && Next(cfg, s, l).Some? && StoresDue(s, p, l)
    ensures NewestOk(cfg, Next(cfg, s, l).value, p) <==>
            if HandsOverOf(s, p, l) then Harmless(cfg, s, p, l) else NewestOk(cfg, s, p)
  {
    if l.Step? { HandOverDecides(cfg, s, p, l.proc, l.action, Enabled(cfg, s, l.proc, l.action).value); }
  }

  lemma HandOverIsDue(cfg: Config, s: State, p: Proc, l: Label)
    requires HandsOverOf(s, p, l)
    ensures StoresDue(s, p, l)
  {
  }

  lemma {:induction false} LastHandOverDecides(cfg: Config, s0: State, p: Proc, labels: seq<Label>, s: State)
    requires SingleEngine(cfg) && Init(s0) && NewestOk(cfg, s0, p)
    requires StoredSince(cfg, s0, p, labels) && Run(cfg, s0, labels) == Some(s)
    ensures NewestOk(cfg, s, p) <==> LastHandOverHarmless(cfg, s0, p, labels)
    decreases |labels|
  {
    if labels != [] {
      var n := |labels| - 1;
      var before := Run(cfg, s0, labels[..n]).value;
      hide StoresDue, NewestOk, Next, Init, HandsOverOf, Harmless;
      if HandsOverOf(before, p, labels[n]) {
        HandOverIsDue(cfg, before, p, labels[n]);
      } else {
        LastHandOverDecides(cfg, s0, p, labels[..n], before);
      }
      InitEstablishes(cfg, s0);
      RunKeeps(cfg, s0, labels[..n], before);
      HasKey(cfg, s0, p);
      StepDecides(cfg, before, p, labels[n]);
    }
  }

  lemma HasKey(cfg: Config, s: State, p: Proc)
    requires NewestOk(cfg, s, p)
    ensures FingerprintKey(p).Some?
  {
  }

  // ---------------------------------------------------------------- the last snapshot

  /** The stored fingerprint is that of the snapshot the Portal acknowledged last. */
  ghost predicate StoredIsLastAck(cfg: Config, s: State, p: Proc)
    requires FingerprintKey(p).Some?
  {
    var key, last := FingerprintKey(p).value, LastAck(s.acked, KindOf(p));
    (key in s.config <==> last.Some?) && (last.Some? ==> s.config[key] == cfg.fingerprint(last.value))
  }

  /** Latest snapshot wins, exactly: if no store was lost since the last hand-over, then whenever
      no payload of the kind is queued and no store is pending, the last snapshot the Portal acknowledged is the
      one whose fingerprint is stored if and only if the last hand-over was harmless. */
  lemma LatestSnapshotWinsIff(cfg: Config, s0: State, p: Proc, labels: seq<Label>, s: State)
    requires SingleEngine(cfg) && FingerprintKey(p).Some?
    requires Init(s0) && NoRowOf(s0.rows, KindOf(p))
    requires StoredSince(cfg, s0, p, labels) && Run(cfg, s0, labels) == Some(s)
    requires NoRowOf(s.rows, KindOf(p)) && !s.pcs.At(p).Persisting?
    ensures StoredIsLastAck(cfg, s, p) <==> LastHandOverHarmless(cfg, s0, p, labels)
  {
    LastRowNone(s0.rows, KindOf(p));
    LastRowNone(s.rows, KindOf(p));
    LastHandOverDecides(cfg, s0, p, labels, s);
  }

  /** Every live acknowledgement of `p` comes when no payload of its kind is queued. */
  ghost predicate CarefulRun(cfg: Config, s: State, p: Proc, labels: seq<Label>) {
    forall n :: 0 <= n < |labels| && Run(cfg, s, labels[..n]).Some? ==>
      var before := Run(cfg, s, labels[..n]).value;
      AcksLive(before, p, labels[n]) ==> NoRowOf(before.rows, KindOf(p))
  }

  lemma CarefulRunSplits(cfg: Config, s0: State, p: Proc, labels: seq<Label>)
    requires labels != [] && CarefulRun(cfg, s0, p, labels)
    ensures CarefulRun(cfg, s0, p, labels[..|labels| - 1])
  {
    hide Run;
    var n := |labels| - 1;
    forall m | 0 <= m < n && Run(cfg, s0, labels[..n][..m]).Some?
      ensures var before := Run(cfg, s0, labels[..n][..m]).value;
              AcksLive(before, p, labels[..n][m]) ==> NoRowOf(before.rows, KindOf(p))
    {
      assert labels[..n][..m] == labels[..m];
    }
  }

  lemma {:induction false} CarefulMeansHarmless(cfg: Config, s0: State, p: Proc, labels: seq<Label>)
    requires CarefulRun(cfg, s0, p, labels) && Run(cfg, s0, labels).Some?
    ensures LastHandOverHarmless(cfg, s0, p, labels)
    decreases |labels|
  {
    if labels != [] {
      var n := |labels| - 1;
      CarefulRunSplits(cfg, s0, p, labels);
      CarefulMeansHarmless(cfg, s0, p, labels[..n]);
      LastRowNone(Run(cfg, s0, labels[..n]).value.rows, KindOf(p));
    }
  }

  /** In particular the latest snapshot wins on careful runs. */
  lemma LatestSnapshotWins(cfg: Config, s0: State, p: Proc, labels: seq<Label>, s: State)
    requires SingleEngine(cfg) && FingerprintKey(p).Some?
    requires Init(s0) && NoRowOf(s0.rows, KindOf(p))
    requires StoredSince(cfg, s0, p, labels) && CarefulRun(cfg, s0, p, labels) && Run(cfg, s0, labels) == Some(s)
    requires NoRowOf(s.rows, KindOf(p)) && !s.pcs.At(p).Persisting?
    ensures StoredIsLastAck(cfg, s, p)
  {
    CarefulMeansHarmless(cfg, s0, p, labels);
    LatestSnapshotWinsIff(cfg, s0, p, labels, s);
  }

  // ---------------------------------------------------------------- when the guard is met

  predicate Drained(pc: Pc) {
    (pc.Flushed? || pc.Ready? || pc.SendLocked? || pc.LiveSending?) && pc.drained
  }

  lemma DrainedMoves(cfg: Config, rows: seq<Row>, config: map<Key, string>, p: Proc, pc: Pc, a: Action)
    requires Act(cfg, rows, config, p, pc, a).Some?
    ensures var e := Act(cfg, rows, config, p, pc, a).value;
            Drained(e.pc) ==>
              && e.queue.LeaveQueue?
              && (Drained(pc) || (pc.Flushing? && pc.pass.covered && pc.pass.index >= |pc.pass.items|))
  {
  }

  /** The opening pass returned nil on a table of at most 100 rows, so until the producer sends,
      no row of its kind is queued: a live acknowledgement is then careful. */
  lemma {:induction false} DrainedMeansNoOwnRows(cfg: Config, s0: State, p: Proc, labels: seq<Label>, s: State)
    requires SingleEngine(cfg) && Init(s0) && Run(cfg, s0, labels) == Some(s)
    requires Drained(s.pcs.At(p))
    ensures NoRowOf(s.rows, KindOf(p))
    decreases |labels|
  {
    InitEstablishes(cfg, s0);
    if labels != [] {
      var n := |labels| - 1;
      var before, l := Run(cfg, s0, labels[..n]).value, labels[n];
      RunKeeps(cfg, s0, labels[..n], before);
      if l.Step? {
        if Drained(before.pcs.At(p)) { DrainedMeansNoOwnRows(cfg, s0, p, labels[..n], before); }
        DrainedStep(cfg, before, p, l.proc, l.action, Enabled(cfg, before, l.proc, l.action).value);
      }
    }
  }

  lemma DrainedStep(cfg: Config, s: State, p: Proc, q: Proc, a: Action, e: Effect)
    requires Inv(cfg, s) && Enabled(cfg, s, q, a) == Some(e)
    requires Drained(s.pcs.At(p)) ==> NoRowOf(s.rows, KindOf(p))
    requires Drained(Apply(cfg, s, q, e).pcs.At(p))
    ensures NoRowOf(NewRows(s, e.queue), KindOf(p))
  {
    DrainedMoves(cfg, s.rows, s.config, q, s.pcs.At(q), a);
    OwnKindOwnKey(cfg, s.rows, s.config, q, s.pcs.At(q), a);
    if !Drained(s.pcs.At(p)) { CoveredPassDrains(s, p); }
    if e.queue.DeleteRow? { DeleteKeepsNone(s.rows, e.queue.id, KindOf(p)); }
  }

  /** A pass that read the whole table and handled every row leaves unroutable rows only. */
  lemma CoveredPassDrains(s: State, p: Proc)
    requires FlushOk(s.rows, s.acked, s.pcs.At(p))
    requires s.pcs.At(p).Flushing? && s.pcs.At(p).pass.covered && s.pcs.At(p).pass.index >= |s.pcs.At(p).pass.items|
    ensures NoRowOf(s.rows, KindOf(p))
  {
    assert s.rows[..|s.rows|] == s.rows;
  }

  lemma {:induction false} DeleteKeepsNone(rows: seq<Row>, id: int, kind: Kind)
    requires NoRowOf(rows, kind)
    ensures NoRowOf(DeleteId(rows, id), kind)
  {
    if rows != [] { DeleteKeepsNone(rows[1..], id, kind); }
  }

  /** Every live acknowledgement of `p` follows an opening pass that drained the table. */
  ghost predicate DrainedRun(cfg: Config, s: State, p: Proc, labels: seq<Label>) {
    forall n :: 0 <= n < |labels| && Run(cfg, s, labels[..n]).Some? ==>
      var before := Run(cfg, s, labels[..n]).value;
      AcksLive(before, p, labels[n]) ==> Drained(before.pcs.At(p))
  }

  lemma DrainedRunIsCareful(cfg: Config, s0: State, p: Proc, labels: seq<Label>)
    requires SingleEngine(cfg) && Init(s0) && DrainedRun(cfg, s0, p, labels)
    ensures CarefulRun(cfg, s0, p, labels)
  {
    forall n | 0 <= n < |labels| && Run(cfg, s0, labels[..n]).Some?
      ensures var before := Run(cfg, s0, labels[..n]).value;
              AcksLive(before, p, labels[n]) ==> NoRowOf(before.rows, KindOf(p))
    {
      var before := Run(cfg, s0, labels[..n]).value;
      if AcksLive(before, p, labels[n]) { DrainedMeansNoOwnRows(cfg, s0, p, labels[..n], before); }
    }
  }
}
