/** The store-and-forward delivery protocol as a labelled transition system.

    Three producers share one database. Each runs: take the engine mutex, replay the queue,
    release; collect a payload; take the mutex, send it live, queue it on failure, release;
    store the fingerprint. `Next` performs one atomic action: one SQL statement, one HTTP
    attempt, or one mutex operation. The label carries everything that is decided outside the
    program (faults, Portal replies, collected payloads), so `Next` is a function and a run is
    a sequence of labels. */
module Protocol {
  import opened Common

  const WINDOW: nat := 100
  const RETRIES: nat := 3

  datatype Proc = Heartbeat | Inventory | Software

  function KindOf(p: Proc): Kind {
    match p
    case Heartbeat => HeartbeatType
    case Inventory => InventoryType
    case Software => SoftwareType
  }

  function RouteForType(kind: Kind): string {
    match kind
    case HeartbeatType => "/api/agent/heartbeat"
    case InventoryType => "/api/agent/inventory"
    case SoftwareType => "/api/agent/software"
    case OtherType(_) => ""
  }

  predicate Routable(kind: Kind) { !kind.OtherType? }

  /** The key under which a producer stores its last fingerprint; the heartbeat stores none. */
  function FingerprintKey(p: Proc): Option<Key> {
    match p
    case Heartbeat => None
    case Inventory => Some(InventoryFingerprint)
    case Software => Some(SoftwareFingerprint)
  }

  predicate IsFingerprintKey(key: Key) { key.InventoryFingerprint? || key.SoftwareFingerprint? }

  /** `engine` says which `sync.Engine` (and so which mutex) a producer uses; `fingerprint` is the
      fingerprint of what a payload carries; `genuine` says which payloads a producer makes. All three
      are arbitrary. */
  datatype Config = Config(engine: Proc -> nat, fingerprint: Bytes -> string, genuine: (Proc, Bytes) -> bool)

  ghost predicate SingleEngine(cfg: Config) {
    forall p, q :: cfg.engine(p) == cfg.engine(q)
  }

  /** One pass of `Flush`: the rows read, the loop index, the count to be returned, and whether
      the rows read were the whole table. */
  datatype Pass = Pass(items: seq<Row>, index: nat, sent: nat, covered: bool)

  datatype Pc =
    | Idle
    | FlushLocked
    | Flushing(pass: Pass)
    | FlushSending(pass: Pass, attempt: nat)
    | FlushDeleting(pass: Pass)
    | Flushed(drained: bool)
    | Ready(payload: Bytes, drained: bool)
    | SendLocked(payload: Bytes, drained: bool)
    | LiveSending(payload: Bytes, drained: bool, attempt: nat)
    | LiveFailed(payload: Bytes)
    | Persisting(payload: Bytes)

  /** The program points of the three producers. */
  datatype Threads = Threads(heartbeat: Pc, inventory: Pc, software: Pc) {
    function At(p: Proc): Pc {
      match p
      case Heartbeat => heartbeat
      case Inventory => inventory
      case Software => software
    }

    function With(p: Proc, pc: Pc): Threads {
      match p
      case Heartbeat => this.(heartbeat := pc)
      case Inventory => this.(inventory := pc)
      case Software => this.(software := pc)
    }
  }

  lemma LaterWriteWins(t: Threads, p: Proc, pc: Pc)
    ensures t.With(p, pc).At(p) == pc
    ensures forall later :: t.With(p, pc).With(p, later) == t.With(p, later)
  {
  }

  lemma RewriteChangesNothing(t: Threads, p: Proc)
    ensures t.With(p, t.At(p)) == t
  {
  }

  const ALL_IDLE := Threads(Idle, Idle, Idle)

  /** The program points at which the engine mutex is held. */
  predicate Critical(pc: Pc) {
    pc.FlushLocked? || pc.Flushing? || pc.FlushSending? || pc.FlushDeleting? ||
    pc.SendLocked? || pc.LiveSending? || pc.LiveFailed?
  }

  /** What the Portal receives and the agent sees acknowledged: a payload sent live, or the
      replay of a queue row. */
  datatype Receipt = Live(kind: Kind, payload: Bytes) | Replay(row: Row)

  /** `rows` is the queue table in id order and `config` the key/value table. `enqueued`,
      `deleted`, `received` and `acked` are history variables. */
  datatype State = State(
    rows: seq<Row>,
    config: map<Key, string>,
    holders: map<nat, Proc>,
    pcs: Threads,
    enqueued: seq<Row>,
    deleted: nat,
    received: seq<Receipt>,
    acked: seq<Receipt>)

  datatype Insert = Cancelled | InsertFailed | Inserted

  datatype Action =
    | LockForFlush
    | ReadPending(ok: bool)
    | SkipRow
    | FinishFlush
    | ReadToken(ok: bool)
    | Attempt(outcome: Outcome)
    | Delete(ok: bool)
    | Abandon
    | Collect(payload: Bytes, readable: bool)
    | LockForSend
    | Queue(insert: Insert)
    | Persist(ok: bool)
    | PutOther(key: Key, value: string)

  datatype Label = Crash | Step(proc: Proc, action: Action)

  // ---------------------------------------------------------------- the queue table

  /** SQLite's choice of an INTEGER PRIMARY KEY without AUTOINCREMENT: one more than the
      largest live id. Ids of deleted rows are used again. */
  function NextId(rows: seq<Row>): int {
    if rows == [] then 1 else rows[|rows| - 1].id + 1
  }

  /** DELETE ... WHERE id = ?: removes whatever row carries the id now. */
  function DeleteId(rows: seq<Row>, id: int): (left: seq<Row>)
    ensures |left| <= |rows|
  {
    if rows == [] then []
    else if rows[0].id == id then DeleteId(rows[1..], id)
    else [rows[0]] + DeleteId(rows[1..], id)
  }

  // ---------------------------------------------------------------- what one action does

  datatype LockOp = Hold | Take | Release
  datatype QueueOp = LeaveQueue | InsertRow(kind: Kind, payload: Bytes) | DeleteRow(id: int)
  datatype WireOp = NoTraffic | Traffic(outcome: Outcome, receipt: Receipt)
  datatype ConfigOp = LeaveConfig | PutKey(key: Key, value: string)

  /** The effect of one action: the producer's next program point and what happens to the
      mutex, the queue table, the network and the key/value table. */
  datatype Effect = Effect(pc: Pc, lock: LockOp, queue: QueueOp, wire: WireOp, put: ConfigOp)

  function Move(pc: Pc, lock: LockOp): Effect {
    Effect(pc, lock, LeaveQueue, NoTraffic, LeaveConfig)
  }

  /** A failed read of the pending rows ends the pass; otherwise the window is remembered. */
  function ActReadPending(rows: seq<Row>, ok: bool): Effect {
    if ok then Move(Flushing(Pass(rows[..Min(WINDOW, |rows|)], 0, 0, |rows| <= WINDOW)), Hold)
    else Move(Flushed(false), Release)
  }

  predicate AtRoutable(pass: Pass) {
    pass.index < |pass.items| && Routable(pass.items[pass.index].kind)
  }

  /** Reading the token precedes every send; without a token the send fails and queues nothing. */
  function ActReadToken(pc: Pc, ok: bool): Option<Effect> {
    if pc.Flushing? && AtRoutable(pc.pass) then
      Some(if ok then Move(FlushSending(pc.pass, 0), Hold) else Move(Flushed(false), Release))
    else if pc.SendLocked? then
      Some(if ok then Move(LiveSending(pc.payload, pc.drained, 0), Hold) else Move(Idle, Release))
    else None
  }

  function ActReplay(pass: Pass, attempt: nat, o: Outcome): Effect
    requires pass.index < |pass.items|
  {
    var wire := Traffic(o, Replay(pass.items[pass.index]));
    if TransportError(o) && attempt < RETRIES then
      Effect(FlushSending(pass, attempt + 1), Hold, LeaveQueue, wire, LeaveConfig)
    else if Acceptable(o) then
      Effect(FlushDeleting(pass), Hold, LeaveQueue, wire, LeaveConfig)
    else
      Effect(Flushed(false), Release, LeaveQueue, wire, LeaveConfig)
  }

  function ActDelete(pass: Pass, ok: bool): Effect
    requires pass.index < |pass.items|
  {
    if ok then
      Effect(Flushing(pass.(index := pass.index + 1, sent := pass.sent + 1)), Hold,
             DeleteRow(pass.items[pass.index].id), NoTraffic, LeaveConfig)
    else Move(Flushed(false), Release)
  }

  /** The suppression test: the stored fingerprint could be read and equals the new one. */
  predicate Suppressed(cfg: Config, config: map<Key, string>, p: Proc, payload: Bytes, readable: bool) {
    var key := FingerprintKey(p);
    key.Some? && readable && key.value in config && config[key.value] == cfg.fingerprint(payload)
  }

  function ActLive(p: Proc, payload: Bytes, drained: bool, attempt: nat, o: Outcome): Effect {
    var wire := Traffic(o, Live(KindOf(p), payload));
    if TransportError(o) && attempt < RETRIES then
      Effect(LiveSending(payload, drained, attempt + 1), Hold, LeaveQueue, wire, LeaveConfig)
    else if Acceptable(o) then
      Effect(Persisting(payload), Release, LeaveQueue, wire, LeaveConfig)
    else
      Effect(LiveFailed(payload), Hold, LeaveQueue, wire, LeaveConfig)
  }

  function ActQueue(p: Proc, payload: Bytes, insert: Insert): Effect {
    if insert.Inserted? then
      Effect(Persisting(payload), Release, InsertRow(KindOf(p), payload), NoTraffic, LeaveConfig)
    else Move(Idle, Release)
  }

  function ActPersist(cfg: Config, p: Proc, payload: Bytes, ok: bool): Effect {
    var key := FingerprintKey(p);
    Effect(Idle, Hold, LeaveQueue, NoTraffic,
           if ok && key.Some? then PutKey(key.value, cfg.fingerprint(payload)) else LeaveConfig)
  }

  /** The program of a producer: what action `a` does at program point `pc`, if it can happen
      there, given the queue table and the key/value table it reads. */
  function Act(cfg: Config, rows: seq<Row>, config: map<Key, string>, p: Proc, pc: Pc, a: Action): Option<Effect> {
    match a
    case LockForFlush => if pc.Idle? then Some(Move(FlushLocked, Take)) else None
    case ReadPending(ok) => if pc.FlushLocked? then Some(ActReadPending(rows, ok)) else None
    case SkipRow =>
      if pc.Flushing? && pc.pass.index < |pc.pass.items| && !AtRoutable(pc.pass)
      then Some(Move(Flushing(pc.pass.(index := pc.pass.index + 1)), Hold)) else None
    case FinishFlush =>
      if pc.Flushing? && pc.pass.index >= |pc.pass.items|
      then Some(Move(Flushed(pc.pass.covered), Release)) else None
    case ReadToken(ok) => ActReadToken(pc, ok)
    case Attempt(o) =>
      if pc.FlushSending? && pc.pass.index < |pc.pass.items| then Some(ActReplay(pc.pass, pc.attempt, o))
      else if pc.LiveSending? then Some(ActLive(p, pc.payload, pc.drained, pc.attempt, o))
      else None
    case Delete(ok) =>
      if pc.FlushDeleting? && pc.pass.index < |pc.pass.items| then Some(ActDelete(pc.pass, ok)) else None
    case Abandon => if pc.Flushed? then Some(Move(Idle, Hold)) else None
    case Collect(payload, readable) =>
      if !pc.Flushed? || !cfg.genuine(p, payload) then None
      else if Suppressed(cfg, config, p, payload, readable) then Some(Move(Idle, Hold))
      else Some(Move(Ready(payload, pc.drained), Hold))
    case LockForSend => if pc.Ready? then Some(Move(SendLocked(pc.payload, pc.drained), Take)) else None
    case Queue(insert) => if pc.LiveFailed? then Some(ActQueue(p, pc.payload, insert)) else None
    case Persist(ok) => if pc.Persisting? then Some(ActPersist(cfg, p, pc.payload, ok)) else None
    case PutOther(key, value) =>
      if IsFingerprintKey(key) then None
      else Some(Effect(pc, Hold, LeaveQueue, NoTraffic, PutKey(key, value)))
  }

  // ---------------------------------------------------------------- one step of the system

  function NewRows(s: State, op: QueueOp): seq<Row> {
    match op
    case LeaveQueue => s.rows
    case InsertRow(kind, payload) => s.rows + [Row(NextId(s.rows), kind, payload, |s.enqueued|)]
    case DeleteRow(id) => DeleteId(s.rows, id)
  }

  function NewHistory(s: State, op: QueueOp): seq<Row> {
    if op.InsertRow? then s.enqueued + [Row(NextId(s.rows), op.kind, op.payload, |s.enqueued|)] else s.enqueued
  }

  function NewDeleted(s: State, op: QueueOp): nat {
    if op.DeleteRow? then s.deleted + (|s.rows| - |DeleteId(s.rows, op.id)|) else s.deleted
  }

  function Received(log: seq<Receipt>, op: WireOp): seq<Receipt> {
    if op.Traffic? && Arrived(op.outcome) then log + [op.receipt] else log
  }

  function Acked(log: seq<Receipt>, op: WireOp): seq<Receipt> {
    if op.Traffic? && Acceptable(op.outcome) then log + [op.receipt] else log
  }

  function NewHolders(holders: map<nat, Proc>, e: nat, p: Proc, op: LockOp): map<nat, Proc> {
    match op
    case Hold => holders
    case Take => holders[e := p]
    case Release => holders - {e}
  }

  function NewConfig(config: map<Key, string>, op: ConfigOp): map<Key, string> {
    if op.PutKey? then config[op.key := op.value] else config
  }

  function Apply(cfg: Config, s: State, p: Proc, e: Effect): State {
    State(
      NewRows(s, e.queue), NewConfig(s.config, e.put),
      NewHolders(s.holders, cfg.engine(p), p, e.lock), s.pcs.With(p, e.pc),
      NewHistory(s, e.queue), NewDeleted(s, e.queue),
      Received(s.received, e.wire), Acked(s.acked, e.wire))
  }

  /** A crash loses every goroutine and every mutex; the database survives. */
  function Restarted(s: State): State {
    s.(holders := map[], pcs := ALL_IDLE)
  }

  /** The effect of action `a` of producer `p`, if it is enabled: the program allows it and a
      mutex that is to be taken is free. */
  function Enabled(cfg: Config, s: State, p: Proc, a: Action): Option<Effect> {
    var e := Act(cfg, s.rows, s.config, p, s.pcs.At(p), a);
    if e.Some? && e.value.lock.Take? && cfg.engine(p) in s.holders then None else e
  }

  function Next(cfg: Config, s: State, l: Label): Option<State> {
    match l
    case Crash => Some(Restarted(s))
    case Step(p, a) =>
      var e := Enabled(cfg, s, p, a);
      if e.None? then None else Some(Apply(cfg, s, p, e.value))
  }

  // ---------------------------------------------------------------- runs

  function Run(cfg: Config, s: State, labels: seq<Label>): Option<State> {
    if labels == [] then Some(s)
    else
      var s' := Run(cfg, s, labels[..|labels| - 1]);
      if s'.None? then None else Next(cfg, s'.value, labels[|labels| - 1])
  }

  /** The agent starts on a database that may hold leftover rows (even of unknown types) but no
      stored fingerprint. */
  ghost predicate Init(s: State) {
    && s.pcs == ALL_IDLE
    && s.holders == map[] && s.received == [] && s.acked == [] && s.deleted == 0
    && s.enqueued == s.rows
    && InsertionOrdered(s.rows)
    && InventoryFingerprint !in s.config && SoftwareFingerprint !in s.config
  }

  ghost predicate InsertionOrdered(rows: seq<Row>) {
    && (forall i :: 0 <= i < |rows| ==> rows[i].ticket == i)
    && (forall i, j :: 0 <= i < j < |rows| ==> rows[i].id < rows[j].id)
  }

  ghost predicate Reachable(cfg: Config, s: State) {
    exists s0, labels :: Init(s0) && Run(cfg, s0, labels) == Some(s)
  }

  lemma NoSteps(cfg: Config, s: State)
    ensures Run(cfg, s, []) == Some(s)
  {
  }

  lemma {:induction false} RunConcat(cfg: Config, s: State, a: seq<Label>, b: seq<Label>)
    requires Run(cfg, s, a).Some?
    ensures Run(cfg, s, a + b) == Run(cfg, Run(cfg, s, a).value, b)
    decreases |b|
  {
    if b == [] {
      assert a + b == a;
    } else {
      var b' := b[..|b| - 1];
      RunConcat(cfg, s, a, b');
      assert (a + b)[..|a + b| - 1] == a + b';
    }
  }

  lemma RunSnoc(cfg: Config, s: State, a: seq<Label>, l: Label)
    requires Run(cfg, s, a).Some?
    ensures Run(cfg, s, a + [l]) == Next(cfg, Run(cfg, s, a).value, l)
  {
    assert (a + [l])[..|a|] == a;
  }
}
