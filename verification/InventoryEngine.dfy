/** The hardware producer: replay the queue, collect, compare with the stored fingerprint, send the
    snapshot with the changes since the last one, and store what was handed over. */
module InventoryEngine {
  import opened Common
  import opened Protocol
  import opened SyncEngine
  import opened Producing
  import opened HttpClient
  import opened Hardware
  import opened Difference
  import opened ChangeHistory
  import opened Delivery
  import Intelligence
  import Signing
  import Storage

  /** What the JSON of a snapshot is made of; `extra` stands for time, version, health and hints. */
  datatype Payload = Payload(agentUuid: string, hostname: string, fingerprint: string,
                             changes: seq<Change>, hardware: Snapshot, extra: string)

  /** JSON encoding and decoding, and SHA-256 in hexadecimal. */
  datatype Codec = Codec(
    encode: Payload -> Bytes,
    hardware: Snapshot -> string, parse: string -> Option<Snapshot>,
    changes: seq<Change> -> string, timeline: seq<Event> -> string, parseTimeline: string -> Option<seq<Event>>,
    digest: string -> string)

  /** Decoding undoes encoding, and neither a snapshot's encoding nor a digest is empty. */
  ghost predicate Faithful(c: Codec) {
    && (forall h :: c.parse(c.hardware(h)) == Some(h) && c.hardware(h) != "")
    && (forall t :: c.parseTimeline(c.timeline(t)) == Some(t))
    && (forall x :: c.digest(x) != "")
  }

  function Fingerprint(c: Codec, h: Snapshot): string { c.digest(c.hardware(Intelligence.Normalized(h))) }

  /** The payload carries the fingerprint of its snapshot. */
  predicate IsOwn(c: Codec, p: Payload) { p.fingerprint == Fingerprint(c, p.hardware) }

  /** Such payloads are among those the producer makes, and the fingerprint the protocol attributes to
      them is the one they carry. */
  ghost predicate Agrees(cfg: Config, c: Codec) {
    && Faithful(c)
    && forall p: Payload | IsOwn(c, p) ::
         cfg.genuine(Inventory, c.encode(p)) && cfg.fingerprint(c.encode(p)) == p.fingerprint
  }

  lemma AgreesOn(cfg: Config, c: Codec, p: Payload)
    requires Agrees(cfg, c) && IsOwn(c, p)
    ensures Faithful(c) && cfg.genuine(Inventory, c.encode(p))
    ensures cfg.fingerprint(c.encode(p)) == p.fingerprint != ""
  {
  }

  lemma AgreesFaithful(cfg: Config, c: Codec)
    requires Agrees(cfg, c)
    ensures Faithful(c)
  {
  }

  /** The producer makes no others. */
  ghost predicate MakesOnlyOwn(cfg: Config, c: Codec) {
    forall x | cfg.genuine(Inventory, x) :: exists p: Payload :: IsOwn(c, p) && x == c.encode(p)
  }

  ghost predicate NoCollision(c: Codec) { forall x, y :: c.digest(x) == c.digest(y) ==> x == y }

  /** Snapshots share a fingerprint exactly when they share a normal form, if neither encoding nor
      hashing identifies two normal forms; then the diff between them is empty. */
  lemma SameFingerprintIff(c: Codec, a: Snapshot, b: Snapshot)
    requires Faithful(c) && NoCollision(c)
    ensures Fingerprint(c, a) == Fingerprint(c, b) <==> Intelligence.Normalized(a) == Intelligence.Normalized(b)
    ensures Fingerprint(c, a) == Fingerprint(c, b) ==> Diff(Some(a), b) == []
  {
    var x, y := Intelligence.Normalized(a), Intelligence.Normalized(b);
    assert c.parse(c.hardware(x)) == Some(x) && c.parse(c.hardware(y)) == Some(y);
    EmptyDiffIffSameForm(a, b);
  }

  /** A snapshot of the same machine state is acknowledged or still queued. */
  ghost predicate SnapshotIsSafe(c: Codec, s: State, h: Snapshot) {
    exists q: Payload ::
      IsOwn(c, q) && Safe(s, InventoryType, c.encode(q))
      && Intelligence.Normalized(q.hardware) == Intelligence.Normalized(h)
  }

  /** Whenever the stored fingerprint is that of a snapshot, a snapshot with its normal form is safe. */
  lemma StoredSnapshotIsSafe(cfg: Config, c: Codec, s: State, h: Snapshot)
    requires SingleEngine(cfg) && Reachable(cfg, s)
    requires Agrees(cfg, c) && MakesOnlyOwn(cfg, c) && NoCollision(c)
    requires InventoryFingerprint in s.config && s.config[InventoryFingerprint] == Fingerprint(c, h)
    ensures SnapshotIsSafe(c, s, h)
  {
    var x := StoredFingerprintIsSafe(cfg, s, Inventory);
    var q: Payload :| IsOwn(c, q) && x == c.encode(q);
    SameFingerprintIff(c, q.hardware, h);
  }

  /** A skipped run hides no undelivered snapshot. */
  lemma SkippedSnapshotIsSafe(cfg: Config, c: Codec, s: State, p: Payload, readable: bool, s': State)
    requires SingleEngine(cfg) && Reachable(cfg, s)
    requires Agrees(cfg, c) && MakesOnlyOwn(cfg, c) && NoCollision(c) && IsOwn(c, p)
    requires Next(cfg, s, Step(Inventory, Collect(c.encode(p), readable))) == Some(s')
    requires s'.pcs.At(Inventory) == Idle
    ensures SnapshotIsSafe(c, s', p.hardware)
  {
    SuppressedStep(cfg, s, Inventory, c.encode(p), readable, s');
    StoredSnapshotIsSafe(cfg, c, s', p.hardware);
  }

  /** The computer name falls back to the host name. */
  function Named(h: Snapshot, hostname: string): Snapshot {
    if h.general.computerName == "" then h.(general := h.general.(computerName := hostname)) else h
  }

  // ---------------------------------------------------------------- the producer's memory

  /** History variables: what was handed over; the snapshot whose fingerprint is stored; what entered
      the timeline, and whether all of that could be read and stored. */
  datatype Past = Past(history: seq<Handed>, marked: Option<Snapshot>, events: seq<Event>, intact: bool)

  function Text(encode: Snapshot -> string, h: Option<Snapshot>): Option<string> {
    if h.None? then None else Some(encode(h.value))
  }

  /** The stored hardware is that of the last snapshot whose Put succeeded, the stored fingerprint
      likewise, and each payload listed the changes since the hardware stored then. */
  ghost predicate RemembersLast(c: Codec, past: Past, core: map<Key, string>) {
    && Chained(past.history)
    && Stores(core, InventoryHardware, Text(c.hardware, LastStored(past.history)))
    && Stores(core, InventoryFingerprint, Text((h: Snapshot) => Fingerprint(c, h), past.marked))
  }

  /** The stored timeline is the last 50 of all its entries, as long as no read or write of it failed. */
  ghost predicate RemembersTimeline(c: Codec, past: Past, core: map<Key, string>) {
    past.intact ==>
      Stores(core, InventoryTimeline, if past.events == [] then None else Some(c.timeline(LastFifty(past.events))))
  }

  ghost predicate Remembers(c: Codec, past: Past, core: map<Key, string>) {
    RemembersLast(c, past, core) && RemembersTimeline(c, past, core)
  }

  /** A database that stores nothing yet remembers an empty past. */
  lemma NothingToRemember(c: Codec, core: map<Key, string>)
    requires core.Keys !! MEMORY
    ensures Remembers(c, Past([], None, [], true), core)
  {
  }

  predicate Stores(core: map<Key, string>, key: Key, value: Option<string>) {
    if value.None? then key !in core else key in core && core[key] == value.value
  }

  /** The key/value table after a Put that may fail. */
  function AfterPut(core: map<Key, string>, ok: bool, key: Key, value: string): map<Key, string> {
    if ok then core[key := value] else core
  }

  lemma PutInMemory(core: map<Key, string>, ok: bool, key: Key, value: string)
    requires key in MEMORY
    ensures AfterPut(core, ok, key, value) - MEMORY == core - MEMORY
  {
  }

  /** The past with one more snapshot handed over. */
  ghost function WithSnapshot(past: Past, e: Handed, kept: bool): Past {
    past.(history := past.history + [e], marked := if kept then Some(e.snapshot) else past.marked)
  }

  /** Whatever becomes of the two Puts that follow a hand-over; a crash is a Put that does not happen. */
  lemma SnapshotRemembered(c: Codec, past: Past, core: map<Key, string>, e: Handed, kept: bool)
    requires Remembers(c, past, core) && e.changes == Diff(Base(past.history, e.read), e.snapshot)
    ensures var core' := AfterPut(AfterPut(core, e.stored, InventoryHardware, c.hardware(e.snapshot)),
                                  kept, InventoryFingerprint, Fingerprint(c, e.snapshot));
            Remembers(c, WithSnapshot(past, e, kept), core')
  {
    LastStoredAppends(past.history, e);
    hide Diff, Intelligence.Normalized, LastStored, Fingerprint;
    LinkedAppends(Diff, past.history, e);
  }

  lemma TimelineRemembered(c: Codec, past: Past, core: map<Key, string>, event: Event, timeline: seq<Event>,
                           readable: bool, ok: bool)
    requires Remembers(c, past, core)
    requires readable && past.intact ==> timeline == LastFifty(past.events + [event])
    ensures var past' := past.(events := past.events + [event], intact := past.intact && readable && ok);
            var core' := AfterPut(core, ok, InventoryTimeline, c.timeline(timeline));
            Remembers(c, past', core')
  {
  }

  const MEMORY: set<Key> := {InventoryHardware, InventoryFingerprint, InventoryTimeline}

  /** A snapshot handed over joins the history, and one acknowledged directly also the timeline; only a
      failed statement can keep one from being compared with the stored one and from being stored. */
  ghost predicate Advances(before: Past, after: Past, result: RunResult, hardware: Snapshot, changes: seq<Change>,
                           event: Event, faultless: bool) {
    && (if result.Sent? || result.Queued? then
          exists e: Handed, kept: bool ::
            && e.snapshot == hardware && e.changes == changes && (faultless ==> e.read && e.stored && kept)
            && after.history == WithSnapshot(before, e, kept).history
            && after.marked == WithSnapshot(before, e, kept).marked
        else after.history == before.history && after.marked == before.marked)
    && after.events == before.events + (if result.Sent? then [event] else [])
    && (after.intact ==> before.intact) && (faultless ==> after.intact == before.intact)
  }

  lemma AdvancesLater(before: Past, after: Past, result: RunResult, hardware: Snapshot, changes: seq<Change>,
                      event: Event, faultless: bool)
    requires Advances(before, after, result, hardware, changes, event, faultless)
    ensures Advances(before, after, result, hardware, changes, event, false)
  {
  }

  /** There is something to send. */
  predicate IsReady(config: map<Key, string>, hostname: Option<string>, machine: Option<Snapshot>) {
    IsRegistered(config) && hostname.Some? && machine.Some?
  }

  /** The payload carries the named snapshot with its fingerprint, for the stored agent on this host. */
  ghost predicate Describes(c: Codec, config: map<Key, string>, hostname: Option<string>, machine: Option<Snapshot>,
                            extra: string, payload: Payload) {
    && IsReady(config, hostname, machine)
    && payload.agentUuid == config[AgentUuid] && payload.hostname == hostname.value && payload.extra == extra
    && payload.hardware == Named(machine.value, hostname.value) && IsOwn(c, payload)
  }

  /** The payload lists the changes since the stored snapshot; only a failed statement can make it list
      the whole machine instead. */
  ghost predicate ListsChanges(past: Past, payload: Payload, faultless: bool) {
    || payload.changes == Diff(LastStored(past.history), payload.hardware)
    || (!faultless && payload.changes == Diff(None, payload.hardware))
  }

  predicate Holds(config: map<Key, string>, note: string, value: string) {
    InventoryNote(note) in config && config[InventoryNote(note)] == value
  }

  /** What a run notes down, unless it was cancelled; `changes` is the text of the changes sent. */
  predicate Noted(config: map<Key, string>, result: RunResult, f: Figures, changes: string) {
    match result
    case Skipped => Holds(config, "last_checked", f.time)
    case Sent =>
      Holds(config, "last_success", f.time) && Holds(config, "last_changes", changes) && Figured(config, f, "")
    case _ => Figured(config, f, f.reason)
  }

  predicate Figured(config: map<Key, string>, f: Figures, reason: string) {
    Holds(config, "last_duration_ms", f.duration) && Holds(config, "last_payload_size", f.size) &&
    Holds(config, "last_error", reason)
  }

  /** What a run notes down, as text. */
  datatype Figures = Figures(time: string, duration: string, size: string, reason: string)

  class Engine {
    const sync: SyncEngine.Engine
    const codec: Codec
    ghost var past: Past

    /** Built on whatever earlier runs have stored; `past` is what they did. */
    constructor (sync: SyncEngine.Engine, codec: Codec, ghost past: Past)
      requires Remembers(codec, past, Core(sync.db.config))
      ensures this.sync == sync && this.codec == codec && this.past == past
    {
      this.sync, this.codec, this.past := sync, codec, past;
    }

    // -------------------------------------------------------------- storing

    method PersistFailure(ghost start: State, ghost run: seq<Label>, f: Figures) returns (ghost trace: seq<Label>)
      requires Ongoing(sync, Inventory, start, run, Idle)
      modifies sync`sys, sync.db`config, sync.db`faults
      ensures Ongoing(sync, Inventory, start, trace, Idle) && sync.db.faults >= old(sync.db.faults)
      ensures Core(sync.db.config) == Core(old(sync.db.config))
      ensures sync.db.faults == old(sync.db.faults) ==>
                && Figured(sync.db.config, f, f.reason)
                && (forall time :: Holds(old(sync.db.config), "last_success", time) ==>
                                     Holds(sync.db.config, "last_success", time))
                && (forall changes :: Holds(old(sync.db.config), "last_changes", changes) ==>
                                        Holds(sync.db.config, "last_changes", changes))
      ensures sync.sys == old(sync.sys).(config := sync.db.config)
    {
      hide Ongoing, Core;
      trace := Note(sync, Inventory, start, run, Idle, InventoryNote("last_duration_ms"), f.duration);
      trace := Note(sync, Inventory, start, trace, Idle, InventoryNote("last_payload_size"), f.size);
      trace := Note(sync, Inventory, start, trace, Idle, InventoryNote("last_error"), f.reason);
    }

    method PersistSuccess(ghost start: State, ghost run: seq<Label>, f: Figures) returns (ghost trace: seq<Label>)
      requires Ongoing(sync, Inventory, start, run, Idle)
      modifies sync`sys, sync.db`config, sync.db`faults
      ensures Ongoing(sync, Inventory, start, trace, Idle) && sync.db.faults >= old(sync.db.faults)
      ensures Core(sync.db.config) == Core(old(sync.db.config))
      ensures sync.db.faults == old(sync.db.faults) ==>
                forall changes :: Holds(old(sync.db.config), "last_changes", changes) ==>
                                    Noted(sync.db.config, Sent, f, changes)
      ensures sync.sys == old(sync.sys).(config := sync.db.config)
    {
      hide Ongoing, Core;
      trace := Note(sync, Inventory, start, run, Idle, InventoryNote("last_success"), f.time);
      trace := PersistFailure(start, trace, f.(reason := ""));
    }

    /** The hardware first, then the fingerprint; a failed Put is ignored. */
    method PersistSnapshot(ghost start: State, ghost run: seq<Label>, ghost payload: Bytes, hardware: Snapshot,
                           fingerprint: string, ghost changes: seq<Change>, ghost read: bool)
      returns (ghost trace: seq<Label>, ghost e: Handed, ghost kept: bool)
      requires Ongoing(sync, Inventory, start, run, Persisting(payload))
      requires fingerprint == sync.cfg.fingerprint(payload) == Fingerprint(codec, hardware)
      requires Remembers(codec, past, Core(sync.db.config)) && changes == Diff(Base(past.history, read), hardware)
      modifies this`past, sync`sys, sync.db`config, sync.db`faults
      ensures Ongoing(sync, Inventory, start, trace, Idle) && sync.db.faults >= old(sync.db.faults)
      ensures Remembers(codec, past, Core(sync.db.config))
      ensures past == WithSnapshot(old(past), e, kept) && e == Emission(hardware, changes, read, e.stored)
      ensures sync.db.faults == old(sync.db.faults) ==> e.stored && kept
      ensures Core(sync.db.config) - MEMORY == Core(old(sync.db.config)) - MEMORY
      ensures sync.sys == old(sync.sys).(config := sync.db.config, pcs := sync.sys.pcs)
    {
      hide Ongoing, Remembers, Diff, Intelligence.Normalized;
      ghost var core, value := Core(sync.db.config), codec.hardware(hardware);
      var stored, marked;
      stored, marked, trace := StoreSnapshot(start, run, payload, codec.hardware(hardware), fingerprint);
      kept := marked;
      e := Emission(hardware, changes, read, stored);
      SnapshotRemembered(codec, past, core, e, kept);
      PutInMemory(core, stored, InventoryHardware, value);
      PutInMemory(AfterPut(core, stored, InventoryHardware, value), kept, InventoryFingerprint, fingerprint);
      past := WithSnapshot(past, e, kept);
    }

    method StoreSnapshot(ghost start: State, ghost run: seq<Label>, ghost payload: Bytes, hardware: string,
                         fingerprint: string)
      returns (stored: bool, kept: bool, ghost trace: seq<Label>)
      requires Ongoing(sync, Inventory, start, run, Persisting(payload))
      requires fingerprint == sync.cfg.fingerprint(payload)
      modifies sync`sys, sync.db`config, sync.db`faults
      ensures Ongoing(sync, Inventory, start, trace, Idle) && sync.db.faults >= old(sync.db.faults)
      ensures sync.db.faults == old(sync.db.faults) <==> stored && kept
      ensures Core(sync.db.config) ==
              AfterPut(AfterPut(Core(old(sync.db.config)), stored, InventoryHardware, hardware),
                       kept, InventoryFingerprint, fingerprint)
      ensures sync.sys == old(sync.sys).(config := sync.db.config, pcs := sync.sys.pcs)
    {
      hide Ongoing, Core;
      stored, trace := Store(sync, Inventory, start, run, Persisting(payload), InventoryHardware, hardware);
      kept, trace := StoreFingerprint(sync, Inventory, start, trace, payload, InventoryFingerprint, fingerprint);
    }

    /** The stored timeline, or an empty one, with one more entry, cut to the last 50. */
    method NextTimeline(event: Event) returns (timeline: seq<Event>, readable: bool)
      requires Faithful(codec) && RemembersTimeline(codec, past, Core(sync.db.config))
      modifies sync.db`faults
      ensures sync.db.faults == if readable then old(sync.db.faults) else old(sync.db.faults) + 1
      ensures readable && past.intact ==> timeline == LastFifty(past.events + [event])
    {
      timeline := [];
      var value;
      readable, value := sync.db.Get(InventoryTimeline);
      if value.Some? {
        var decoded := codec.parseTimeline(value.value);
        if decoded.Some? { timeline := decoded.value; }
      }
      assert readable && past.intact ==> timeline == LastFifty(past.events);
      timeline := timeline + [event];
      if |timeline| > TIMELINE { timeline := timeline[|timeline| - TIMELINE..]; }
      LastFiftyAppends(past.events, event);
    }

    method PersistTimeline(ghost start: State, ghost run: seq<Label>, event: Event) returns (ghost trace: seq<Label>)
      requires Ongoing(sync, Inventory, start, run, Idle) && Faithful(codec)
      requires Remembers(codec, past, Core(sync.db.config))
      modifies this`past, sync`sys, sync.db`config, sync.db`faults
      ensures Ongoing(sync, Inventory, start, trace, Idle) && sync.db.faults >= old(sync.db.faults)
      ensures Remembers(codec, past, Core(sync.db.config))
      ensures sync.db.faults == old(sync.db.faults) ==>
                past.intact == old(past.intact) && Holds(sync.db.config, "last_changes", codec.changes(event.changes))
      ensures past == old(past).(events := old(past.events) + [event], intact := past.intact)
      ensures past.intact ==> old(past.intact)
      ensures Core(sync.db.config) - MEMORY == Core(old(sync.db.config)) - MEMORY
      ensures sync.sys == old(sync.sys).(config := sync.db.config)
    {
      ghost var core := Core(sync.db.config);
      var timeline, readable := NextTimeline(event);
      var value := codec.timeline(timeline);
      var ok;
      ok, trace := StoreTimeline(start, run, value, codec.changes(event.changes));
      TimelineRemembered(codec, past, core, event, timeline, readable, ok);
      PutInMemory(core, ok, InventoryTimeline, value);
      past := past.(events := past.events + [event], intact := past.intact && readable && ok);
    }

    method StoreTimeline(ghost start: State, ghost run: seq<Label>, timeline: string, changes: string)
      returns (ok: bool, ghost trace: seq<Label>)
      requires Ongoing(sync, Inventory, start, run, Idle)
      modifies sync`sys, sync.db`config, sync.db`faults
      ensures Ongoing(sync, Inventory, start, trace, Idle) && sync.db.faults >= old(sync.db.faults)
      ensures sync.db.faults == old(sync.db.faults) ==> ok && Holds(sync.db.config, "last_changes", changes)
      ensures Core(sync.db.config) == AfterPut(Core(old(sync.db.config)), ok, InventoryTimeline, timeline)
      ensures sync.sys == old(sync.sys).(config := sync.db.config)
    {
      ok, trace := Store(sync, Inventory, start, run, Idle, InventoryTimeline, timeline);
      trace := Note(sync, Inventory, start, trace, Idle, InventoryNote("last_changes"), changes);
    }

    // -------------------------------------------------------------- one run

    /** Stores what a send calls for: the snapshot when it was handed over, a timeline entry when it
        was acknowledged, and notes. */
    method Conclude(ghost start: State, ghost run: seq<Label>, ghost body: Bytes, hardware: Snapshot,
                    fingerprint: string, changes: seq<Change>, ghost read: bool, sendErr: Option<SyncError>,
                    f: Figures)
      returns (result: RunResult, ghost trace: seq<Label>)
      requires Ongoing(sync, Inventory, start, run,
                       if sendErr.None? || IsQueued(sendErr) then Persisting(body) else Idle)
      requires fingerprint == sync.cfg.fingerprint(body) == Fingerprint(codec, hardware) && Faithful(codec)
      requires Remembers(codec, past, Core(sync.db.config))
      requires changes == Diff(Base(past.history, read), hardware)
      modifies this`past, sync`sys, sync.db`config, sync.db`faults
      ensures Ongoing(sync, Inventory, start, trace, Idle) && sync.db.faults >= old(sync.db.faults)
      ensures Remembers(codec, past, Core(sync.db.config))
      ensures result == ResultOf(sendErr)
      ensures Advances(old(past), past, result, hardware, changes, Event(f.time, fingerprint, changes),
                       read && sync.db.faults == old(sync.db.faults))
      ensures sync.db.faults == old(sync.db.faults) ==> Noted(sync.db.config, result, f, codec.changes(changes))
      ensures Core(sync.db.config) - MEMORY == Core(old(sync.db.config)) - MEMORY
      ensures sync.sys == old(sync.sys).(config := sync.db.config, pcs := sync.sys.pcs)
    {
      hide Ongoing, Remembers, Diff, Intelligence.Normalized, Core;
      trace := run;
      if sendErr.Some? && !IsQueued(sendErr) {
        trace := PersistFailure(start, trace, f);
        return Failed, trace;
      }
      ghost var e, kept;
      trace, e, kept := PersistSnapshot(start, trace, body, hardware, fingerprint, changes, read);
      if sendErr.Some? {
        trace := PersistFailure(start, trace, f);
        return Queued, trace;
      }
      trace := PersistTimeline(start, trace, Event(f.time, fingerprint, changes));
      trace := PersistSuccess(start, trace, f);
      return Sent, trace;
    }

    /** The stored hardware, decoded; None when there is none or it cannot be read. */
    method ReadPrevious() returns (previous: Option<Collected>, ghost readable: bool)
      requires Faithful(codec) && RemembersLast(codec, past, Core(sync.db.config))
      modifies sync.db`faults
      ensures sync.db.faults == if readable then old(sync.db.faults) else old(sync.db.faults) + 1
      ensures previous.None? <==> Base(past.history, readable).None?
      ensures previous.Some? ==> View(previous.value) == Base(past.history, readable).value
    {
      previous := None;
      var ok, value := sync.db.Get(InventoryHardware);
      readable := ok;
      if value.Some? && value.value != "" {
        var decoded := codec.parse(value.value);
        if decoded.Some? {
          var built := Build(decoded.value);
          previous := Some(built);
        }
      }
    }

    /** Sends a snapshot whose fingerprint is not the stored one, and stores what is due. */
    method Upload(ghost start: State, ghost run: seq<Label>, ghost drained: bool, ghost readable: bool,
                  payload: Payload, ghost read: bool, cancelled: bool, f: Figures, sizes: nat -> nat)
      returns (result: RunResult, ghost trace: seq<Label>, ghost live: seq<Offer>)
      requires Ongoing(sync, Inventory, start, run, Flushed(drained)) && sync.cfg.engine(Inventory) !in start.holders
      requires Agrees(sync.cfg, codec) && Remembers(codec, past, Core(sync.db.config)) && (forall i :: sizes(i) > 0)
      requires IsOwn(codec, payload)
      requires payload.changes == Diff(Base(past.history, read), payload.hardware)
      requires !readable || !Stores(Core(sync.db.config), InventoryFingerprint, Some(payload.fingerprint))
      modifies this`past, sync`sys, sync.client, sync.db
      ensures Ongoing(sync, Inventory, start, trace, Idle) && sync.db.faults >= old(sync.db.faults)
      ensures Remembers(codec, past, Core(sync.db.config)) && !result.Skipped?
      ensures sync.client.offers == old(sync.client.offers) + live
      ensures Transmits(sync.client.crypto, old(sync.db.config), "/api/agent/inventory", codec.encode(payload), live)
      ensures HandedOver(InventoryType, codec.encode(payload), old(sync.sys), result, sync.sys)
      ensures EndsRight(true, false, old(sync.db.config), cancelled, sync.db.faults == old(sync.db.faults), live,
                        result)
      ensures Advances(old(past), past, result, payload.hardware, payload.changes,
                       Event(f.time, payload.fingerprint, payload.changes),
                       read && sync.db.faults == old(sync.db.faults))
      ensures sync.db.faults == old(sync.db.faults) ==> Noted(sync.db.config, result, f, codec.changes(payload.changes))
      ensures Core(sync.db.config) - MEMORY == Core(old(sync.db.config)) - MEMORY
    {
      hide Remembers, Diff, Intelligence.Normalized, SyncEngine.Engine.Valid, Reachable, Run, Agrees, Transmits;
      hide EndsRight, SendEndsRight, Advances, Noted, NextId;
      AgreesOn(sync.cfg, codec, payload);
      var body := codec.encode(payload);
      trace := Judge(sync, Inventory, start, run, drained, body, readable);
      result, trace, live := Transfer(start, trace, drained, body, payload, read, cancelled, f, sizes);
    }

    /** Sends the encoded payload, and stores what is due. */
    method Transfer(ghost start: State, ghost run: seq<Label>, ghost drained: bool, body: Bytes, payload: Payload,
                    ghost read: bool, cancelled: bool, f: Figures, sizes: nat -> nat)
      returns (result: RunResult, ghost trace: seq<Label>, ghost live: seq<Offer>)
      requires Ongoing(sync, Inventory, start, run, Ready(body, drained))
      requires sync.cfg.engine(Inventory) !in start.holders
      requires Faithful(codec) && Remembers(codec, past, Core(sync.db.config)) && (forall i :: sizes(i) > 0)
      requires payload.fingerprint == sync.cfg.fingerprint(body) == Fingerprint(codec, payload.hardware)
      requires payload.changes == Diff(Base(past.history, read), payload.hardware)
      modifies this`past, sync`sys, sync.client, sync.db
      ensures Ongoing(sync, Inventory, start, trace, Idle) && sync.db.faults >= old(sync.db.faults)
      ensures Remembers(codec, past, Core(sync.db.config)) && !result.Skipped?
      ensures sync.client.offers == old(sync.client.offers) + live
      ensures Transmits(sync.client.crypto, old(sync.db.config), "/api/agent/inventory", body, live)
      ensures HandedOver(InventoryType, body, old(sync.sys), result, sync.sys)
      ensures EndsRight(true, false, old(sync.db.config), cancelled, sync.db.faults == old(sync.db.faults), live,
                        result)
      ensures Advances(old(past), past, result, payload.hardware, payload.changes,
                       Event(f.time, payload.fingerprint, payload.changes),
                       read && sync.db.faults == old(sync.db.faults))
      ensures sync.db.faults == old(sync.db.faults) ==> Noted(sync.db.config, result, f, codec.changes(payload.changes))
      ensures Core(sync.db.config) - MEMORY == Core(old(sync.db.config)) - MEMORY
    {
      hide Remembers, Diff, Intelligence.Normalized, Ongoing, Faithful, Transmits;
      hide EndsRight, SendEndsRight, Advances, Noted, NextId, Core;
      ghost var before := sync.db.config;
      var sendErr;
      sendErr, trace, live := Send(sync, Inventory, start, run, drained, "/api/agent/inventory", InventoryType, body,
                                   cancelled, sizes);
      ghost var sent := sync.db.faults;
      SendEndsRun(before, cancelled, live, sendErr, sent == old(sync.db.faults), false);
      result, trace := Conclude(start, trace, body, payload.hardware, payload.fingerprint, payload.changes,
                                read, sendErr, f);
      AdvancesLater(old(past), past, result, payload.hardware, payload.changes,
                    Event(f.time, payload.fingerprint, payload.changes), read && sync.db.faults == sent);
    }

    /** Skips the snapshot on the stored fingerprint; otherwise does nothing. */
    method TrySkip(ghost start: State, ghost run: seq<Label>, ghost drained: bool, ghost body: Bytes,
                   fingerprint: string, now: string)
      returns (skipped: bool, ghost readable: bool, ghost trace: seq<Label>)
      requires Ongoing(sync, Inventory, start, run, Flushed(drained))
      requires sync.cfg.fingerprint(body) == fingerprint != "" && sync.cfg.genuine(Inventory, body)
      modifies sync`sys, sync.db`config, sync.db`faults
      ensures Ongoing(sync, Inventory, start, trace, if skipped then Idle else Flushed(drained))
      ensures Core(sync.db.config) == Core(old(sync.db.config)) && sync.db.faults >= old(sync.db.faults)
      ensures sync.sys == old(sync.sys).(config := sync.db.config, pcs := sync.sys.pcs)
      ensures skipped <==> readable && Stores(old(sync.db.config), InventoryFingerprint, Some(fingerprint))
      ensures !skipped ==> sync.db.config == old(sync.db.config)
      ensures sync.db.faults == old(sync.db.faults) ==>
                readable && (skipped ==> Holds(sync.db.config, "last_checked", now))
    {
      hide Run, Reachable, SingleEngine;
      var ok, previous := sync.db.Get(InventoryFingerprint);
      readable, trace := ok, run;
      skipped := (if previous.Some? then previous.value else "") == fingerprint;
      if skipped {
        trace := Judge(sync, Inventory, start, run, drained, body, readable);
        trace := Note(sync, Inventory, start, trace, Idle, InventoryNote("last_checked"), now);
      }
    }

    method FingerprintOf(machine: Snapshot) returns (fingerprint: string)
      ensures fingerprint == Fingerprint(codec, machine)
    {
      var hardware := Build(machine);
      var normal := Intelligence.NormalizedHardware(hardware);
      fingerprint := codec.digest(codec.hardware(View(normal)));
    }

    /** The changes since the stored hardware, and whether it could be read. */
    method ChangesIn(machine: Snapshot) returns (changes: seq<Change>, ghost readable: bool)
      requires Faithful(codec) && RemembersLast(codec, past, Core(sync.db.config))
      modifies sync.db`faults
      ensures sync.db.faults == if readable then old(sync.db.faults) else old(sync.db.faults) + 1
      ensures changes == Diff(Base(past.history, readable), machine)
    {
      hide Faithful, RemembersLast, Diff;
      var hardware := Build(machine);
      var previousHardware;
      previousHardware, readable := ReadPrevious();
      changes := DiffHardware(previousHardware, hardware);
    }

    /** Completes the payload with the changes since the stored hardware, and uploads it. */
    method UploadChanges(ghost start: State, ghost run: seq<Label>, ghost drained: bool, ghost readable: bool,
                         draft: Payload, cancelled: bool, f: Figures, sizes: nat -> nat)
      returns (result: RunResult, payload: Payload, ghost trace: seq<Label>, ghost live: seq<Offer>)
      requires Ongoing(sync, Inventory, start, run, Flushed(drained)) && sync.cfg.engine(Inventory) !in start.holders
      requires Agrees(sync.cfg, codec) && Remembers(codec, past, Core(sync.db.config)) && (forall i :: sizes(i) > 0)
      requires IsOwn(codec, draft)
      requires !readable || !Stores(Core(sync.db.config), InventoryFingerprint, Some(draft.fingerprint))
      modifies this`past, sync`sys, sync.client, sync.db
      ensures Ongoing(sync, Inventory, start, trace, Idle) && sync.db.faults >= old(sync.db.faults)
      ensures Remembers(codec, past, Core(sync.db.config)) && !result.Skipped?
      ensures payload == draft.(changes := payload.changes)
      ensures ListsChanges(old(past), payload, sync.db.faults == old(sync.db.faults))
      ensures sync.client.offers == old(sync.client.offers) + live
      ensures Transmits(sync.client.crypto, old(sync.db.config), "/api/agent/inventory", codec.encode(payload), live)
      ensures HandedOver(InventoryType, codec.encode(payload), old(sync.sys), result, sync.sys)
      ensures EndsRight(true, false, old(sync.db.config), cancelled, sync.db.faults == old(sync.db.faults), live,
                        result)
      ensures Advances(old(past), past, result, payload.hardware, payload.changes,
                       Event(f.time, payload.fingerprint, payload.changes), sync.db.faults == old(sync.db.faults))
      ensures sync.db.faults == old(sync.db.faults) ==> Noted(sync.db.config, result, f, codec.changes(payload.changes))
      ensures Core(sync.db.config) - MEMORY == Core(old(sync.db.config)) - MEMORY
    {
      hide RemembersTimeline, Diff, Intelligence.Normalized, Ongoing, Transmits, Faithful;
      hide EndsRight, SendEndsRight, Advances, Noted, NextId, Core, Chained, LastStored;
      ghost var before := sync.db.config;
      AgreesFaithful(sync.cfg, codec);
      var changes;
      ghost var found;
      changes, found := ChangesIn(draft.hardware);
      ghost var faults := sync.db.faults;
      payload := draft.(changes := changes);
      result, trace, live := Upload(start, run, drained, readable, payload, found, cancelled, f, sizes);
      EndsRightLater(true, false, before, cancelled, sync.db.faults == faults, live, result);
      AdvancesLater(old(past), past, result, payload.hardware, payload.changes,
                    Event(f.time, payload.fingerprint, payload.changes), found && sync.db.faults == faults);
    }

    /** Compares the snapshot with the stored fingerprint, and uploads it when they differ. */
    method Examine(ghost start: State, ghost run: seq<Label>, ghost drained: bool, agentUuid: string, hostname: string,
                   machine: Snapshot, extra: string, cancelled: bool, f: Figures, sizes: nat -> nat)
      returns (result: RunResult, payload: Payload, ghost trace: seq<Label>, ghost live: seq<Offer>)
      requires Ongoing(sync, Inventory, start, run, Flushed(drained)) && sync.cfg.engine(Inventory) !in start.holders
      requires Agrees(sync.cfg, codec) && Remembers(codec, past, Core(sync.db.config)) && (forall i :: sizes(i) > 0)
      modifies this`past, sync`sys, sync.client, sync.db
      ensures Ongoing(sync, Inventory, start, trace, Idle) && sync.db.faults >= old(sync.db.faults)
      ensures Remembers(codec, past, Core(sync.db.config)) && IsOwn(codec, payload)
      ensures payload.agentUuid == agentUuid && payload.hostname == hostname
      ensures payload.hardware == machine && payload.extra == extra
      ensures !result.Skipped? ==> ListsChanges(old(past), payload, sync.db.faults == old(sync.db.faults))
      ensures sync.client.offers == old(sync.client.offers) + live
      ensures Transmits(sync.client.crypto, old(sync.db.config), "/api/agent/inventory", codec.encode(payload), live)
      ensures HandedOver(InventoryType, codec.encode(payload), old(sync.sys), result, sync.sys)
      ensures EndsRight(true, Stores(old(sync.db.config), InventoryFingerprint, Some(payload.fingerprint)),
                        old(sync.db.config), cancelled, sync.db.faults == old(sync.db.faults), live, result)
      ensures result.Skipped? ==> Stores(Core(sync.db.config), InventoryFingerprint, Some(payload.fingerprint))
      ensures Advances(old(past), past, result, payload.hardware, payload.changes,
                       Event(f.time, payload.fingerprint, payload.changes), sync.db.faults == old(sync.db.faults))
      ensures sync.db.faults == old(sync.db.faults) ==> Noted(sync.db.config, result, f, codec.changes(payload.changes))
      ensures Core(sync.db.config) - MEMORY == Core(old(sync.db.config)) - MEMORY
    {
      hide Ongoing, Remembers, Diff, Intelligence.Normalized, Agrees, Transmits, Fingerprint;
      hide EndsRight, SendEndsRight, NextId, Core, LastStored, ListsChanges;
      ghost var before := sync.db.config;
      var fingerprint := FingerprintOf(machine);
      payload, live := Payload(agentUuid, hostname, fingerprint, [], machine, extra), [];
      AgreesOn(sync.cfg, codec, payload);
      StoresCore(before, InventoryFingerprint, fingerprint);
      var skipped;
      ghost var readable;
      skipped, readable, trace := TrySkip(start, run, drained, codec.encode(payload), fingerprint, f.time);
      if skipped {
        NothingSent(sync.client.crypto, before, "/api/agent/inventory", codec.encode(payload));
        KnownIsSkipped(before, cancelled);
        return RunResult.Skipped, payload, trace, live;
      }
      ghost var faults := sync.db.faults;
      result, payload, trace, live := UploadChanges(start, trace, drained, readable, payload, cancelled, f, sizes);
      UnknownEndsRight(before, cancelled, sync.db.faults == faults, live, result,
                       Stores(before, InventoryFingerprint, Some(payload.fingerprint)));
      AdvancesLater(old(past), past, result, payload.hardware, payload.changes,
                    Event(f.time, payload.fingerprint, payload.changes), sync.db.faults == faults);
      ListsChangesLater(old(past), payload, sync.db.faults == faults);
    }

    /** `machine` and `hostname` are None when they cannot be obtained. `cancelled`: the context is
        cancelled before the run; `cancelledLater`: by the time a failed payload would be queued. */
    method RunOnce(hostname: Option<string>, machine: Option<Snapshot>, extra: string, cancelled: bool,
                   cancelledLater: bool, f: Figures, sizes: nat -> nat)
      returns (result: RunResult, ghost payload: Payload, ghost story: Story, ghost trace: seq<Label>)
      requires AtRest(sync, Inventory) && Agrees(sync.cfg, codec) && (forall i :: sizes(i) > 0)
      requires Remembers(codec, past, Core(sync.db.config))
      modifies this`past, sync`sys, sync.client, sync.db
      ensures AtRest(sync, Inventory) && Run(sync.cfg, old(sync.sys), trace) == Some(sync.sys)
      ensures sync.sys.pcs == old(sync.sys.pcs) && sync.sys.holders == old(sync.sys.holders)
      ensures cancelled ==> sync.sys == old(sync.sys) && sync.client.offers == old(sync.client.offers)
      ensures !cancelled ==>
                && sync.client.offers == old(sync.client.offers) + story.replays + story.live
                && Delivered(sync.client.crypto, "/api/agent/inventory", InventoryType, old(sync.sys), result,
                             codec.encode(payload), story, sync.sys, sync.db.faults == old(sync.db.faults))
                && (sync.db.faults == old(sync.db.faults) ==>
                      Noted(sync.db.config, result, f, codec.changes(payload.changes)))
      // without failed statements it is skipped exactly on the stored fingerprint
      ensures EndsRight(!cancelled && IsReady(old(sync.db.config), hostname, machine),
                        Stores(old(sync.db.config), InventoryFingerprint, Some(payload.fingerprint)),
                        old(sync.db.config), cancelledLater, sync.db.faults == old(sync.db.faults), story.live, result)
      ensures !cancelled && IsReady(old(sync.db.config), hostname, machine) && sync.db.faults == old(sync.db.faults) ==>
                Describes(codec, old(sync.db.config), hostname, machine, extra, payload)
      ensures result != Failed || story.live != [] ==>
                && Describes(codec, old(sync.db.config), hostname, machine, extra, payload)
                && (!result.Skipped? ==> ListsChanges(old(past), payload, sync.db.faults == old(sync.db.faults)))
      ensures Remembers(codec, past, Core(sync.db.config))
      ensures Advances(old(past), past, result, payload.hardware, payload.changes,
                       Event(f.time, payload.fingerprint, payload.changes), sync.db.faults == old(sync.db.faults))
      ensures Core(sync.db.config) - MEMORY == Core(old(sync.db.config)) - MEMORY
      // a skipped run hides no undelivered snapshot
      ensures result.Skipped? && MakesOnlyOwn(sync.cfg, codec) && NoCollision(codec) ==>
                SnapshotIsSafe(codec, sync.sys, payload.hardware)
    {
      hide Run, Ongoing, AtRest, Remembers, Diff, Opens, Transmits, EndsRight, Core, Advances, Describes;
      hide Agrees, Fingerprint, LastStored, ListsChanges, NextId, Noted, MakesOnlyOwn, NoCollision, IsReady;
      NothingDone(sync, Inventory);
      ghost var start, drained, before := sync.sys, false, sync.db.config;
      trace, story := [], Story(0, false, [], [], sync.sys, []);
      payload := *;
      if cancelled {
        NeverReady(false, before, cancelledLater, true);
        NothingAdvances(past, payload.hardware, payload.changes, Event(f.time, payload.fingerprint, payload.changes));
        result := Failed;
        return;
      }
      var n;
      n, trace, drained, story := Open(sync, Inventory, sizes);
      ghost var flushed := sync.db.faults;
      ghost var live;
      result, payload, trace, live := Inspect(start, trace, drained, hostname, machine, extra, cancelledLater, f,
                                              sizes);
      OpensStill(sync.client.crypto, start, story, flushed == old(sync.db.faults), live);
      story := story.(live := live);
      EndsRightLater(IsReady(before, hostname, machine),
                     Stores(before, InventoryFingerprint, Some(payload.fingerprint)), before,
                     cancelledLater, sync.db.faults == flushed, live, result);
      AdvancesLater(old(past), past, result, payload.hardware, payload.changes,
                    Event(f.time, payload.fingerprint, payload.changes), sync.db.faults == flushed);
      if !result.Skipped? && (result != Failed || live != []) {
        ListsChangesLater(old(past), payload, sync.db.faults == flushed);
      }
      BackAtRest(sync, Inventory, start, trace);
      if result.Skipped? && MakesOnlyOwn(sync.cfg, codec) && NoCollision(codec) {
        DescribesOwn(codec, before, hostname, machine, extra, payload);
        SkippedAtRest(sync, codec, payload.hardware);
      }
    }

    method NameMachine(machine: Snapshot, hostname: string) returns (named: Snapshot)
      ensures named == Named(machine, hostname)
    {
      named := machine;
      if named.general.computerName == "" {
        named := named.(general := named.general.(computerName := hostname));
      }
    }

    /** The run ends without a payload. */
    method Fail(ghost start: State, ghost run: seq<Label>, ghost drained: bool, f: Figures)
      returns (ghost trace: seq<Label>)
      requires Ongoing(sync, Inventory, start, run, Flushed(drained))
      modifies sync`sys, sync.db`config, sync.db`faults
      ensures Ongoing(sync, Inventory, start, trace, Idle) && sync.db.faults >= old(sync.db.faults)
      ensures Core(sync.db.config) == Core(old(sync.db.config))
      ensures sync.db.faults == old(sync.db.faults) ==> forall changes :: Noted(sync.db.config, Failed, f, changes)
      ensures sync.sys == old(sync.sys).(config := sync.db.config, pcs := sync.sys.pcs)
    {
      hide Ongoing, Core;
      trace := GiveUp(sync, Inventory, start, run, drained);
      trace := PersistFailure(start, trace, f);
      NotedFailure(sync.db.config, f);
    }

    /** The run after its opening pass. */
    method Inspect(ghost start: State, ghost run: seq<Label>, ghost drained: bool, hostname: Option<string>,
                   machine: Option<Snapshot>, extra: string, cancelled: bool, f: Figures, sizes: nat -> nat)
      returns (result: RunResult, ghost payload: Payload, ghost trace: seq<Label>, ghost live: seq<Offer>)
      requires Ongoing(sync, Inventory, start, run, Flushed(drained)) && sync.cfg.engine(Inventory) !in start.holders
      requires Agrees(sync.cfg, codec) && Remembers(codec, past, Core(sync.db.config)) && (forall i :: sizes(i) > 0)
      modifies this`past, sync`sys, sync.client, sync.db
      ensures Ongoing(sync, Inventory, start, trace, Idle) && sync.db.faults >= old(sync.db.faults)
      ensures Remembers(codec, past, Core(sync.db.config))
      ensures sync.client.offers == old(sync.client.offers) + live
      ensures Transmits(sync.client.crypto, old(sync.db.config), "/api/agent/inventory", codec.encode(payload), live)
      ensures HandedOver(InventoryType, codec.encode(payload), old(sync.sys), result, sync.sys)
      ensures EndsRight(IsReady(old(sync.db.config), hostname, machine),
                        Stores(old(sync.db.config), InventoryFingerprint, Some(payload.fingerprint)),
                        old(sync.db.config), cancelled, sync.db.faults == old(sync.db.faults), live, result)
      ensures IsReady(old(sync.db.config), hostname, machine) && sync.db.faults == old(sync.db.faults) ==>
                Describes(codec, old(sync.db.config), hostname, machine, extra, payload)
      ensures result != Failed || live != [] ==>
                && Describes(codec, old(sync.db.config), hostname, machine, extra, payload)
                && (!result.Skipped? ==> ListsChanges(old(past), payload, sync.db.faults == old(sync.db.faults)))
      ensures result.Skipped? ==> Stores(Core(sync.db.config), InventoryFingerprint, Some(payload.fingerprint))
      ensures Advances(old(past), past, result, payload.hardware, payload.changes,
                       Event(f.time, payload.fingerprint, payload.changes), sync.db.faults == old(sync.db.faults))
      ensures sync.db.faults == old(sync.db.faults) ==> Noted(sync.db.config, result, f, codec.changes(payload.changes))
      ensures Core(sync.db.config) - MEMORY == Core(old(sync.db.config)) - MEMORY
    {
      hide Ongoing, Remembers, Diff, Transmits, EndsRight, Core, Agrees, Fingerprint, LastStored, ListsChanges;
      hide NextId, Noted, Advances, Named, Stores;
      ghost var before := sync.db.config;
      payload, live := *, [];
      var ok, agentUuid := sync.db.Get(AgentUuid);
      if !ok || agentUuid.None? || agentUuid.value == "" || hostname.None? || machine.None? {
        trace := Fail(start, run, drained, f);
        result := Failed;
        NothingSent(sync.client.crypto, before, "/api/agent/inventory", codec.encode(payload));
        NeverReady(IsReady(before, hostname, machine), before, cancelled, sync.db.faults == old(sync.db.faults));
        NothingAdvances(past, payload.hardware, payload.changes, Event(f.time, payload.fingerprint, payload.changes));
      } else {
        var named := NameMachine(machine.value, hostname.value);
        result, payload, trace, live := Examine(start, run, drained, agentUuid.value, hostname.value, named, extra,
                                                cancelled, f, sizes);
      }
    }
  }

  lemma NothingAdvances(past: Past, hardware: Snapshot, changes: seq<Change>, event: Event)
    ensures forall faultless :: Advances(past, past, Failed, hardware, changes, event, faultless)
  {
  }

  lemma DescribesOwn(c: Codec, config: map<Key, string>, hostname: Option<string>, machine: Option<Snapshot>,
                     extra: string, payload: Payload)
    requires Describes(c, config, hostname, machine, extra, payload)
    ensures payload.fingerprint == Fingerprint(c, payload.hardware)
  {
  }

  lemma StoresCore(config: map<Key, string>, key: Key, value: string)
    requires !IsNote(key)
    ensures Stores(Core(config), key, Some(value)) <==> Stores(config, key, Some(value))
  {
  }

  lemma ListsChangesLater(past: Past, payload: Payload, faultless: bool)
    requires ListsChanges(past, payload, faultless)
    ensures ListsChanges(past, payload, false)
  {
  }

  lemma NotedFailure(config: map<Key, string>, f: Figures)
    ensures forall changes :: Noted(config, Failed, f, changes) <==> Figured(config, f, f.reason)
  {
  }

  lemma SkippedAtRest(e: SyncEngine.Engine, c: Codec, h: Snapshot)
    requires AtRest(e, Inventory) && Agrees(e.cfg, c) && MakesOnlyOwn(e.cfg, c) && NoCollision(c)
    requires Stores(Core(e.db.config), InventoryFingerprint, Some(Fingerprint(c, h)))
    ensures SnapshotIsSafe(c, e.sys, h)
  {
    StoredSnapshotIsSafe(e.cfg, c, e.sys, h);
  }

  /** The producer on a new database. */
  method Create(crypto: Signing.Crypto, db: Storage.Database, codec: Codec, ghost cfg: Config) returns (e: Engine)
    requires db.queue == map[] && db.config == map[] && db.tickets == 0 && SingleEngine(cfg)
    ensures AtRest(e.sync, Inventory) && e.sync.db == db && e.sync.cfg == cfg && e.codec == codec
    ensures Remembers(codec, e.past, Core(db.config)) && e.past == Past([], None, [], true)
  {
    var sync := SyncEngine.Create(crypto, db, cfg);
    NothingToRemember(codec, Core(db.config));
    e := new Engine(sync, codec, Past([], None, [], true));
  }

  /** The service starts again: nothing handed over is forgotten. */
  method Reopen(crypto: Signing.Crypto, e: Engine) returns (e': Engine)
    requires e.sync.Valid() && Remembers(e.codec, e.past, Core(e.sync.db.config))
    ensures e'.sync.db == e.sync.db && e'.sync.cfg == e.sync.cfg && e'.sync.sys == Restarted(e.sync.sys)
    ensures e'.codec == e.codec && e'.past == e.past
    ensures AtRest(e'.sync, Inventory) && Remembers(e'.codec, e'.past, Core(e'.sync.db.config))
  {
    var sync := SyncEngine.Reopen(crypto, e.sync);
    e' := new Engine(sync, e.codec, e.past);
  }
}
