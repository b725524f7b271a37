/** The heartbeat producer: replay the queue, then send a fresh liveness payload. */
module HeartbeatEngine {
  import opened Common
  import opened Protocol
  import opened SyncEngine
  import opened Producing
  import opened HttpClient

  /** What the JSON of a heartbeat is made of; `metrics` stands for everything measured. */
  datatype Payload = Payload(agentUuid: string, hostname: string, metrics: string)

  /** What a run notes down, as text; `reason` is the message of the error, if there is one. */
  datatype Figures = Figures(time: string, latency: string, health: string,
                             cpu: string, memory: string, disk: string, reason: string)

  /** Encoded payloads are among those the producer makes. */
  ghost predicate Agrees(cfg: Config, encode: Payload -> Bytes) {
    forall p: Payload :: cfg.genuine(Heartbeat, encode(p))
  }

  class Engine {
    const sync: SyncEngine.Engine
    const encode: Payload -> Bytes

    constructor (sync: SyncEngine.Engine, encode: Payload -> Bytes)
      ensures this.sync == sync && this.encode == encode
    {
      this.sync, this.encode := sync, encode;
    }

    /** The payload, or None when there is none: the UUID unreadable or missing, or no host name. */
    method Collect(hostname: Option<string>, metrics: string) returns (payload: Option<Payload>)
      modifies sync.db`faults
      ensures sync.db.faults >= old(sync.db.faults)
      ensures payload.Some? <==> IsReady(sync.db.config, hostname) && sync.db.faults == old(sync.db.faults)
      ensures payload.Some? ==> payload.value == Payload(sync.db.config[AgentUuid], hostname.value, metrics)
    {
      var ok, agentUuid := sync.db.Get(AgentUuid);
      if !ok || agentUuid.None? || agentUuid.value == "" || hostname.None? { return None; }
      return Some(Payload(agentUuid.value, hostname.value, metrics));
    }

    /** `cancelled`: the context is cancelled by the time a failed payload would be queued. */
    method Send(hostname: Option<string>, metrics: string, cancelled: bool, f: Figures, sizes: nat -> nat)
      returns (result: RunResult, sent: nat, ghost payload: Bytes, ghost story: Story, ghost trace: seq<Label>)
      requires AtRest(sync, Heartbeat) && Agrees(sync.cfg, encode) && (forall i :: sizes(i) > 0)
      modifies sync`sys, sync.client, sync.db
      ensures AtRest(sync, Heartbeat) && Run(sync.cfg, old(sync.sys), trace) == Some(sync.sys)
      ensures sync.sys.pcs == old(sync.sys.pcs) && sync.sys.holders == old(sync.sys.holders)
      ensures sync.client.offers == old(sync.client.offers) + story.replays + story.live && sent == story.sent
      ensures Delivered(sync.client.crypto, "/api/agent/heartbeat", HeartbeatType, old(sync.sys), result, payload,
                        story, sync.sys, sync.db.faults == old(sync.db.faults))
      ensures EndsRight(IsReady(old(sync.db.config), hostname), false, old(sync.db.config), cancelled,
                        sync.db.faults == old(sync.db.faults), story.live, result)
      ensures result != Failed || story.live != [] ==>
                payload == encode(Payload(old(sync.db.config)[AgentUuid], hostname.value, metrics))
      ensures Core(sync.db.config) == Core(old(sync.db.config))
      ensures sync.db.faults == old(sync.db.faults) ==> Noted(sync.db.config, result, f)
    {
      hide Run, Ongoing, AtRest, Opens, Transmits, SendEndsRight, EndsRight, Noted, Core;
      NothingDone(sync, Heartbeat);
      ghost var start, drained, before := sync.sys, false, sync.db.config;
      sent, trace, drained, story := Open(sync, Heartbeat, sizes);
      ghost var flushed := sync.db.faults;
      var collected := Collect(hostname, metrics);
      payload := "";
      if collected.None? {
        trace := GiveUp(sync, Heartbeat, start, trace, drained);
        trace := PersistFailure(start, trace, f.reason);
        result := Failed;
        OpensStill(sync.client.crypto, start, story, flushed == old(sync.db.faults), []);
        NothingSent(sync.client.crypto, before, "/api/agent/heartbeat", payload);
        NeverReady(IsReady(before, hostname), before, cancelled, sync.db.faults == old(sync.db.faults));
        NotedFailure(sync.db.config, result, f);
      } else {
        var body := encode(collected.value);
        payload := body;
        trace := Judge(sync, Heartbeat, start, trace, drained, body, true);
        var sendErr;
        ghost var live, faults := [], sync.db.faults;
        sendErr, trace, live := Producing.Send(sync, Heartbeat, start, trace, drained, "/api/agent/heartbeat",
                                               HeartbeatType, body, cancelled, sizes);
        SendEndsRun(before, cancelled, live, sendErr, sync.db.faults == faults, false);
        result, trace := Conclude(start, trace, body, sendErr, f);
        OpensStill(sync.client.crypto, start, story, flushed == old(sync.db.faults), live);
        story := story.(live := live);
      }
      BackAtRest(sync, Heartbeat, start, trace);
    }

    method Conclude(ghost start: State, ghost run: seq<Label>, ghost payload: Bytes, sendErr: Option<SyncError>,
                    f: Figures)
      returns (result: RunResult, ghost trace: seq<Label>)
      requires Ongoing(sync, Heartbeat, start, run,
                       if sendErr.None? || IsQueued(sendErr) then Persisting(payload) else Idle)
      modifies sync`sys, sync.db`config, sync.db`faults
      ensures Ongoing(sync, Heartbeat, start, trace, Idle)
      ensures result == ResultOf(sendErr)
      ensures sync.db.faults >= old(sync.db.faults)
      ensures sync.db.faults == old(sync.db.faults) ==> Noted(sync.db.config, result, f)
      ensures Core(sync.db.config) == Core(old(sync.db.config))
      ensures sync.sys == old(sync.sys).(config := sync.db.config, pcs := sync.sys.pcs)
    {
      hide Core, Ongoing;
      trace := run;
      if sendErr.None? || IsQueued(sendErr) { trace := NothingToStore(sync, Heartbeat, start, trace, payload); }
      if sendErr.Some? {
        trace := PersistFailure(start, trace, f.reason);
        result := if IsQueued(sendErr) then Queued else Failed;
      } else {
        trace := PersistSuccess(start, trace, f);
        result := Sent;
      }
    }

    method PersistFailure(ghost start: State, ghost run: seq<Label>, reason: string) returns (ghost trace: seq<Label>)
      requires Ongoing(sync, Heartbeat, start, run, Idle)
      modifies sync`sys, sync.db`config, sync.db`faults
      ensures Ongoing(sync, Heartbeat, start, trace, Idle)
      ensures sync.db.faults >= old(sync.db.faults)
      ensures sync.db.faults == old(sync.db.faults) ==>
                sync.db.config == old(sync.db.config)[HeartbeatNote("last_error") := reason]
      ensures Core(sync.db.config) == Core(old(sync.db.config))
      ensures sync.sys == old(sync.sys).(config := sync.db.config)
    {
      trace := Note(sync, Heartbeat, start, run, Idle, HeartbeatNote("last_error"), reason);
    }

    /** Success time, latency, health and the three figures; a failed Put is ignored. */
    method PersistSuccess(ghost start: State, ghost run: seq<Label>, f: Figures) returns (ghost trace: seq<Label>)
      requires Ongoing(sync, Heartbeat, start, run, Idle)
      modifies sync`sys, sync.db`config, sync.db`faults
      ensures Ongoing(sync, Heartbeat, start, trace, Idle)
      ensures sync.db.faults >= old(sync.db.faults)
      ensures sync.db.faults == old(sync.db.faults) ==> Noted(sync.db.config, Sent, f)
      ensures Core(sync.db.config) == Core(old(sync.db.config))
      ensures sync.sys == old(sync.sys).(config := sync.db.config)
    {
      hide Ongoing, Core;
      trace := run;
      trace := Note(sync, Heartbeat, start, trace, Idle, HeartbeatNote("last_success"), f.time);
      trace := Note(sync, Heartbeat, start, trace, Idle, HeartbeatNote("last_latency_ms"), f.latency);
      trace := Note(sync, Heartbeat, start, trace, Idle, HeartbeatNote("last_health"), f.health);
      ghost var config := sync.db.config;
      trace := PersistMetrics(start, trace, f);
      if sync.db.faults == old(sync.db.faults) { MetricsAdded(config, f); }
    }

    method PersistMetrics(ghost start: State, ghost run: seq<Label>, f: Figures) returns (ghost trace: seq<Label>)
      requires Ongoing(sync, Heartbeat, start, run, Idle)
      modifies sync`sys, sync.db`config, sync.db`faults
      ensures Ongoing(sync, Heartbeat, start, trace, Idle)
      ensures sync.db.faults >= old(sync.db.faults)
      ensures sync.db.faults == old(sync.db.faults) ==> sync.db.config == WithMetrics(old(sync.db.config), f)
      ensures Core(sync.db.config) == Core(old(sync.db.config))
      ensures sync.sys == old(sync.sys).(config := sync.db.config)
    {
      hide Ongoing, Core;
      trace := run;
      trace := Note(sync, Heartbeat, start, trace, Idle, HeartbeatNote("last_cpu"), f.cpu);
      trace := Note(sync, Heartbeat, start, trace, Idle, HeartbeatNote("last_memory"), f.memory);
      trace := Note(sync, Heartbeat, start, trace, Idle, HeartbeatNote("last_disk"), f.disk);
      trace := Note(sync, Heartbeat, start, trace, Idle, HeartbeatNote("last_error"), "");
    }
  }

  function WithMetrics(config: map<Key, string>, f: Figures): map<Key, string> {
    config[HeartbeatNote("last_cpu") := f.cpu][HeartbeatNote("last_memory") := f.memory]
          [HeartbeatNote("last_disk") := f.disk][HeartbeatNote("last_error") := ""]
  }

  lemma MetricsAdded(config: map<Key, string>, f: Figures)
    requires Holds(config, "last_success", f.time) && Holds(config, "last_latency_ms", f.latency)
    requires Holds(config, "last_health", f.health)
    ensures Noted(WithMetrics(config, f), Sent, f)
  {
  }

  /** There is something to send. */
  predicate IsReady(config: map<Key, string>, hostname: Option<string>) {
    IsRegistered(config) && hostname.Some?
  }

  predicate Holds(config: map<Key, string>, note: string, value: string) {
    HeartbeatNote(note) in config && config[HeartbeatNote(note)] == value
  }

  /** A success clears the last error and notes the figures; anything else notes the reason. */
  predicate Noted(config: map<Key, string>, result: RunResult, f: Figures) {
    if result.Sent? then
      && Holds(config, "last_success", f.time) && Holds(config, "last_latency_ms", f.latency)
      && Holds(config, "last_health", f.health) && Holds(config, "last_cpu", f.cpu)
      && Holds(config, "last_memory", f.memory) && Holds(config, "last_disk", f.disk)
      && Holds(config, "last_error", "")
    else Holds(config, "last_error", f.reason)
  }

  lemma NotedFailure(config: map<Key, string>, result: RunResult, f: Figures)
    requires !result.Sent?
    ensures Noted(config, result, f) <==> Holds(config, "last_error", f.reason)
  {
  }
}
