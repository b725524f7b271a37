/** The software producer: replay the queue, collect and deduplicate, send unless unchanged. */
module SoftwareEngine {
  import opened Common
  import opened Protocol
  import opened SyncEngine
  import opened Producing
  import opened HttpClient
  import opened Delivery
  import opened Software

  datatype Payload = Payload(agentUuid: string, collectedAt: string, items: seq<Installation>)

  /** JSON encoding and SHA-256 in hexadecimal, as arbitrary functions. `identity` encodes what the
      fingerprint covers: not the time of collection. */
  datatype Codec = Codec(encode: Payload -> Bytes, identity: (string, seq<Installation>) -> string,
                         digest: string -> string)

  function PayloadFingerprint(c: Codec, p: Payload): string { c.digest(c.identity(p.agentUuid, p.items)) }

  /** Encoded payloads are among those the producer makes, and the fingerprint the protocol attributes
      to them is the one computed here, which is never empty. */
  ghost predicate Agrees(cfg: Config, c: Codec) {
    forall p: Payload ::
      cfg.genuine(Proc.Software, c.encode(p)) && cfg.fingerprint(c.encode(p)) == PayloadFingerprint(c, p) != ""
  }

  lemma AgreesOn(cfg: Config, c: Codec, p: Payload)
    requires Agrees(cfg, c)
    ensures cfg.genuine(Proc.Software, c.encode(p))
    ensures cfg.fingerprint(c.encode(p)) == PayloadFingerprint(c, p) != ""
  {
  }

  /** The producer makes no others. */
  ghost predicate MakesOnlyOwn(cfg: Config, c: Codec) {
    forall x | cfg.genuine(Proc.Software, x) :: exists p: Payload :: x == c.encode(p)
  }

  /** Neither hashing nor the encoding of what is hashed identifies two lists. */
  ghost predicate NoCollision(c: Codec) {
    && (forall x, y :: c.digest(x) == c.digest(y) ==> x == y)
    && (forall a, b, s, t :: c.identity(a, s) == c.identity(b, t) ==> a == b && s == t)
  }

  /** A payload of the same agent with the same list is acknowledged or still queued. */
  ghost predicate ListIsSafe(c: Codec, s: State, agentUuid: string, items: seq<Installation>) {
    exists q: Payload :: q.agentUuid == agentUuid && q.items == items && Safe(s, SoftwareType, c.encode(q))
  }

  /** Whenever the stored fingerprint is that of a list, a payload with that list is safe. */
  lemma StoredListIsSafe(cfg: Config, c: Codec, s: State, p: Payload)
    requires SingleEngine(cfg) && Reachable(cfg, s)
    requires Agrees(cfg, c) && MakesOnlyOwn(cfg, c) && NoCollision(c)
    requires SoftwareFingerprint in s.config && s.config[SoftwareFingerprint] == PayloadFingerprint(c, p)
    ensures ListIsSafe(c, s, p.agentUuid, p.items)
  {
    var x := StoredFingerprintIsSafe(cfg, s, Proc.Software);
    var q: Payload :| x == c.encode(q);
    assert c.identity(q.agentUuid, q.items) == c.identity(p.agentUuid, p.items);
  }

  /** A skipped run hides no undelivered list. */
  lemma SkippedListIsSafe(cfg: Config, c: Codec, s: State, p: Payload, readable: bool, s': State)
    requires SingleEngine(cfg) && Reachable(cfg, s)
    requires Agrees(cfg, c) && MakesOnlyOwn(cfg, c) && NoCollision(c)
    requires Next(cfg, s, Step(Proc.Software, Collect(c.encode(p), readable))) == Some(s')
    requires s'.pcs.At(Proc.Software) == Idle
    ensures ListIsSafe(c, s', p.agentUuid, p.items)
  {
    SuppressedStep(cfg, s, Proc.Software, c.encode(p), readable, s');
    StoredListIsSafe(cfg, c, s', p);
  }

  lemma SkippedAtRest(e: SyncEngine.Engine, c: Codec, p: Payload)
    requires AtRest(e, Proc.Software) && Agrees(e.cfg, c) && MakesOnlyOwn(e.cfg, c) && NoCollision(c)
    requires SoftwareFingerprint in Core(e.db.config)
    requires Core(e.db.config)[SoftwareFingerprint] == PayloadFingerprint(c, p)
    ensures ListIsSafe(c, e.sys, p.agentUuid, p.items)
  {
    StoredListIsSafe(e.cfg, c, e.sys, p);
  }

  class Engine {
    const sync: SyncEngine.Engine
    const codec: Codec

    constructor (sync: SyncEngine.Engine, codec: Codec)
      ensures this.sync == sync && this.codec == codec
    {
      this.sync, this.codec := sync, codec;
    }

    /** `cancelled`: the context is cancelled before the run; `cancelledLater`: by the time a failed
        payload would be queued. */
    method RunOnce(installed: Option<seq<Installation>>, collectedAt: string, now: string, cancelled: bool,
                   cancelledLater: bool, sizes: nat -> nat)
      returns (result: RunResult, ghost payload: Payload, ghost story: Story, ghost trace: seq<Label>)
      requires AtRest(sync, Proc.Software) && Agrees(sync.cfg, codec) && (forall i :: sizes(i) > 0)
      modifies sync`sys, sync.client, sync.db
      ensures AtRest(sync, Proc.Software) && Run(sync.cfg, old(sync.sys), trace) == Some(sync.sys)
      ensures sync.sys.pcs == old(sync.sys.pcs) && sync.sys.holders == old(sync.sys.holders)
      ensures cancelled ==> sync.sys == old(sync.sys) && sync.client.offers == old(sync.client.offers)
      ensures !cancelled ==>
                && sync.client.offers == old(sync.client.offers) + story.replays + story.live
                && Delivered(sync.client.crypto, "/api/agent/software", SoftwareType, old(sync.sys), result,
                             codec.encode(payload), story, sync.sys, sync.db.faults == old(sync.db.faults))
      // without failed statements it is skipped exactly on the stored fingerprint
      ensures EndsRight(!cancelled && IsReady(old(sync.db.config), installed),
                        Knows(old(sync.db.config), PayloadFingerprint(codec, payload)), old(sync.db.config),
                        cancelledLater, sync.db.faults == old(sync.db.faults), story.live, result)
      ensures !cancelled && IsReady(old(sync.db.config), installed) && sync.db.faults == old(sync.db.faults) ==>
                Lists(codec, old(sync.db.config), installed, collectedAt, payload)
      ensures result != Failed || story.live != [] ==>
                Lists(codec, old(sync.db.config), installed, collectedAt, payload)
      ensures Stored(Core(old(sync.db.config)), Core(sync.db.config), result, PayloadFingerprint(codec, payload),
                     sync.db.faults == old(sync.db.faults))
      ensures sync.db.faults == old(sync.db.faults) && result.Sent? ==> Noted(sync.db.config, now)
      // a skipped run hides no undelivered list
      ensures result.Skipped? && MakesOnlyOwn(sync.cfg, codec) && NoCollision(codec) ==>
                ListIsSafe(codec, sync.sys, payload.agentUuid, payload.items)
    {
      hide Run, Ongoing, AtRest, Opens, Transmits, EndsRight, Core, IsResult;
      NothingDone(sync, Proc.Software);
      ghost var start, drained, before := sync.sys, false, sync.db.config;
      trace, payload, story := [], Payload("", "", []), Story(0, false, [], [], sync.sys, []);
      if cancelled {
        NeverReady(false, before, cancelledLater, true);
        return Failed, payload, story, trace;
      }
      var n;
      n, trace, drained, story := Open(sync, Proc.Software, sizes);
      ghost var flushed := sync.db.faults;
      var ok, agentUuid := sync.db.Get(AgentUuid);
      if !ok || agentUuid.None? || agentUuid.value == "" || installed.None? {
        trace := GiveUp(sync, Proc.Software, start, trace, drained);
        result := Failed;
        OpensStill(sync.client.crypto, start, story, flushed == old(sync.db.faults), []);
        NothingSent(sync.client.crypto, before, "/api/agent/software", codec.encode(payload));
        NeverReady(IsReady(before, installed), before, cancelledLater, sync.db.faults == old(sync.db.faults));
      } else {
        var items := NormalizeAndDeduplicate(codec.digest, installed.value);
        var collected := Payload(agentUuid.value, collectedAt, items);
        payload := collected;
        ghost var live;
        result, trace, live := Upload(start, trace, drained, collected, now, cancelledLater, sizes);
        OpensStill(sync.client.crypto, start, story, flushed == old(sync.db.faults), live);
        story := story.(live := live);
        EndsRightLater(IsReady(before, installed), Knows(before, PayloadFingerprint(codec, payload)), before,
                       cancelledLater, sync.db.faults == flushed, story.live, result);
      }
      BackAtRest(sync, Proc.Software, start, trace);
      if result.Skipped? && MakesOnlyOwn(sync.cfg, codec) && NoCollision(codec) {
        SkippedAtRest(sync, codec, payload);
      }
    }

    /** Sends the payload unless its fingerprint is the stored one. */
    method Upload(ghost start: State, ghost run: seq<Label>, ghost drained: bool, payload: Payload, now: string,
                  cancelled: bool, sizes: nat -> nat)
      returns (result: RunResult, ghost trace: seq<Label>, ghost live: seq<Offer>)
      requires Ongoing(sync, Proc.Software, start, run, Flushed(drained))
      requires Agrees(sync.cfg, codec) && (forall i :: sizes(i) > 0) && sync.cfg.engine(Proc.Software) !in start.holders
      modifies sync`sys, sync.client, sync.db
      ensures Ongoing(sync, Proc.Software, start, trace, Idle) && sync.db.faults >= old(sync.db.faults)
      ensures sync.client.offers == old(sync.client.offers) + live
      ensures Transmits(sync.client.crypto, old(sync.db.config), "/api/agent/software", codec.encode(payload), live)
      ensures HandedOver(SoftwareType, codec.encode(payload), old(sync.sys), result, sync.sys)
      ensures EndsRight(true, Knows(old(sync.db.config), PayloadFingerprint(codec, payload)), old(sync.db.config),
                        cancelled, sync.db.faults == old(sync.db.faults), live, result)
      ensures Stored(Core(old(sync.db.config)), Core(sync.db.config), result, PayloadFingerprint(codec, payload),
                     sync.db.faults == old(sync.db.faults))
      ensures sync.db.faults == old(sync.db.faults) && result.Sent? ==> Noted(sync.db.config, now)
    {
      hide Ongoing, Transmits, EndsRight, Core, Stored, NextId, Agrees;
      var encoded := codec.encode(payload);
      var fingerprint := PayloadFingerprint(codec, payload);
      AgreesOn(sync.cfg, codec, payload);
      live := [];
      ghost var before := sync.db.config;
      var skipped;
      skipped, trace := TrySkip(start, run, drained, encoded, fingerprint);
      if skipped {
        NothingSent(sync.client.crypto, before, "/api/agent/software", encoded);
        KnownIsSkipped(before, cancelled);
        SkippedStores(before, fingerprint);
        return RunResult.Skipped, trace, live;
      }
      ghost var read := sync.db.faults;
      result, trace, live := Transfer(start, trace, drained, encoded, fingerprint, now, cancelled, sizes);
      UnknownEndsRight(before, cancelled, sync.db.faults == read, live, result, Knows(before, fingerprint));
      StoredLater(Core(before), Core(sync.db.config), result, fingerprint, sync.db.faults == read);
    }

    /** Compares the fingerprint with the stored one. */
    method TrySkip(ghost start: State, ghost run: seq<Label>, ghost drained: bool, ghost encoded: Bytes,
                   fingerprint: string)
      returns (skipped: bool, ghost trace: seq<Label>)
      requires Ongoing(sync, Proc.Software, start, run, Flushed(drained)) && sync.cfg.genuine(Proc.Software, encoded)
      requires sync.cfg.fingerprint(encoded) == fingerprint != ""
      modifies sync`sys, sync.db`faults
      ensures Ongoing(sync, Proc.Software, start, trace, if skipped then Idle else Ready(encoded, drained))
      ensures skipped <==> Knows(sync.db.config, fingerprint) && sync.db.faults == old(sync.db.faults)
      ensures sync.db.faults >= old(sync.db.faults)
      ensures sync.sys == old(sync.sys).(pcs := sync.sys.pcs)
    {
      hide Run, Reachable, SingleEngine;
      var readable, previous := sync.db.Get(SoftwareFingerprint);
      trace := Judge(sync, Proc.Software, start, run, drained, encoded, readable);
      skipped := (if previous.Some? then previous.value else "") == fingerprint;
    }

    /** Sends the encoded payload, and remembers its fingerprint. */
    method Transfer(ghost start: State, ghost run: seq<Label>, ghost drained: bool, encoded: Bytes, fingerprint: string,
                    now: string, cancelled: bool, sizes: nat -> nat)
      returns (result: RunResult, ghost trace: seq<Label>, ghost live: seq<Offer>)
      requires Ongoing(sync, Proc.Software, start, run, Ready(encoded, drained))
      requires fingerprint == sync.cfg.fingerprint(encoded)
      requires (forall i :: sizes(i) > 0) && sync.cfg.engine(Proc.Software) !in start.holders
      modifies sync`sys, sync.client, sync.db
      ensures Ongoing(sync, Proc.Software, start, trace, Idle) && sync.db.faults >= old(sync.db.faults)
      ensures sync.client.offers == old(sync.client.offers) + live
      ensures Transmits(sync.client.crypto, old(sync.db.config), "/api/agent/software", encoded, live)
      ensures !result.Skipped?
      ensures HandedOver(SoftwareType, encoded, old(sync.sys), result, sync.sys)
      ensures EndsRight(true, false, old(sync.db.config), cancelled, sync.db.faults == old(sync.db.faults), live,
                        result)
      ensures Stored(Core(old(sync.db.config)), Core(sync.db.config), result, fingerprint,
                     sync.db.faults == old(sync.db.faults))
      ensures sync.db.faults == old(sync.db.faults) && result.Sent? ==> Noted(sync.db.config, now)
    {
      hide Run, Reachable, Transmits, EndsRight, SendEndsRight, SingleEngine, Core, Stored, NextId;
      ghost var before := sync.db.config;
      var sendErr;
      sendErr, trace, live := Send(sync, Proc.Software, start, run, drained, "/api/agent/software", SoftwareType,
                                   encoded, cancelled, sizes);
      ghost var sent := sync.db.faults;
      SendEndsRun(before, cancelled, live, sendErr, sent == old(sync.db.faults), false);
      result, trace := Remember(start, trace, encoded, fingerprint, sendErr, now);
      StoredLater(Core(before), Core(sync.db.config), result, fingerprint, sync.db.faults == sent);
    }

    /** Stores the fingerprint after a send that was acknowledged or queued. */
    method Remember(ghost start: State, ghost run: seq<Label>, ghost encoded: Bytes, fingerprint: string,
                    sendErr: Option<SyncError>, now: string)
      returns (result: RunResult, ghost trace: seq<Label>)
      requires Ongoing(sync, Proc.Software, start, run,
                       if sendErr.None? || IsQueued(sendErr) then Persisting(encoded) else Idle)
      requires fingerprint == sync.cfg.fingerprint(encoded)
      modifies sync`sys, sync.db`config, sync.db`faults
      ensures Ongoing(sync, Proc.Software, start, trace, Idle) && sync.db.faults >= old(sync.db.faults)
      ensures result == ResultOf(sendErr)
      ensures sync.sys == old(sync.sys).(config := sync.db.config, pcs := sync.sys.pcs)
      ensures Stored(Core(old(sync.db.config)), Core(sync.db.config), result, fingerprint,
                     sync.db.faults == old(sync.db.faults))
      ensures sync.db.faults == old(sync.db.faults) && result.Sent? ==> Noted(sync.db.config, now)
    {
      hide Core, Run, Reachable, SingleEngine;
      if sendErr.Some? && !IsQueued(sendErr) { return Failed, run; }
      var ok;
      ok, trace := StoreFingerprint(sync, Proc.Software, start, run, encoded, SoftwareFingerprint, fingerprint);
      if sendErr.Some? { return Queued, trace; }
      trace := Note(sync, Proc.Software, start, trace, Idle, SoftwareNote("last_success"), now);
      return Sent, trace;
    }
  }

  /** There is something to send. */
  predicate IsReady(config: map<Key, string>, installed: Option<seq<Installation>>) {
    IsRegistered(config) && installed.Some?
  }

  predicate Noted(config: map<Key, string>, now: string) {
    SoftwareNote("last_success") in config && config[SoftwareNote("last_success")] == now
  }

  /** The fingerprint is the stored one. */
  predicate Knows(config: map<Key, string>, fingerprint: string) {
    SoftwareFingerprint in config && config[SoftwareFingerprint] == fingerprint
  }

  /** The payload lists what was collected, deduplicated, for the stored agent. */
  ghost predicate Lists(c: Codec, config: map<Key, string>, installed: Option<seq<Installation>>, collectedAt: string,
                        payload: Payload) {
    && IsReady(config, installed)
    && payload.agentUuid == config[AgentUuid] && payload.collectedAt == collectedAt
    && IsResult(c.digest, installed.value, payload.items)
  }

  /** Apart from notes, a run changes nothing but the stored fingerprint, and that only to the
      fingerprint of a payload it handed over; only a failed statement can keep it from doing so. */
  ghost predicate Stored(before: map<Key, string>, after: map<Key, string>, result: RunResult, fingerprint: string,
                         faultless: bool) {
    if result.Sent? || result.Queued? then
      after == before[SoftwareFingerprint := fingerprint] || (after == before && !faultless)
    else after == before && (result.Skipped? ==> Knows(before, fingerprint))
  }

  lemma SkippedStores(config: map<Key, string>, fingerprint: string)
    requires Knows(config, fingerprint)
    ensures forall faultless :: Stored(Core(config), Core(config), RunResult.Skipped, fingerprint, faultless)
  {
  }

  lemma StoredLater(before: map<Key, string>, after: map<Key, string>, result: RunResult, fingerprint: string,
                    faultless: bool)
    requires Stored(before, after, result, fingerprint, faultless)
    ensures Stored(before, after, result, fingerprint, false)
  {
  }
}
