/** The steps shared by the three producers: opening pass, collecting or giving up, sending, and
    storing. Each moves the protocol state along with the database. */
module Producing {
  import opened Common
  import opened Protocol
  import opened Backlog
  import opened Storage
  import opened SyncEngine
  import opened HttpClient
  import Signing
  import Steps

  /** How a run ended, as the reports name it. */
  datatype RunResult = Failed | Skipped | Queued | Sent

  /** Producer `p` has performed `run` since `start`, alone, and is now at `pc`. */
  ghost predicate Ongoing(e: Engine, p: Proc, start: State, run: seq<Label>, pc: Pc)
    reads e`sys, e.db`queue, e.db`config, e.db`tickets
  {
    && e.Valid() && Reachable(e.cfg, start)
    && Run(e.cfg, start, run) == Some(e.sys)
    && e.sys.pcs == start.pcs.With(p, pc) && e.sys.holders == start.holders
  }

  /** `p` is idle and the mutex of its engine is free. */
  ghost predicate AtRest(e: Engine, p: Proc)
    reads e`sys, e.db`queue, e.db`config, e.db`tickets
  {
    e.Valid() && e.sys.pcs.At(p) == Idle && e.cfg.engine(p) !in e.sys.holders
  }

  lemma BackAtRest(e: Engine, p: Proc, start: State, run: seq<Label>)
    requires Ongoing(e, p, start, run, Idle)
    requires start.pcs.At(p) == Idle && e.cfg.engine(p) !in start.holders
    ensures AtRest(e, p) && Run(e.cfg, start, run) == Some(e.sys)
    ensures e.sys.pcs == start.pcs && e.sys.holders == start.holders
  {
    RewriteChangesNothing(start.pcs, p);
  }

  /** A run that does nothing. */
  lemma NothingDone(e: Engine, p: Proc)
    requires AtRest(e, p)
    ensures Run(e.cfg, e.sys, []) == Some(e.sys) && e.sys.config == e.db.config
    ensures e.sys.pcs.At(p) == Idle && e.cfg.engine(p) !in e.sys.holders
  {
  }

  /** Notes are stored and never read back by the modelled code. */
  predicate IsNote(k: Key) { k.HeartbeatNote? || k.InventoryNote? || k.SoftwareNote? }

  /** The key/value table without the notes. */
  function Core(config: map<Key, string>): map<Key, string> {
    map k | k in config && !IsNote(k) :: config[k]
  }

  lemma CorePut(config: map<Key, string>, key: Key, value: string)
    ensures Core(config[key := value]) == if IsNote(key) then Core(config) else Core(config)[key := value]
  {
  }

  /** storage.Put of a key that holds no fingerprint; a failure changes nothing. */
  method Store(e: Engine, ghost p: Proc, ghost start: State, ghost run: seq<Label>, ghost pc: Pc, key: Key,
               value: string)
    returns (ok: bool, ghost trace: seq<Label>)
    requires Ongoing(e, p, start, run, pc) && !IsFingerprintKey(key)
    modifies e`sys, e.db`config, e.db`faults
    ensures Ongoing(e, p, start, trace, pc)
    ensures e.db.faults == if ok then old(e.db.faults) else old(e.db.faults) + 1
    ensures e.db.config == if ok then old(e.db.config)[key := value] else old(e.db.config)
    ensures Core(e.db.config) ==
            if ok && !IsNote(key) then Core(old(e.db.config))[key := value] else Core(old(e.db.config))
    ensures e.sys == old(e.sys).(config := e.db.config)
  {
    CorePut(e.db.config, key, value);
    ok := e.db.Put(key, value);
    trace := run;
    if ok {
      Steps.PutsOther(e.cfg, start, run, e.sys, p, key, value);
      trace := run + [Step(p, PutOther(key, value))];
      e.sys := Run(e.cfg, start, trace).value;
      ReachableExtends(e.cfg, start, trace, e.sys);
    }
  }

  /** storage.Put of a note, whose outcome is ignored. */
  method Note(e: Engine, ghost p: Proc, ghost start: State, ghost run: seq<Label>, ghost pc: Pc, key: Key,
              value: string)
    returns (ghost trace: seq<Label>)
    requires Ongoing(e, p, start, run, pc) && IsNote(key)
    modifies e`sys, e.db`config, e.db`faults
    ensures Ongoing(e, p, start, trace, pc)
    ensures e.db.faults >= old(e.db.faults)
    ensures e.db.config ==
            if e.db.faults == old(e.db.faults) then old(e.db.config)[key := value] else old(e.db.config)
    ensures Core(e.db.config) == Core(old(e.db.config))
    ensures e.sys == old(e.sys).(config := e.db.config)
  {
    var ok;
    ok, trace := Store(e, p, start, run, pc, key, value);
  }

  /** What a run did: the rows its opening pass removed, whether the pass came to its end, what it
      offered for which rows, the state it left, and what was offered live after it. */
  datatype Story = Story(sent: nat, complete: bool, replays: seq<Offer>, at: seq<nat>, mid: State, live: seq<Offer>)

  /** The opening pass: it replays from the front of the queue, and without failed statements only the
      Portal or a missing token can stop it. */
  ghost predicate Opens(crypto: Signing.Crypto, before: State, s: Story, faultless: bool) {
    && PassResult(before.rows, s.mid.rows, s.sent, s.complete)
    && Replays(crypto, before.config, Routables(Window(before.rows)), s.replays, s.at, s.sent)
    && (s.complete ==> Completes(before.config, Routables(Window(before.rows)), s.replays, true))
    && (faultless && !s.complete ==> !Completes(before.config, Routables(Window(before.rows)), s.replays, true))
  }

  /** The opening `Flush`, whose failure is only logged. */
  method Open(e: Engine, ghost p: Proc, sizes: nat -> nat)
    returns (sent: nat, ghost trace: seq<Label>, ghost drained: bool, ghost story: Story)
    requires AtRest(e, p) && (forall i :: sizes(i) > 0)
    modifies e`sys, e.client, e.db
    ensures Ongoing(e, p, old(e.sys), trace, Flushed(drained))
    ensures drained == (story.complete && |old(e.sys.rows)| <= WINDOW)
    ensures e.db.config == old(e.db.config) && e.db.faults >= old(e.db.faults)
    ensures story.sent == sent && story.mid == e.sys && story.live == []
    ensures e.client.offers == old(e.client.offers) + story.replays
    ensures Opens(e.client.crypto, old(e.sys), story, e.db.faults == old(e.db.faults))
  {
    hide Replays, Completes, PassResult, Window, Run, Reachable, Scan, Posts, SingleEngine;
    var err;
    ghost var made, at;
    sent, err, trace, made, at := e.Flush(p, sizes);
    drained := err.None? && |old(e.sys.rows)| <= WINDOW;
    story := Story(sent, err.None?, made, at, e.sys, []);
    CompletesFaultless(e.db.config, Routables(Window(old(e.sys.rows))), made, e.db.faults == old(e.db.faults));
  }

  /** What comes later does not change how the run opened. */
  lemma OpensStill(crypto: Signing.Crypto, before: State, s: Story, faultless: bool, live: seq<Offer>)
    requires Opens(crypto, before, s, faultless)
    ensures Opens(crypto, before, s.(live := live), faultless) && Opens(crypto, before, s.(live := live), false)
  {
  }

  lemma CompletesFaultless(config: map<Key, string>, rows: seq<Row>, made: seq<Offer>, faultless: bool)
    ensures Completes(config, rows, made, faultless) <==> faultless && Completes(config, rows, made, true)
  {
  }

  /** The run ends before a payload exists. */
  ghost method GiveUp(e: Engine, p: Proc, start: State, run: seq<Label>, drained: bool) returns (trace: seq<Label>)
    requires Ongoing(e, p, start, run, Flushed(drained))
    modifies e`sys
    ensures Ongoing(e, p, start, trace, Idle)
    ensures e.sys == old(e.sys).(pcs := e.sys.pcs)
  {
    LaterWriteWins(start.pcs, p, Flushed(drained));
    Steps.Abandons(e.cfg, start, run, e.sys, p);
    trace := run + [Step(p, Abandon)];
    e.sys := Run(e.cfg, start, trace).value;
    ReachableExtends(e.cfg, start, trace, e.sys);
  }

  /** The suppression test is made for a payload. */
  ghost method Judge(e: Engine, p: Proc, start: State, run: seq<Label>, drained: bool, payload: Bytes, readable: bool)
    returns (trace: seq<Label>)
    requires Ongoing(e, p, start, run, Flushed(drained)) && e.cfg.genuine(p, payload)
    modifies e`sys
    ensures Ongoing(e, p, start, trace,
                    if Suppressed(e.cfg, e.db.config, p, payload, readable) then Idle else Ready(payload, drained))
    ensures e.sys == old(e.sys).(pcs := e.sys.pcs)
  {
    LaterWriteWins(start.pcs, p, Flushed(drained));
    Steps.Collects(e.cfg, start, run, e.sys, p, payload, readable);
    trace := run + [Step(p, Collect(payload, readable))];
    e.sys := Run(e.cfg, start, trace).value;
    ReachableExtends(e.cfg, start, trace, e.sys);
  }

  /** How a live send ends follows from the token, the Portal and the context; only a failed statement
      can make it end otherwise. */
  ghost predicate SendEndsRight(config: map<Key, string>, cancelled: bool, faultless: bool, live: seq<Offer>,
                                err: Option<SyncError>) {
    && (err.None? <==> EndsAcked(live))
    && (IsQueued(err) ==> live != [] && !cancelled)
    && (faultless ==> (live != [] <==> HasToken(config)))
    && (faultless && live != [] && err.Some? ==> (IsQueued(err) <==> !cancelled))
  }

  lemma AccountedEndsRight(config: map<Key, string>, cancelled: bool, faultless: bool, token: bool,
                           live: seq<Offer>, insert: Insert, err: Option<SyncError>)
    requires Accounted(config, cancelled, faultless, token, live, insert)
    requires SendOutcome(err, token, Outcomes(live), insert)
    ensures SendEndsRight(config, cancelled, faultless, live, err)
  {
    hide Decided;
    if live != [] { assert Outcomes(live)[|live| - 1] == live[|live| - 1].outcome; }
  }

  /** The payload is sent live to the endpoint its queue type is replayed to. */
  method Send(e: Engine, ghost p: Proc, ghost start: State, ghost run: seq<Label>, ghost drained: bool,
              endpoint: string, kind: Kind, payload: Bytes, cancelled: bool, sizes: nat -> nat)
    returns (err: Option<SyncError>, ghost trace: seq<Label>, ghost live: seq<Offer>)
    requires Ongoing(e, p, start, run, Ready(payload, drained)) && kind == KindOf(p)
    requires endpoint == RouteForType(kind)
    requires e.cfg.engine(p) !in start.holders && (forall i :: sizes(i) > 0)
    modifies e`sys, e.client, e.db
    ensures Ongoing(e, p, start, trace, if err.None? || IsQueued(err) then Persisting(payload) else Idle)
    ensures e.db.config == old(e.db.config) && e.db.faults >= old(e.db.faults)
    ensures e.client.offers == old(e.client.offers) + live
    ensures Transmits(e.client.crypto, e.db.config, endpoint, payload, live)
    ensures SendEndsRight(e.db.config, cancelled, e.db.faults == old(e.db.faults), live, err)
    ensures e.sys.acked == if err.None? then old(e.sys.acked) + [Live(kind, payload)] else old(e.sys.acked)
    ensures e.sys.rows ==
            if IsQueued(err) then old(e.sys.rows) + [Row(NextId(old(e.sys.rows)), kind, payload, |old(e.sys.enqueued)|)]
            else old(e.sys.rows)
  {
    hide Transmits, Accounted, SendOutcome, SendEndsRight, SendLabels, Reported, Scan, Run, Reachable, NextId;
    hide SingleEngine, RouteForType, Outcomes, Judgement;
    ghost var more, token, insert;
    LaterWriteWins(start.pcs, p, Ready(payload, drained));
    err, more, token, live, insert := e.SendJSON(p, drained, endpoint, kind, payload, cancelled, sizes);
    AccountedEndsRight(e.db.config, cancelled, e.db.faults == old(e.db.faults), token, live, insert, err);
    trace := run + more;
    RunConcat(e.cfg, start, run, more);
  }

  /** Stores the fingerprint of the payload just handed over. */
  method StoreFingerprint(e: Engine, ghost p: Proc, ghost start: State, ghost run: seq<Label>, ghost payload: Bytes,
                          key: Key, fingerprint: string)
    returns (ok: bool, ghost trace: seq<Label>)
    requires Ongoing(e, p, start, run, Persisting(payload))
    requires FingerprintKey(p) == Some(key) && fingerprint == e.cfg.fingerprint(payload)
    modifies e`sys, e.db`config, e.db`faults
    ensures Ongoing(e, p, start, trace, Idle)
    ensures e.db.faults == if ok then old(e.db.faults) else old(e.db.faults) + 1
    ensures Core(e.db.config) == if ok then Core(old(e.db.config))[key := fingerprint] else Core(old(e.db.config))
    ensures e.sys == old(e.sys).(config := e.db.config, pcs := e.sys.pcs)
  {
    CorePut(e.db.config, key, fingerprint);
    ok := e.db.Put(key, fingerprint);
    LaterWriteWins(start.pcs, p, Persisting(payload));
    Steps.Persists(e.cfg, start, run, e.sys, p, payload, ok);
    trace := run + [Step(p, Persist(ok))];
    e.sys := Run(e.cfg, start, trace).value;
    ReachableExtends(e.cfg, start, trace, e.sys);
  }

  /** The heartbeat has no fingerprint to store. */
  ghost method NothingToStore(e: Engine, p: Proc, start: State, run: seq<Label>, payload: Bytes)
    returns (trace: seq<Label>)
    requires Ongoing(e, p, start, run, Persisting(payload)) && FingerprintKey(p).None?
    modifies e`sys
    ensures Ongoing(e, p, start, trace, Idle)
    ensures e.sys == old(e.sys).(pcs := e.sys.pcs)
  {
    LaterWriteWins(start.pcs, p, Persisting(payload));
    Steps.Persists(e.cfg, start, run, e.sys, p, payload, true);
    trace := run + [Step(p, Persist(true))];
    e.sys := Run(e.cfg, start, trace).value;
    ReachableExtends(e.cfg, start, trace, e.sys);
  }

  // ---------------------------------------------------------------- what a run does to the queue

  /** At most one payload is handed over: acknowledged live, or appended as one row. */
  ghost predicate HandedOver(kind: Kind, payload: Bytes, before: State, result: RunResult, after: State) {
    && after.acked == (if result.Sent? then before.acked + [Live(kind, payload)] else before.acked)
    && after.rows ==
       if result.Queued? then before.rows + [Row(NextId(before.rows), kind, payload, |before.enqueued|)]
       else before.rows
  }

  /** A run replays from the front of the queue, and then hands over at most one payload, which it has
      posted to its endpoint. */
  ghost predicate Delivered(crypto: Signing.Crypto, endpoint: string, kind: Kind, before: State, result: RunResult,
                            payload: Bytes, story: Story, after: State, faultless: bool) {
    && Opens(crypto, before, story, faultless)
    && Transmits(crypto, before.config, endpoint, payload, story.live)
    && HandedOver(kind, payload, story.mid, result, after)
  }

  // ---------------------------------------------------------------- how a run ends

  predicate IsRegistered(config: map<Key, string>) { AgentUuid in config && config[AgentUuid] != "" }

  /** The result of a run in which no statement failed: `ready` says whether there was something to
      send, `known` whether its fingerprint is the stored one. */
  function Verdict(ready: bool, known: bool, config: map<Key, string>, live: seq<Offer>, cancelled: bool): RunResult {
    if !ready then Failed
    else if known then RunResult.Skipped
    else if !HasToken(config) then Failed
    else if EndsAcked(live) then Sent
    else if cancelled then Failed
    else Queued
  }

  /** How a run ends follows from what was collected, the database, the context and the Portal; only a
      failed statement can make it end otherwise. */
  ghost predicate EndsRight(ready: bool, known: bool, config: map<Key, string>, cancelled: bool, faultless: bool,
                            live: seq<Offer>, result: RunResult) {
    && (result.Sent? <==> EndsAcked(live))
    && (result.Queued? ==> live != [] && !cancelled)
    && (result.Skipped? ==> known && live == [])
    && (result != Failed || live != [] ==> ready)
    && (faultless ==>
          && result == Verdict(ready, known, config, live, cancelled)
          && (live != [] <==> ready && !known && HasToken(config)))
  }

  /** A run that found nothing to send, or could not read what it needs. */
  lemma NeverReady(ready: bool, config: map<Key, string>, cancelled: bool, faultless: bool)
    requires faultless ==> !ready
    ensures forall known :: EndsRight(ready, known, config, cancelled, faultless, [], Failed)
  {
  }

  /** Failures before the decisive part do not matter for it. */
  lemma EndsRightLater(ready: bool, known: bool, config: map<Key, string>, cancelled: bool, faultless: bool,
                       live: seq<Offer>, result: RunResult)
    requires EndsRight(ready, known, config, cancelled, faultless, live, result)
    ensures EndsRight(ready, known, config, cancelled, false, live, result)
  {
  }

  /** A run that sent although its fingerprint may be stored could not read it. */
  lemma UnknownEndsRight(config: map<Key, string>, cancelled: bool, faultless: bool, live: seq<Offer>,
                         result: RunResult, known: bool)
    requires EndsRight(true, false, config, cancelled, faultless, live, result) && !result.Skipped?
    ensures !known ==> EndsRight(true, known, config, cancelled, faultless, live, result)
    ensures EndsRight(true, known, config, cancelled, false, live, result)
  {
  }

  /** A run that found its fingerprint stored. */
  lemma KnownIsSkipped(config: map<Key, string>, cancelled: bool)
    ensures forall faultless :: EndsRight(true, true, config, cancelled, faultless, [], RunResult.Skipped)
  {
  }

  /** What a send reports, as the result of the run. */
  function ResultOf(err: Option<SyncError>): RunResult {
    if err.None? then Sent else if IsQueued(err) then Queued else Failed
  }

  /** A run that got as far as sending ends as its send does. */
  lemma SendEndsRun(config: map<Key, string>, cancelled: bool, live: seq<Offer>, err: Option<SyncError>,
                    sendFaultless: bool, known: bool)
    requires SendEndsRight(config, cancelled, sendFaultless, live, err)
    ensures forall faultless ::
              (faultless ==> sendFaultless && !known) ==>
                EndsRight(true, known, config, cancelled, faultless, live, ResultOf(err))
  {
  }
}
