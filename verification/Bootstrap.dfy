/** The registration service: one-time enrolment, configuration reload, and the retry loop around
    enrolment. Each method's contract includes the event of `Registration` it performs. */
module Bootstrap {
  import opened Common
  import opened Storage
  import opened Registration

  function Backoff(i: nat): nat { Min(Doubled(i), 300) }

  function Doubled(i: nat): nat { if i == 0 then 1 else 2 * Doubled(i - 1) }

  /** The delay doubles from one second and is capped at five minutes. */
  function NextDelay(delay: nat): nat {
    if delay < 300 then (if 2 * delay > 300 then 300 else 2 * delay) else delay
  }

  lemma BackoffStep(i: nat)
    ensures NextDelay(Backoff(i)) == Backoff(i + 1)
  {
    assert Doubled(i + 1) == 2 * Doubled(i);
  }

  class Service {
    const db: Database
    var enrollmentKey: string
    ghost var boot: Boot

    constructor (db: Database, enrollmentKey: string)
      ensures this.db == db && this.enrollmentKey == enrollmentKey
      ensures Valid() && boot == Boot(db.config, 0, if AgentUuid in db.config then 1 else 0)
    {
      this.db, this.enrollmentKey := db, enrollmentKey;
      boot := Boot(db.config, 0, if AgentUuid in db.config then 1 else 0);
    }

    ghost predicate Valid()
      reads this, db`config
    {
      boot.config == db.config
    }

    // -------------------------------------------------------------- storing a reply

    /** One Put of the plan `writes`, the one at position `written`. */
    method PutNext(key: Key, value: string, ghost config: map<Key, string>, ghost writes: seq<Write>,
                   ghost written: nat)
      returns (ok: bool, ghost written': nat)
      requires written < |writes| && writes[written] == Write(key, value)
      requires db.config == After(config, writes[..written])
      modifies db`config, db`faults
      ensures written' == if ok then written + 1 else written
      ensures db.faults == if ok then old(db.faults) else old(db.faults) + 1
      ensures db.config == After(config, writes[..written'])
    {
      ok := db.Put(key, value);
      written' := if ok then written + 1 else written;
      assert writes[..written + 1][..written] == writes[..written];
    }

    /** One Put of the plan that is left out when the field is absent; `rest` is the plan after it. */
    method PutOptional(key: Key, value: string, ghost config: map<Key, string>, ghost writes: seq<Write>,
                       ghost written: nat, ghost rest: seq<Write>)
      returns (ok: bool, ghost written': nat)
      requires written <= |writes| && writes[written..] == Optional(key, value) + rest
      requires db.config == After(config, writes[..written])
      modifies db`config, db`faults
      ensures written <= written' <= |writes|
      ensures if ok then writes[written'..] == rest else written' == written && |writes| > written
      ensures db.faults == if ok then old(db.faults) else old(db.faults) + 1
      ensures db.config == After(config, writes[..written'])
    {
      ok, written' := true, written;
      if value != "" {
        assert writes[written] == writes[written..][0];
        assert writes[written + 1..] == writes[written..][1..];
        ok, written' := PutNext(key, value, config, writes, written);
      }
    }

    /** Token, configuration, policy and version when present, then the time; stops at the first failure. */
    method SaveConfiguration(r: Response, now: string, ghost config: map<Key, string>, ghost writes: seq<Write>,
                             ghost first: nat)
      returns (ok: bool, ghost written: nat)
      requires first <= |writes| && writes[first..] == ConfigurationWrites(r, now)
      requires db.config == After(config, writes[..first])
      modifies db`config, db`faults
      ensures first <= written <= |writes| && (ok <==> written == |writes|)
      ensures db.faults == if ok then old(db.faults) else old(db.faults) + 1
      ensures db.config == After(config, writes[..written])
    {
      ghost var last := [Write(LastSync, now)];
      ghost var version := Optional(ConfigurationVersion, r.configurationVersion) + last;
      ghost var policy := Optional(PortalPolicy, r.policy) + version;
      ghost var settings := Optional(PortalConfiguration, r.configuration) + policy;
      PlanSplits(r, now);
      hide After, ConfigurationWrites, Optional;
      ok, written := PutOptional(AgentToken, r.agentToken, config, writes, first, settings);
      if !ok { return; }
      ok, written := PutOptional(PortalConfiguration, r.configuration, config, writes, written, policy);
      if !ok { return; }
      ok, written := PutOptional(PortalPolicy, r.policy, config, writes, written, version);
      if !ok { return; }
      ok, written := PutOptional(ConfigurationVersion, r.configurationVersion, config, writes, written, last);
      if !ok { return; }
      assert writes[written] == writes[written..][0];
      ok, written := PutNext(LastSync, now, config, writes, written);
    }

    method SaveRegistration(r: Response, now: string) returns (ok: bool, ghost written: nat)
      modifies db`config, db`faults
      ensures written <= |RegistrationWrites(r, now)| && (ok <==> written == |RegistrationWrites(r, now)|)
      ensures db.faults == if ok then old(db.faults) else old(db.faults) + 1
      ensures db.config == After(old(db.config), RegistrationWrites(r, now)[..written])
    {
      ghost var config, writes := db.config, RegistrationWrites(r, now);
      ok, written := PutNext(AgentUuid, r.agentUuid, config, writes, 0);
      if !ok { return; }
      ok, written := PutNext(AgentToken, r.agentToken, config, writes, written);
      if !ok { return; }
      var time := if r.registrationTime == "" then now else r.registrationTime;
      ok, written := PutNext(RegistrationTime, time, config, writes, written);
      if !ok { return; }
      ok, written := SaveConfiguration(r, now, config, writes, written);
    }

    // -------------------------------------------------------------- the operations

    /** Whether the UUID is stored; None when the store cannot be read. */
    method Registered() returns (found: Option<bool>)
      modifies db`faults
      ensures db.faults == if found.Some? then old(db.faults) else old(db.faults) + 1
      ensures found.Some? ==> (found.value <==> AgentUuid in db.config)
    {
      var ok, value := db.Get(AgentUuid);
      found := if ok then Some(value.Some?) else None;
    }

    /** `sendable`: the request can be built. `reply`: the answer, if it is 2xx and parses. It succeeds
        unless there is no enrolment key, no request, no usable reply, or a statement failed; the key is
        used up by the success. */
    method Register(sendable: bool, reply: Option<Response>, now: string) returns (ok: bool, ghost event: Event)
      requires Valid() && AgentUuid !in db.config
      modifies this, db`config, db`faults
      ensures Valid() && BootNext(old(boot), event) == Some(boot) && db.faults >= old(db.faults)
      ensures ok <==> CanRegister(old(enrollmentKey), sendable, reply) && db.faults == old(db.faults)
      ensures enrollmentKey == if ok then "" else old(enrollmentKey)
      ensures event.EnsureRegistered? && event.readable && event.reply == reply && event.now == now
      ensures event.posted <==> old(enrollmentKey) != "" && sendable
      ensures ok ==> Registers(old(boot), event) && event.written == |RegistrationWrites(event.reply.value, event.now)|
    {
      if enrollmentKey == "" || !sendable {
        return false, Event.EnsureRegistered(true, false, reply, now, 0);
      }
      event := Event.EnsureRegistered(true, true, reply, now, 0);
      if reply.None? || reply.value.agentUuid == "" || reply.value.agentToken == "" {
        boot := BootNext(boot, event).value;
        return false, event;
      }
      ghost var written;
      ok, written := SaveRegistration(reply.value, now);
      event := Event.EnsureRegistered(true, true, reply, now, written);
      boot := BootNext(boot, event).value;
      if ok { enrollmentKey := ""; }
    }

    /** Registers once: a stored UUID is taken for a finished registration. */
    method EnsureRegistered(sendable: bool, reply: Option<Response>, now: string) returns (ok: bool, ghost event: Event)
      requires Valid()
      modifies this, db`config, db`faults
      ensures Valid() && BootNext(old(boot), event) == Some(boot) && db.faults >= old(db.faults)
      ensures ok <==> db.faults == old(db.faults)
                      && (AgentUuid in old(db.config) || CanRegister(old(enrollmentKey), sendable, reply))
      ensures AgentUuid in old(db.config) ==> boot == old(boot) && enrollmentKey == old(enrollmentKey)
      ensures enrollmentKey == old(enrollmentKey) || (ok && enrollmentKey == "")
      ensures ok ==> AgentUuid in db.config
      // after success the token is there unless the UUID had been stored without it
      ensures ok ==> (AgentToken in db.config <==> AgentUuid !in old(db.config) || AgentToken in old(db.config))
      // a first registration stores what the reply holds
      ensures ok && AgentUuid !in old(db.config) ==> HoldsRegistration(old(db.config), db.config, reply.value, now)
    {
      var registered := Registered();
      event := Event.EnsureRegistered(false, false, reply, now, 0);
      if registered.None? { return false, event; }
      if registered.value {
        var readable, configuration := db.Get(PortalConfiguration);
        return readable, event;
      }
      ok, event := Register(sendable, reply, now);
      if ok {
        RegistrationPrefix(old(db.config), event.reply.value, event.now, event.written);
        RegistrationStored(old(db.config), event.reply.value, event.now);
        assert RegistrationWrites(event.reply.value, event.now)[..event.written]
            == RegistrationWrites(event.reply.value, event.now);
      }
    }

    /** Downloads the configuration again; needs the token. */
    method ReloadConfig(reply: Option<Response>, now: string) returns (ok: bool, ghost event: Event)
      requires Valid()
      modifies this, db`config, db`faults
      ensures Valid() && BootNext(old(boot), event) == Some(boot) && db.faults >= old(db.faults)
      ensures ok <==> db.faults == old(db.faults) && AgentToken in old(db.config)
                      && reply.Some? && reply.value.configuration != ""
      ensures ok ==> HoldsConfiguration(old(db.config), db.config, reply.value, now)
    {
      event := Event.ReloadConfig(None, now, 0);
      var readable, token := db.GetSecret(AgentToken);
      if !readable || token.None? || reply.None? || reply.value.configuration == "" { return false, event; }
      ghost var config, writes, written := db.config, ConfigurationWrites(reply.value, now), 0;
      ok, written := SaveConfiguration(reply.value, now, config, writes, 0);
      assert ok ==> writes[..written] == writes;
      ConfigurationStored(config, reply.value, now);
      event := Event.ReloadConfig(reply, now, written);
      boot := BootNext(boot, event).value;
    }

    /** Retries until a registration succeeds or the context is cancelled, which happens after
        `rounds` waits. */
    method BootstrapWithRetry(sendable: nat -> bool, replies: nat -> Option<Response>, now: nat -> string, rounds: nat)
      returns (ok: bool, waits: seq<nat>, ghost events: seq<Event>)
      requires Valid()
      modifies this, db`config, db`faults
      ensures Valid() && BootRun(old(boot), events) == Some(boot)
      ensures |waits| <= rounds && forall i :: 0 <= i < |waits| ==> waits[i] == Backoff(i)
      ensures |events| == |waits| + 1 && (!ok ==> |waits| == rounds)
      // the first attempt succeeds if nothing is missing and no statement fails
      ensures db.faults == old(db.faults) &&
              (AgentUuid in old(db.config) || CanRegister(old(enrollmentKey), sendable(0), replies(0))) ==>
                ok && waits == []
      ensures ok ==> AgentUuid in db.config
      // a new agent that has bootstrapped holds a token unless some attempt was cut short
      ensures ok && Fresh(old(boot)) ==> (AgentToken in db.config <==> !EverCutShort(old(boot), events))
    {
      var delay := 1;
      ok, waits, events := false, [], [];
      while true
        invariant Valid() && BootRun(old(boot), events) == Some(boot) && db.faults >= old(db.faults)
        invariant |waits| <= rounds && delay == Backoff(|waits|) && |events| == |waits|
        invariant forall i :: 0 <= i < |waits| ==> waits[i] == Backoff(i)
        invariant waits == [] ==>
                    boot == old(boot) && enrollmentKey == old(enrollmentKey) && db.config == old(db.config)
        invariant waits != [] && db.faults == old(db.faults) ==>
                    AgentUuid !in old(db.config) && !CanRegister(old(enrollmentKey), sendable(0), replies(0))
        decreases rounds - |waits|
      {
        ghost var event;
        ok, event := EnsureRegistered(sendable(|waits|), replies(|waits|), now(|waits|));
        assert (events + [event])[..|events|] == events;
        events := events + [event];
        if ok {
          if Fresh(old(boot)) { StuckIffCutShort(old(boot), events, boot); }
          return;
        }
        if |waits| == rounds { return; }
        BackoffStep(|waits|);
        waits := waits + [delay];
        delay := NextDelay(delay);
      }
    }
  }

  /** There is a key to enrol with, a request, and a usable reply to it. */
  predicate CanRegister(enrollmentKey: string, sendable: bool, reply: Option<Response>) {
    enrollmentKey != "" && sendable && reply.Some? && Usable(reply.value)
  }

  /** The waits in seconds: 1, 2, 4 and so on up to 256, and then 300. */
  lemma {:induction false} WaitsAre(i: nat)
    ensures i <= 8 ==> Backoff(i) == [1, 2, 4, 8, 16, 32, 64, 128, 256][i]
    ensures i > 8 ==> Backoff(i) == 300
  {
    assert Doubled(8) == 256;
    if i > 8 { AtLeast(i); }
  }

  lemma {:induction false} AtLeast(i: nat)
    requires i > 8
    ensures Doubled(i) >= 300
  {
    assert Doubled(8) == 256;
    if i > 9 { AtLeast(i - 1); }
  }

  /** The plan of a configuration, one write after the other. */
  lemma PlanSplits(r: Response, now: string)
    ensures ConfigurationWrites(r, now) ==
            Optional(AgentToken, r.agentToken) + (Optional(PortalConfiguration, r.configuration)
            + (Optional(PortalPolicy, r.policy) + (Optional(ConfigurationVersion, r.configurationVersion)
            + [Write(LastSync, now)])))
  {
  }
}
