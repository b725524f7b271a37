/** Registration and configuration as a state machine: what is stored, in which order, when any
    write may be the last one before a failure or a crash. */
module Registration {
  import opened Common

  /** What the Portal answers; an empty string stands for an absent field. */
  datatype Response = Response(
    agentUuid: string, agentToken: string, configuration: string, policy: string,
    registrationTime: string, configurationVersion: string)

  datatype Write = Write(key: Key, value: string)

  // ---------------------------------------------------------------- what is written

  function Optional(key: Key, value: string): seq<Write> {
    if value == "" then [] else [Write(key, value)]
  }

  function ConfigurationWrites(r: Response, now: string): seq<Write> {
    Optional(AgentToken, r.agentToken) + Optional(PortalConfiguration, r.configuration) +
    Optional(PortalPolicy, r.policy) + Optional(ConfigurationVersion, r.configurationVersion) + [Write(LastSync, now)]
  }

  /** UUID, token and time come first; the configuration stores the token again. */
  function RegistrationWrites(r: Response, now: string): seq<Write> {
    [Write(AgentUuid, r.agentUuid), Write(AgentToken, r.agentToken),
     Write(RegistrationTime, if r.registrationTime == "" then now else r.registrationTime)] +
    ConfigurationWrites(r, now)
  }

  function After(config: map<Key, string>, writes: seq<Write>): map<Key, string> {
    if writes == [] then config
    else
      var last := writes[|writes| - 1];
      After(config, writes[..|writes| - 1])[last.key := last.value]
  }

  ghost predicate NoWriteTo(key: Key, writes: seq<Write>) {
    forall i :: 0 <= i < |writes| ==> writes[i].key != key
  }

  /** A key written by no step keeps its value. */
  lemma {:induction false} UntouchedKept(config: map<Key, string>, writes: seq<Write>, key: Key)
    requires NoWriteTo(key, writes)
    ensures key in After(config, writes) <==> key in config
    ensures key in config ==> After(config, writes)[key] == config[key]
  {
    if writes != [] { UntouchedKept(config, writes[..|writes| - 1], key); }
  }

  /** A key written at least once, always with one value, holds it. */
  lemma {:induction false} WrittenHolds(config: map<Key, string>, writes: seq<Write>, key: Key, value: string)
    requires exists i :: 0 <= i < |writes| && writes[i].key == key
    requires forall i :: 0 <= i < |writes| && writes[i].key == key ==> writes[i].value == value
    ensures key in After(config, writes) && After(config, writes)[key] == value
  {
    var n := |writes| - 1;
    if writes[n].key != key { WrittenHolds(config, writes[..n], key, value); }
  }

  /** What an interrupted registration leaves behind: nothing, the UUID alone, or UUID and token. */
  lemma RegistrationPrefix(config: map<Key, string>, r: Response, now: string, written: nat)
    requires written <= |RegistrationWrites(r, now)| && r.agentToken != ""
    ensures var after := After(config, RegistrationWrites(r, now)[..written]);
            && (written == 0 ==> after == config)
            && (written >= 1 ==> AgentUuid in after && after[AgentUuid] == r.agentUuid)
            && (written == 1 ==> (AgentToken in after <==> AgentToken in config))
            && (written >= 2 ==> AgentToken in after && after[AgentToken] == r.agentToken)
  {
    var writes := RegistrationWrites(r, now)[..written];
    if written >= 1 {
      assert writes[0].key == AgentUuid;
      WrittenHolds(config, writes, AgentUuid, r.agentUuid);
    }
    if written == 1 { UntouchedKept(config, writes, AgentToken); }
    if written >= 2 {
      assert writes[1].key == AgentToken;
      WrittenHolds(config, writes, AgentToken, r.agentToken);
    }
  }

  /** A field that is present is stored under the key, and one that is absent leaves it alone. */
  predicate Takes(before: map<Key, string>, after: map<Key, string>, key: Key, field: string) {
    if field != "" then key in after && after[key] == field
    else (key in after <==> key in before) && (key in before ==> after[key] == before[key])
  }

  /** What a stored configuration means, key by key. */
  ghost predicate HoldsConfiguration(before: map<Key, string>, after: map<Key, string>, r: Response, now: string) {
    && Takes(before, after, AgentToken, r.agentToken)
    && Takes(before, after, PortalConfiguration, r.configuration)
    && Takes(before, after, PortalPolicy, r.policy)
    && Takes(before, after, ConfigurationVersion, r.configurationVersion)
    && LastSync in after && after[LastSync] == now
    && KeepsOthers(before, after, {AgentToken, PortalConfiguration, PortalPolicy, ConfigurationVersion, LastSync})
  }

  /** What a stored registration means, key by key. */
  ghost predicate HoldsRegistration(before: map<Key, string>, after: map<Key, string>, r: Response, now: string) {
    && AgentUuid in after && after[AgentUuid] == r.agentUuid
    && AgentToken in after && after[AgentToken] == r.agentToken
    && RegistrationTime in after
    && after[RegistrationTime] == (if r.registrationTime == "" then now else r.registrationTime)
    && Takes(before, after, PortalConfiguration, r.configuration)
    && Takes(before, after, PortalPolicy, r.policy)
    && Takes(before, after, ConfigurationVersion, r.configurationVersion)
    && LastSync in after && after[LastSync] == now
    && KeepsOthers(before, after, {AgentUuid, AgentToken, RegistrationTime, PortalConfiguration, PortalPolicy,
                                   ConfigurationVersion, LastSync})
  }

  ghost predicate KeepsOthers(before: map<Key, string>, after: map<Key, string>, written: set<Key>) {
    forall key :: key !in written ==>
                    (key in after <==> key in before) && (key in before ==> after[key] == before[key])
  }

  lemma {:induction false} AfterConcat(config: map<Key, string>, a: seq<Write>, b: seq<Write>)
    ensures After(config, a + b) == After(After(config, a), b)
    decreases |b|
  {
    if b == [] {
      assert a + b == a;
    } else {
      assert (a + b)[..|a + b| - 1] == a + b[..|b| - 1];
      AfterConcat(config, a, b[..|b| - 1]);
    }
  }

  lemma AfterOptional(config: map<Key, string>, key: Key, value: string)
    ensures var after := After(config, Optional(key, value));
            Takes(config, after, key, value) && KeepsOthers(config, after, {key})
  {
    assert Optional(key, value) != [] ==> Optional(key, value)[..0] == [];
  }

  lemma AfterOne(config: map<Key, string>, w: Write)
    ensures After(config, [w]) == config[w.key := w.value]
  {
    assert [w][..0] == [];
  }

  /** All writes of a configuration, made one after the other. */
  lemma ConfigurationStored(config: map<Key, string>, r: Response, now: string)
    ensures HoldsConfiguration(config, After(config, ConfigurationWrites(r, now)), r, now)
  {
    hide After, Optional;
    var writes := ConfigurationWrites(r, now);
    var a, b := Optional(AgentToken, r.agentToken), Optional(PortalConfiguration, r.configuration);
    var c, d := Optional(PortalPolicy, r.policy), Optional(ConfigurationVersion, r.configurationVersion);
    var last := [Write(LastSync, now)];
    assert writes == a + b + c + d + last;
    AfterConcat(config, a + b + c + d, last);
    AfterConcat(config, a + b + c, d);
    AfterConcat(config, a + b, c);
    AfterConcat(config, a, b);
    AfterOptional(config, AgentToken, r.agentToken);
    AfterOptional(After(config, a), PortalConfiguration, r.configuration);
    AfterOptional(After(config, a + b), PortalPolicy, r.policy);
    AfterOptional(After(config, a + b + c), ConfigurationVersion, r.configurationVersion);
    AfterOne(After(config, a + b + c + d), last[0]);
  }

  /** All writes of a registration. */
  lemma RegistrationStored(config: map<Key, string>, r: Response, now: string)
    requires r.agentToken != ""
    ensures HoldsRegistration(config, After(config, RegistrationWrites(r, now)), r, now)
  {
    hide After, Optional, ConfigurationWrites;
    var time := if r.registrationTime == "" then now else r.registrationTime;
    var u, k, w := [Write(AgentUuid, r.agentUuid)], [Write(AgentToken, r.agentToken)], [Write(RegistrationTime, time)];
    assert RegistrationWrites(r, now) == u + k + w + ConfigurationWrites(r, now);
    AfterConcat(config, u + k + w, ConfigurationWrites(r, now));
    AfterConcat(config, u + k, w);
    AfterConcat(config, u, k);
    AfterOne(config, u[0]);
    AfterOne(After(config, u), k[0]);
    AfterOne(After(config, u + k), w[0]);
    ConfigurationStored(After(config, u + k + w), r, now);
  }

  // ---------------------------------------------------------------- the state machine

  /** `posts` counts registration requests and `uuidWrites` the times the UUID was stored; both are
      history variables. */
  datatype Boot = Boot(config: map<Key, string>, posts: nat, uuidWrites: nat)

  /** One call, with everything decided outside: whether the store could be read, whether there was
      anything to send, the usable reply if there was one, and how many writes were completed
      before a failure or a crash. */
  datatype Event =
    | EnsureRegistered(readable: bool, posted: bool, reply: Option<Response>, now: string, written: nat)
    | ReloadConfig(reply: Option<Response>, now: string, written: nat)
    | OtherPut(key: Key, value: string)

  predicate Usable(r: Response) { r.agentUuid != "" && r.agentToken != "" }

  /** The event gets as far as registering: the UUID is not stored yet and a usable reply arrives. */
  predicate Registers(s: Boot, e: Event) {
    && e.EnsureRegistered? && e.readable && AgentUuid !in s.config && e.posted
    && e.reply.Some? && Usable(e.reply.value) && e.written <= |RegistrationWrites(e.reply.value, e.now)|
  }

  function BootNext(s: Boot, e: Event): Option<Boot> {
    match e
    case EnsureRegistered(readable, posted, reply, now, written) =>
      if !readable || AgentUuid in s.config || !posted then Some(s)
      else if reply.None? || !Usable(reply.value) then Some(s.(posts := s.posts + 1))
      else if written > |RegistrationWrites(reply.value, now)| then None
      else Some(Boot(After(s.config, RegistrationWrites(reply.value, now)[..written]), s.posts + 1,
                     s.uuidWrites + if written > 0 then 1 else 0))
    case ReloadConfig(reply, now, written) =>
      if AgentToken !in s.config || reply.None? || reply.value.configuration == "" then Some(s)
      else if written > |ConfigurationWrites(reply.value, now)| then None
      else Some(s.(config := After(s.config, ConfigurationWrites(reply.value, now)[..written])))
    case OtherPut(key, value) =>
      if key.AgentUuid? || key.AgentToken? then None else Some(s.(config := s.config[key := value]))
  }

  function BootRun(s: Boot, events: seq<Event>): Option<Boot> {
    if events == [] then Some(s)
    else
      var before := BootRun(s, events[..|events| - 1]);
      if before.None? then None else BootNext(before.value, events[|events| - 1])
  }

  predicate Fresh(s: Boot) {
    AgentUuid !in s.config && AgentToken !in s.config && s.posts == 0 && s.uuidWrites == 0
  }

  predicate BootInv(s: Boot) {
    && (AgentToken in s.config ==> AgentUuid in s.config)
    && (AgentUuid in s.config ==> s.config[AgentUuid] != "")
    && s.uuidWrites == (if AgentUuid in s.config then 1 else 0)
  }

  /** Registered according to the local store, and without a token. */
  predicate Stuck(s: Boot) { AgentUuid in s.config && AgentToken !in s.config }

  lemma NextKeepsBootInv(s: Boot, e: Event)
    requires BootInv(s) && BootNext(s, e).Some?
    ensures BootInv(BootNext(s, e).value)
  {
    if Registers(s, e) {
      RegistrationPrefix(s.config, e.reply.value, e.now, e.written);
    } else if e.ReloadConfig? && BootNext(s, e).value != s {
      UntouchedKept(s.config, ConfigurationWrites(e.reply.value, e.now)[..e.written], AgentUuid);
    }
  }

  /** In every run: a stored token implies a stored UUID, the UUID is not empty, and it was written
      exactly once if it is there. */
  lemma {:induction false} RunKeepsBootInv(s0: Boot, events: seq<Event>, s: Boot)
    requires BootInv(s0) && BootRun(s0, events) == Some(s)
    ensures BootInv(s)
    decreases |events|
  {
    if events != [] {
      var before := BootRun(s0, events[..|events| - 1]).value;
      RunKeepsBootInv(s0, events[..|events| - 1], before);
      NextKeepsBootInv(before, events[|events| - 1]);
    }
  }

  /** Once the UUID is stored no step posts a registration or changes the UUID, and a missing token
      stays missing. */
  lemma RegisteredStep(s: Boot, e: Event)
    requires AgentUuid in s.config && BootNext(s, e).Some?
    ensures var s' := BootNext(s, e).value;
            && s'.posts == s.posts && s'.uuidWrites == s.uuidWrites
            && AgentUuid in s'.config && s'.config[AgentUuid] == s.config[AgentUuid]
            && (AgentToken in s'.config <==> AgentToken in s.config)
  {
    if e.ReloadConfig? && BootNext(s, e).value != s {
      ReloadKeepsToken(s.config, e.reply.value, e.now, e.written);
    }
  }

  lemma {:induction false} StaysStored(config: map<Key, string>, writes: seq<Write>, key: Key)
    requires key in config
    ensures key in After(config, writes)
  {
    if writes != [] { StaysStored(config, writes[..|writes| - 1], key); }
  }

  lemma ReloadKeepsToken(config: map<Key, string>, r: Response, now: string, written: nat)
    requires written <= |ConfigurationWrites(r, now)| && AgentToken in config && AgentUuid in config
    ensures var after := After(config, ConfigurationWrites(r, now)[..written]);
            AgentToken in after && AgentUuid in after && after[AgentUuid] == config[AgentUuid]
  {
    UntouchedKept(config, ConfigurationWrites(r, now)[..written], AgentUuid);
    StaysStored(config, ConfigurationWrites(r, now)[..written], AgentToken);
  }

  /** Registration is final: from the moment the UUID is stored, every run leaves it as it is and
      posts no further registration; without a token it also stays without one. */
  lemma {:induction false} RegistrationIsFinal(s0: Boot, events: seq<Event>, s: Boot)
    requires AgentUuid in s0.config && BootRun(s0, events) == Some(s)
    ensures s.posts == s0.posts && s.uuidWrites == s0.uuidWrites
    ensures AgentUuid in s.config && s.config[AgentUuid] == s0.config[AgentUuid]
    ensures Stuck(s) <==> Stuck(s0)
    decreases |events|
  {
    if events != [] {
      var before := BootRun(s0, events[..|events| - 1]).value;
      RegistrationIsFinal(s0, events[..|events| - 1], before);
      RegisteredStep(before, events[|events| - 1]);
    }
  }

  /** The i-th event registers, and stops between storing the UUID and storing the token. */
  ghost predicate CutShort(s0: Boot, events: seq<Event>, i: nat) {
    && i < |events| && BootRun(s0, events[..i]).Some?
    && Registers(BootRun(s0, events[..i]).value, events[i]) && events[i].written == 1
  }

  ghost predicate EverCutShort(s0: Boot, events: seq<Event>) {
    exists i: nat :: CutShort(s0, events, i)
  }

  lemma CutShortExtends(s0: Boot, events: seq<Event>, e: Event)
    requires BootRun(s0, events).Some?
    ensures EverCutShort(s0, events + [e]) <==>
            EverCutShort(s0, events) || (Registers(BootRun(s0, events).value, e) && e.written == 1)
  {
    var longer := events + [e];
    assert longer[..|events|] == events;
    forall i: nat | i < |events| ensures CutShort(s0, longer, i) <==> CutShort(s0, events, i) {
      assert longer[..i] == events[..i];
    }
    if Registers(BootRun(s0, events).value, e) && e.written == 1 { assert CutShort(s0, longer, |events|); }
  }

  /** What one step does to the token: it appears only with a registration that got past it. */
  lemma StuckAfter(s: Boot, e: Event)
    requires BootInv(s) && BootNext(s, e).Some?
    ensures Stuck(BootNext(s, e).value) <==> Stuck(s) || (Registers(s, e) && e.written == 1)
  {
    if AgentUuid in s.config {
      RegisteredStep(s, e);
    } else if Registers(s, e) {
      RegistrationPrefix(s.config, e.reply.value, e.now, e.written);
    }
  }

  /** An agent ends up with a UUID and no token exactly when some registration was cut short between
      the two writes. */
  lemma {:induction false} StuckIffCutShort(s0: Boot, events: seq<Event>, s: Boot)
    requires Fresh(s0) && BootRun(s0, events) == Some(s)
    ensures Stuck(s) <==> EverCutShort(s0, events)
    decreases |events|
  {
    if events != [] {
      var front, last := events[..|events| - 1], events[|events| - 1];
      var before := BootRun(s0, front).value;
      RunKeepsBootInv(s0, front, before);
      StuckIffCutShort(s0, front, before);
      StuckAfter(before, last);
      assert events == front + [last];
      CutShortExtends(s0, front, last);
    }
  }

  /** It happens: whatever the usable reply, a new agent whose first registration stops after one
      write is stuck. */
  lemma FirstRegistrationCutShort(s0: Boot, reply: Response, now: string)
    requires Fresh(s0) && Usable(reply)
    ensures var e := EnsureRegistered(true, true, Some(reply), now, 1);
            BootRun(s0, [e]).Some? && Stuck(BootRun(s0, [e]).value) && CutShort(s0, [e], 0)
  {
    var e := EnsureRegistered(true, true, Some(reply), now, 1);
    RegistrationPrefix(s0.config, reply, now, 1);
    assert [e][..0] == [];
    assert BootRun(s0, []) == Some(s0);
  }
}
