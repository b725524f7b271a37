/** The shared authenticated transport: `SendJSON`, `Flush`, `send`, `queueOnFailure`.

    The engine carries the state of the delivery protocol as a ghost field and moves it with
    every statement, so that each method's contract includes the run of `Protocol` it
    performs. */
module SyncEngine {
  import opened Common
  import opened Protocol
  import opened Backlog
  import opened Storage
  import Steps
  import opened HttpClient
  import Signing

  datatype SyncError =
    | StorageFailed | NotRegistered | RequestFailed | ReadFailed
    | StatusFailed(status: int) | InvalidResponse
    | QueueFailed(cause: SyncError)
    | ErrQueued(cause: SyncError)

  /** errors.Is(err, ErrQueued) */
  predicate IsQueued(err: Option<SyncError>) { err.Some? && err.value.ErrQueued? }

  // ---------------------------------------------------------------- specification

  /** The rows left when the first `n` routable rows are gone. */
  function WithoutFirst(rows: seq<Row>, n: nat): seq<Row> {
    if n == 0 || rows == [] then rows
    else if Routable(rows[0].kind) then WithoutFirst(rows[1..], n - 1)
    else [rows[0]] + WithoutFirst(rows[1..], n)
  }

  function Window(rows: seq<Row>): seq<Row> { rows[..Min(WINDOW, |rows|)] }

  /** What a pass over `rows0` leaves: the first `sent` routable rows are gone and nothing else,
      so the count it returns is the drop in queue size; a pass that returned nil has removed
      every routable row of the window. */
  ghost predicate PassResult(rows0: seq<Row>, rows: seq<Row>, sent: nat, complete: bool) {
    && rows == WithoutFirst(rows0, sent) && |rows| == |rows0| - sent
    && sent <= |Routables(Window(rows0))|
    && (complete ==> sent == |Routables(Window(rows0))|)
  }

  lemma {:induction false} WithoutFirstPrefix(a: seq<Row>, b: seq<Row>)
    ensures WithoutFirst(a + b, |Routables(a)|) == Others(a) + b
  {
    if a == [] {
      assert a + b == b;
    } else {
      assert (a + b)[1..] == a[1..] + b;
      WithoutFirstPrefix(a[1..], b);
      if Routables(a) == [] && !Routable(a[0].kind) {
        assert WithoutFirst(a[1..] + b, 0) == a[1..] + b;
      }
    }
  }

  // ---------------------------------------------------------------- what is posted

  predicate HasToken(config: map<Key, string>) { AgentToken in config && config[AgentToken] != "" }

  function Token(config: map<Key, string>): Bytes {
    if AgentToken in config then config[AgentToken] else ""
  }

  function JsonHeaders(token: Bytes): map<Signing.Header, string> {
    map[Signing.OtherHeader("Authorization") := "Bearer " + token,
        Signing.OtherHeader("Content-Type") := "application/json"]
  }

  /** The offer posts these bytes to this endpoint, signed with the token unless it was not sent. */
  ghost predicate Posts(crypto: Signing.Crypto, token: Bytes, endpoint: string, payload: Bytes, offer: Offer) {
    && Carries(offer, "POST", endpoint, payload, JsonHeaders(token))
    && (offer.outcome.NotSigned? || Signed(crypto, token, offer))
  }

  ghost predicate Signed(crypto: Signing.Crypto, token: Bytes, offer: Offer) {
    exists now, nonce ::
      Signing.SignedAt(crypto, token, offer.verb, offer.path, offer.headers, offer.body, now, nonce)
  }

  /** The attempts of one send: all of them post these bytes to this endpoint under the stored token,
      and only the last one reached a decision. */
  ghost predicate Transmits(crypto: Signing.Crypto, config: map<Key, string>, endpoint: string, payload: Bytes,
                       made: seq<Offer>) {
    made != [] ==>
      && HasToken(config) && Decided(Outcomes(made))
      && forall i :: 0 <= i < |made| ==> Posts(crypto, Token(config), endpoint, payload, made[i])
  }

  lemma NothingSent(crypto: Signing.Crypto, config: map<Key, string>, endpoint: string, payload: Bytes)
    ensures Transmits(crypto, config, endpoint, payload, [])
  {
  }

  /** The last attempt was acknowledged. */
  predicate EndsAcked(made: seq<Offer>) { made != [] && Acceptable(made[|made| - 1].outcome) }

  lemma LastOutcome(made: seq<Offer>)
    requires made != []
    ensures Outcomes(made)[|made| - 1] == made[|made| - 1].outcome
  {
  }

  lemma AllPost(crypto: Signing.Crypto, token: Bytes, endpoint: string, payload: Bytes, made: seq<Offer>,
                drawn: seq<Draw>)
    requires token != "" && AllGood(crypto, token, "POST", endpoint, payload, JsonHeaders(token), made, drawn)
    ensures forall i :: 0 <= i < |made| ==> Posts(crypto, token, endpoint, payload, made[i])
  {
    forall i | 0 <= i < |made| ensures Posts(crypto, token, endpoint, payload, made[i]) {
      assert SignedFrom(crypto, token, made[i], drawn[i]);
    }
  }

  /** What the agent makes of an attempt. */
  function Judgement(o: Outcome): (cause: Option<SyncError>)
    ensures cause.None? <==> Acceptable(o)
    ensures cause.Some? ==> !cause.value.ErrQueued?
  {
    if !o.Replied? then Some(RequestFailed)
    else if o.body.Unreadable? then Some(ReadFailed)
    else if o.status < 200 || o.status >= 300 then Some(StatusFailed(o.status))
    else if o.body.InvalidJson? then Some(InvalidResponse)
    else None
  }

  /** What a live send reports when its attempts ended with `cause`. */
  function Reported(cause: Option<SyncError>, insert: Insert): Option<SyncError> {
    if cause.None? then None
    else match insert
      case Cancelled => cause
      case InsertFailed => Some(QueueFailed(cause.value))
      case Inserted => Some(ErrQueued(cause.value))
  }

  /** Without a token nothing is sent, and the error tells why. */
  function TokenError(faultless: bool): SyncError { if faultless then NotRegistered else StorageFailed }

  /** What is decided inside a live send follows from the database and the context: the token is read
      unless it is missing or a statement failed, and a payload that was not acknowledged is inserted
      unless the context is cancelled or a statement failed. */
  ghost predicate Accounted(config: map<Key, string>, cancelled: bool, faultless: bool, token: bool,
                            made: seq<Offer>, insert: Insert) {
    && (token ==> HasToken(config)) && (faultless && HasToken(config) ==> token)
    && (token <==> made != [])
    && (token && !EndsAcked(made) ==>
          && (insert.Cancelled? <==> cancelled)
          && (insert.InsertFailed? ==> !faultless))
  }

  /** The offers of a pass over the routable rows `rows`: the i-th one replays row `at[i]` to the route
      of its type. Rows are replayed in order and one at a time, attempts of one row are repeated only
      after transport errors, and the first `sent` rows were acknowledged. */
  ghost predicate Replays(crypto: Signing.Crypto, config: map<Key, string>, rows: seq<Row>, made: seq<Offer>,
                          at: seq<nat>, sent: nat) {
    && |at| == |made| && sent <= |rows| && (made != [] ==> HasToken(config))
    && (forall i :: 0 <= i < |at| ==>
          && at[i] <= sent && at[i] < |rows|
          && Posts(crypto, Token(config), RouteForType(rows[at[i]].kind), rows[at[i]].payload, made[i]))
    && (forall i, j :: 0 <= i < j < |at| ==> at[i] < at[j] || (at[i] == at[j] && TransportError(made[i].outcome)))
    && (forall k :: 0 <= k < sent ==> AckedFor(made, at, k))
  }

  ghost predicate AckedFor(made: seq<Offer>, at: seq<nat>, k: nat) {
    exists i :: 0 <= i < |at| && i < |made| && at[i] == k && Acceptable(made[i].outcome)
  }

  /** Every row replayed so far is done with. */
  ghost predicate Settled(at: seq<nat>, sent: nat) { forall i :: 0 <= i < |at| ==> at[i] < sent }

  /** A pass comes to its end unless a statement failed, the token is missing though needed, or the last
      attempt was not acknowledged. */
  ghost predicate Completes(config: map<Key, string>, rows: seq<Row>, made: seq<Offer>, faultless: bool) {
    && faultless && (rows == [] || HasToken(config)) && (made == [] || EndsAcked(made))
  }

  /** One more row was tried. */
  lemma OneMoreRow(crypto: Signing.Crypto, config: map<Key, string>, rows: seq<Row>, made: seq<Offer>, at: seq<nat>,
                   sent: nat, more: seq<Offer>, done: bool)
    requires Replays(crypto, config, rows, made, at, sent) && Settled(at, sent) && sent < |rows|
    requires Transmits(crypto, config, RouteForType(rows[sent].kind), rows[sent].payload, more)
    requires done ==> EndsAcked(more)
    ensures var at' := at + seq(|more|, _ => sent);
            && Replays(crypto, config, rows, made + more, at', if done then sent + 1 else sent)
            && (done ==> Settled(at', sent + 1))
  {
    hide Posts;
    var at' := at + seq(|more|, _ => sent);
    var made' := made + more;
    forall i, j | 0 <= i < j < |at'|
      ensures at'[i] < at'[j] || (at'[i] == at'[j] && TransportError(made'[i].outcome))
    {
      if i >= |at| { assert Outcomes(more)[i - |at|] == made'[i].outcome; }
    }
    forall k | 0 <= k < (if done then sent + 1 else sent) ensures AckedFor(made', at', k) {
      if k < sent {
        assert AckedFor(made, at, k);
        var i :| 0 <= i < |at| && at[i] == k && Acceptable(made[i].outcome);
        assert at'[i] == k && made'[i] == made[i];
      } else {
        var last := |made'| - 1;
        assert at'[last] == k && made'[last] == more[|more| - 1];
      }
    }
  }

  // ---------------------------------------------------------------- the protocol's view of one send

  function Attempts(p: Proc, outcomes: seq<Outcome>): seq<Label> {
    seq(|outcomes|, i requires 0 <= i < |outcomes| => Step(p, Attempt(outcomes[i])))
  }

  /** What a live send does after it has taken the mutex, from the facts that decide it: whether the
      token could be read, what became of the attempts, and of the insert if one was due. */
  function SendLabels(p: Proc, token: bool, outcomes: seq<Outcome>, insert: Insert): seq<Label>
    requires token ==> outcomes != []
  {
    [Step(p, Action.ReadToken(token))] +
    if !token then []
    else Attempts(p, outcomes) + if Acceptable(outcomes[|outcomes| - 1]) then [] else [Step(p, Queue(insert))]
  }

  lemma SendLabelsAppended(run: seq<Label>, p: Proc, token: bool, outcomes: seq<Outcome>, insert: Insert)
    requires token ==> outcomes != []
    ensures var read := run + [Step(p, Action.ReadToken(token))];
            run + SendLabels(p, token, outcomes, insert) ==
            if !token then read
            else if Acceptable(outcomes[|outcomes| - 1]) then read + Attempts(p, outcomes)
            else read + Attempts(p, outcomes) + [Step(p, Queue(insert))]
  {
  }

  /** Its error, from the same facts. */
  ghost predicate SendOutcome(err: Option<SyncError>, token: bool, outcomes: seq<Outcome>, insert: Insert) {
    && (token ==> Decided(outcomes))
    && (err.None? <==> token && Acceptable(outcomes[|outcomes| - 1]))
    && (IsQueued(err) <==> token && !Acceptable(outcomes[|outcomes| - 1]) && insert.Inserted?)
  }

  /** What `Client.Do` can report about its attempts: at most four, and fewer only after a decision. */
  ghost predicate Decided(outcomes: seq<Outcome>) {
    && 0 < |outcomes| <= 4
    && (forall i :: 0 <= i < |outcomes| - 1 ==> TransportError(outcomes[i]))
    && (|outcomes| < 4 ==> !TransportError(outcomes[|outcomes| - 1]))
  }

  ghost predicate SendingAt(pc: Pc, attempt: nat) {
    (pc.FlushSending? && pc.attempt == attempt && pc.pass.index < |pc.pass.items|) ||
    (pc.LiveSending? && pc.attempt == attempt)
  }

  lemma OneMoreAttempt(cfg: Config, s: State, p: Proc, attempt: nat, o: Outcome)
    requires SendingAt(s.pcs.At(p), attempt) && attempt < RETRIES && TransportError(o)
    ensures Next(cfg, s, Step(p, Attempt(o))).Some?
    ensures var s' := Next(cfg, s, Step(p, Attempt(o))).value;
            s' == s.(received := s'.received, pcs := s.pcs.With(p, s.pcs.At(p).(attempt := attempt + 1)))
  {
  }

  /** Transport errors repeat the attempt and change nothing but the Portal's log. */
  lemma {:induction false} TransportErrorsRepeat(cfg: Config, s: State, p: Proc, outcomes: seq<Outcome>)
    requires SendingAt(s.pcs.At(p), 0) && |outcomes| <= RETRIES
    requires forall i :: 0 <= i < |outcomes| ==> TransportError(outcomes[i])
    ensures Run(cfg, s, Attempts(p, outcomes)).Some?
    ensures var s' := Run(cfg, s, Attempts(p, outcomes)).value;
            s' == s.(received := s'.received, pcs := s.pcs.With(p, s.pcs.At(p).(attempt := |outcomes|)))
    decreases |outcomes|
  {
    if outcomes == [] {
      RewriteChangesNothing(s.pcs, p);
    } else {
      hide Next, TransportError;
      var n := |outcomes| - 1;
      TransportErrorsRepeat(cfg, s, p, outcomes[..n]);
      assert Attempts(p, outcomes)[..n] == Attempts(p, outcomes[..n]);
      LaterWriteWins(s.pcs, p, s.pcs.At(p).(attempt := n));
      OneMoreAttempt(cfg, Run(cfg, s, Attempts(p, outcomes[..n])).value, p, n, outcomes[n]);
    }
  }

  /** The state a decisive attempt leads to. */
  ghost predicate Ended(cfg: Config, s: State, p: Proc, last: Outcome, s': State) {
    var pc := s.pcs.At(p);
    if pc.FlushSending? then
      && pc.pass.index < |pc.pass.items|
      && if Acceptable(last) then
           s' == s.(received := s'.received, acked := s.acked + [Replay(pc.pass.items[pc.pass.index])],
                    pcs := s.pcs.With(p, FlushDeleting(pc.pass)))
         else
           s' == s.(received := s'.received, holders := s.holders - {cfg.engine(p)},
                    pcs := s.pcs.With(p, Flushed(false)))
    else
      && pc.LiveSending?
      && if Acceptable(last) then
           s' == s.(received := s'.received, acked := s.acked + [Live(KindOf(p), pc.payload)],
                    holders := s.holders - {cfg.engine(p)}, pcs := s.pcs.With(p, Persisting(pc.payload)))
         else
           s' == s.(received := s'.received, pcs := s.pcs.With(p, LiveFailed(pc.payload)))
  }

  lemma LastAttempt(cfg: Config, s: State, p: Proc, attempt: nat, o: Outcome)
    requires SendingAt(s.pcs.At(p), attempt) && (attempt >= RETRIES || !TransportError(o))
    ensures Next(cfg, s, Step(p, Attempt(o))).Some?
    ensures Ended(cfg, s, p, o, Next(cfg, s, Step(p, Attempt(o))).value)
  {
  }

  /** One whole send, as a run of the protocol. */
  lemma SendEnds(cfg: Config, s: State, p: Proc, outcomes: seq<Outcome>)
    requires SendingAt(s.pcs.At(p), 0) && Decided(outcomes)
    ensures Run(cfg, s, Attempts(p, outcomes)).Some?
    ensures Ended(cfg, s, p, outcomes[|outcomes| - 1], Run(cfg, s, Attempts(p, outcomes)).value)
  {
    var n := |outcomes| - 1;
    TransportErrorsRepeat(cfg, s, p, outcomes[..n]);
    assert Attempts(p, outcomes)[..n] == Attempts(p, outcomes[..n]);
    LastAttempt(cfg, Run(cfg, s, Attempts(p, outcomes[..n])).value, p, n, outcomes[n]);
  }

  lemma Sends(cfg: Config, start: State, run: seq<Label>, s: State, p: Proc, outcomes: seq<Outcome>)
    requires Run(cfg, start, run) == Some(s) && SendingAt(s.pcs.At(p), 0) && Decided(outcomes)
    ensures Run(cfg, start, run + Attempts(p, outcomes)).Some?
    ensures Ended(cfg, s, p, outcomes[|outcomes| - 1], Run(cfg, start, run + Attempts(p, outcomes)).value)
  {
    SendEnds(cfg, s, p, outcomes);
    RunConcat(cfg, start, run, Attempts(p, outcomes));
  }

  lemma ReachableExtends(cfg: Config, s: State, labels: seq<Label>, s': State)
    requires Reachable(cfg, s) && Run(cfg, s, labels) == Some(s')
    ensures Reachable(cfg, s')
  {
    var s0, before :| Init(s0) && Run(cfg, s0, before) == Some(s);
    RunConcat(cfg, s0, before, labels);
  }

  class Engine {
    const db: Database
    const client: Client
    ghost const cfg: Config
    ghost var sys: State

    /** The protocol state mirrors the database. */
    ghost predicate Mirrors()
      reads this`sys, db`queue, db`config, db`tickets
    {
      db.Rows() == sys.rows && db.config == sys.config && db.tickets == |sys.enqueued|
    }

    ghost predicate Valid()
      reads this`sys, db`queue, db`config, db`tickets
    {
      && Mirrors()
      && client.retries == RETRIES
      && SingleEngine(cfg) && Reachable(cfg, sys)
    }

    /** Opened on any database the agent can have left behind, with no goroutine running. */
    constructor (crypto: Signing.Crypto, db: Database, ghost cfg: Config, ghost start: State)
      requires SingleEngine(cfg) && Reachable(cfg, start) && start.pcs == ALL_IDLE && start.holders == map[]
      requires start.rows == db.Rows() && start.config == db.config && |start.enqueued| == db.tickets
      ensures Valid() && sys == start && this.db == db && this.cfg == cfg && fresh(client)
    {
      this.db := db;
      client := new Client(crypto, RETRIES);
      this.cfg := cfg;
      sys := start;
    }

    /** The stored token, if it can be read and is not empty. */
    method ReadToken() returns (token: Option<Bytes>, err: SyncError)
      modifies db`faults
      ensures db.faults >= old(db.faults)
      ensures token == if db.faults == old(db.faults) && HasToken(db.config) then Some(Token(db.config)) else None
      ensures token.None? ==> err == TokenError(db.faults == old(db.faults))
      ensures token.Some? ==> !err.ErrQueued?
    {
      var ok, value := db.GetSecret(AgentToken);
      if !ok { return None, StorageFailed; }
      if value.None? || value.value == "" { return None, NotRegistered; }
      return value, NotRegistered;
    }

    /** Posts the payload and judges the reply; `err` is None exactly on an acknowledgement. */
    method Post(token: Bytes, endpoint: string, payload: Bytes, sizes: nat -> nat)
      returns (err: Option<SyncError>, ghost made: seq<Offer>)
      requires token != "" && client.retries == RETRIES && (forall i :: sizes(i) > 0)
      modifies client
      ensures client.offers == old(client.offers) + made && made != [] && Decided(Outcomes(made))
      ensures forall i :: 0 <= i < |made| ==> Posts(client.crypto, token, endpoint, payload, made[i])
      ensures err == Judgement(made[|made| - 1].outcome)
    {
      hide AllGood, Posts;
      client.token := token;
      var body := new Signing.ByteReader(payload);
      var request := new Signing.Request("POST", endpoint, body);
      request.headers := request.headers[Signing.OtherHeader("Authorization") := "Bearer " + token];
      request.headers := request.headers[Signing.OtherHeader("Content-Type") := "application/json"];
      assert request.headers == JsonHeaders(token);
      hide JsonHeaders;
      var result;
      ghost var drawn;
      result, made, drawn := client.Do(request, sizes);
      AllPost(client.crypto, token, endpoint, payload, made, drawn);
      assert Outcomes(made)[|made| - 1] == made[|made| - 1].outcome;
      if !result.Answer? { return Some(RequestFailed), made; }
      var reply := result.reply;
      if reply.body.Unreadable? { return Some(ReadFailed), made; }
      if reply.status < 200 || reply.status >= 300 { return Some(StatusFailed(reply.status)), made; }
      if !reply.body.Blank? && !reply.body.ValidJson? { return Some(InvalidResponse), made; }
      return None, made;
    }

    /** `send` as `Flush` uses it, for the row at hand: no queueing on failure. */
    method SendRow(ghost p: Proc, ghost start: State, ghost run: seq<Label>, ghost pass: Pass,
                   endpoint: string, payload: Bytes, sizes: nat -> nat)
      returns (err: Option<SyncError>, ghost trace: seq<Label>, ghost made: seq<Offer>)
      requires Mirrors() && client.retries == RETRIES && (forall i :: sizes(i) > 0)
      requires Run(cfg, start, run) == Some(sys)
      requires sys.pcs.At(p) == Flushing(pass) && AtRoutable(pass)
      modifies this`sys, client, db`faults
      ensures Mirrors() && Run(cfg, start, trace) == Some(sys)
      ensures sys.rows == old(sys.rows) && sys.config == old(sys.config) && sys.enqueued == old(sys.enqueued)
      // these bytes are posted to this endpoint, unless there is no token to sign with
      ensures client.offers == old(client.offers) + made
      ensures db.faults >= old(db.faults)
      ensures Transmits(client.crypto, db.config, endpoint, payload, made)
      ensures made == [] <==> db.faults != old(db.faults) || !HasToken(db.config)
      ensures err == if made == [] then Some(TokenError(db.faults == old(db.faults)))
                     else Judgement(made[|made| - 1].outcome)
      ensures err.None? ==>
                && sys.pcs == old(sys.pcs).With(p, FlushDeleting(pass)) && sys.holders == old(sys.holders)
                && sys.acked == old(sys.acked) + [Replay(pass.items[pass.index])]
      ensures err.Some? ==>
                && sys.pcs == old(sys.pcs).With(p, Flushed(false))
                && sys.holders == old(sys.holders) - {cfg.engine(p)}
                && sys.acked == old(sys.acked)
    {
      hide Posts, Run, Attempts, Decided, Scan, Judgement;
      var token, failure := ReadToken();
      made := [];
      Steps.ReadsTokenForRow(cfg, start, run, sys, p, pass, token.Some?);
      trace := run + [Step(p, Action.ReadToken(token.Some?))];
      sys := Run(cfg, start, trace).value;
      if token.None? { return Some(failure), trace, made; }
      err, made := Post(token.value, endpoint, payload, sizes);
      ghost var outcomes := Outcomes(made);
      Sends(cfg, start, trace, sys, p, outcomes);
      trace := trace + Attempts(p, outcomes);
      sys := Run(cfg, start, trace).value;
    }

    /** `send` as `SendJSON` uses it: takes the mutex, posts, and on failure queues unless the context
        is cancelled by then. */
    method SendJSON(ghost p: Proc, ghost drained: bool, endpoint: string, kind: Kind, payload: Bytes,
                    cancelled: bool, sizes: nat -> nat)
      returns (err: Option<SyncError>, ghost trace: seq<Label>,
               ghost token: bool, ghost made: seq<Offer>, ghost insert: Insert)
      requires Valid() && (forall i :: sizes(i) > 0)
      requires sys.pcs.At(p) == Ready(payload, drained) && kind == KindOf(p)
      // the queue replays a payload to the endpoint it is sent to live
      requires endpoint == RouteForType(kind)
      requires cfg.engine(p) !in sys.holders
      modifies this`sys, client, db
      ensures Valid() && Run(cfg, old(sys), trace) == Some(sys)
      // these bytes are posted to this endpoint
      ensures client.offers == old(client.offers) + made
      ensures db.faults >= old(db.faults)
      ensures Transmits(client.crypto, db.config, endpoint, payload, made)
      // what is decided on the way has its cause outside
      ensures Accounted(db.config, cancelled, db.faults == old(db.faults), token, made, insert)
      // the result, and the run, follow from the token, the attempts and the insert
      ensures SendOutcome(err, token, Outcomes(made), insert)
      ensures err == if !token then Some(TokenError(db.faults == old(db.faults)))
                     else Reported(Judgement(made[|made| - 1].outcome), insert)
      ensures trace == [Step(p, LockForSend)] + SendLabels(p, token, Outcomes(made), insert)
      ensures db.config == old(db.config) && sys.holders == old(sys.holders)
      // nil exactly when the Portal acknowledged
      ensures sys.acked == if err.None? then old(sys.acked) + [Live(kind, payload)] else old(sys.acked)
      // ErrQueued exactly when one pending row with this type and these bytes was appended
      ensures db.Rows() == if IsQueued(err)
                           then old(db.Rows()) + [Row(NextId(old(db.Rows())), kind, payload, old(db.tickets))]
                           else old(db.Rows())
      ensures sys.pcs == old(sys.pcs).With(p, if err.None? || IsQueued(err) then Persisting(payload) else Idle)
    {
      hide Run, Reachable, Scan, Posts, Transmits, Accounted, SendLabels, SendOutcome;
      ghost var start := sys;
      NoSteps(cfg, start);
      Steps.LocksForSend(cfg, start, [], sys, p, payload, drained);
      trace := [] + [Step(p, LockForSend)];
      sys := Run(cfg, start, trace).value;
      err, trace, token, made, insert := SendLive(p, start, trace, drained, endpoint, kind, payload, cancelled, sizes);
      assert start.holders[cfg.engine(p) := p] - {cfg.engine(p)} == start.holders;
      ReachableExtends(cfg, start, trace, sys);
    }

    method SendLive(ghost p: Proc, ghost start: State, ghost run: seq<Label>, ghost drained: bool,
                    endpoint: string, kind: Kind, payload: Bytes, cancelled: bool, sizes: nat -> nat)
      returns (err: Option<SyncError>, ghost trace: seq<Label>,
               ghost token: bool, ghost made: seq<Offer>, ghost insert: Insert)
      requires Mirrors() && client.retries == RETRIES && (forall i :: sizes(i) > 0)
      requires Run(cfg, start, run) == Some(sys)
      requires sys.pcs.At(p) == SendLocked(payload, drained) && kind == KindOf(p)
      modifies this`sys, client, db
      ensures Mirrors() && Run(cfg, start, trace) == Some(sys)
      ensures client.offers == old(client.offers) + made
      ensures db.faults >= old(db.faults)
      ensures Transmits(client.crypto, db.config, endpoint, payload, made)
      ensures Accounted(db.config, cancelled, db.faults == old(db.faults), token, made, insert)
      ensures SendOutcome(err, token, Outcomes(made), insert)
      ensures err == if !token then Some(TokenError(db.faults == old(db.faults)))
                     else Reported(Judgement(made[|made| - 1].outcome), insert)
      ensures trace == run + SendLabels(p, token, Outcomes(made), insert)
      ensures db.config == old(db.config) && sys.holders == old(sys.holders) - {cfg.engine(p)}
      ensures sys.acked == if err.None? then old(sys.acked) + [Live(kind, payload)] else old(sys.acked)
      ensures db.Rows() == if IsQueued(err)
                           then old(db.Rows()) + [Row(NextId(old(db.Rows())), kind, payload, old(db.tickets))]
                           else old(db.Rows())
      ensures sys.pcs == old(sys.pcs).With(p, if err.None? || IsQueued(err) then Persisting(payload) else Idle)
    {
      hide Run, Scan, NextId, Attempts, SendLabels, Decided, Posts, Judgement, Reported;
      var value, failure := ReadToken();
      token, made, insert := value.Some?, [], Cancelled;
      Steps.ReadsTokenForPayload(cfg, start, run, sys, p, payload, drained, token);
      trace := run + [Step(p, Action.ReadToken(token))];
      sys := Run(cfg, start, trace).value;
      if value.None? {
        err := Some(failure);
      } else {
        err, trace, made, insert := Deliver(p, start, trace, drained, value.value, endpoint, kind, payload, cancelled,
                                            sizes);
        LastOutcome(made);
      }
      SendLabelsAppended(run, p, token, Outcomes(made), insert);
    }

    /** Posts, and on failure queues. */
    method Deliver(ghost p: Proc, ghost start: State, ghost run: seq<Label>, ghost drained: bool, token: Bytes,
                   endpoint: string, kind: Kind, payload: Bytes, cancelled: bool, sizes: nat -> nat)
      returns (err: Option<SyncError>, ghost trace: seq<Label>, ghost made: seq<Offer>, ghost insert: Insert)
      requires Mirrors() && client.retries == RETRIES && (forall i :: sizes(i) > 0)
      requires Run(cfg, start, run) == Some(sys) && HasToken(db.config) && token == Token(db.config)
      requires sys.pcs.At(p) == LiveSending(payload, drained, 0) && kind == KindOf(p)
      modifies this`sys, client, db
      ensures Mirrors() && Run(cfg, start, trace) == Some(sys)
      ensures client.offers == old(client.offers) + made && made != []
      ensures Transmits(client.crypto, db.config, endpoint, payload, made)
      ensures db.faults == if !EndsAcked(made) && insert.InsertFailed? then old(db.faults) + 1 else old(db.faults)
      ensures !EndsAcked(made) ==> (insert.Cancelled? <==> cancelled)
      ensures err == Reported(Judgement(made[|made| - 1].outcome), insert)
      ensures err.None? <==> EndsAcked(made)
      ensures IsQueued(err) <==> !EndsAcked(made) && insert.Inserted?
      ensures trace == run + Attempts(p, Outcomes(made)) + if EndsAcked(made) then [] else [Step(p, Queue(insert))]
      ensures db.config == old(db.config) && sys.holders == old(sys.holders) - {cfg.engine(p)}
      ensures sys.acked == if err.None? then old(sys.acked) + [Live(kind, payload)] else old(sys.acked)
      ensures db.Rows() == if IsQueued(err)
                           then old(db.Rows()) + [Row(NextId(old(db.Rows())), kind, payload, old(db.tickets))]
                           else old(db.Rows())
      ensures sys.pcs == old(sys.pcs).With(p, if err.None? || IsQueued(err) then Persisting(payload) else Idle)
    {
      hide Run, Scan, NextId, Attempts, SendLabels, Decided, Posts;
      ghost var before := sys;
      err, made := Post(token, endpoint, payload, sizes);
      ghost var outcomes := Outcomes(made);
      LastOutcome(made);
      Sends(cfg, start, run, sys, p, outcomes);
      trace, insert := run + Attempts(p, outcomes), Cancelled;
      sys := Run(cfg, start, trace).value;
      LaterWriteWins(before.pcs, p, LiveFailed(payload));
      if err.Some? {
        var e;
        e, trace, insert := QueueOnFailure(p, start, trace, kind, payload, err.value, cancelled);
        err := Some(e);
      }
    }

    method QueueOnFailure(ghost p: Proc, ghost start: State, ghost run: seq<Label>,
                          kind: Kind, payload: Bytes, cause: SyncError, cancelled: bool)
      returns (err: SyncError, ghost trace: seq<Label>, ghost insert: Insert)
      requires Mirrors() && Run(cfg, start, run) == Some(sys)
      requires sys.pcs.At(p) == LiveFailed(payload) && kind == KindOf(p) && !cause.ErrQueued?
      modifies this`sys, db
      ensures Mirrors() && Run(cfg, start, trace) == Some(sys) && trace == run + [Step(p, Queue(insert))]
      ensures db.faults == if insert.InsertFailed? then old(db.faults) + 1 else old(db.faults)
      ensures insert.Cancelled? <==> cancelled
      ensures match insert
              case Cancelled => err == cause
              case InsertFailed => err == QueueFailed(cause)
              case Inserted => err == ErrQueued(cause)
      ensures db.config == old(db.config) && sys.holders == old(sys.holders) - {cfg.engine(p)}
      ensures sys.acked == old(sys.acked)
      ensures db.Rows() == if err.ErrQueued?
                           then old(db.Rows()) + [Row(NextId(old(db.Rows())), kind, payload, old(db.tickets))]
                           else old(db.Rows())
      ensures sys.pcs == old(sys.pcs).With(p, if err.ErrQueued? then Persisting(payload) else Idle)
    {
      hide Run, Scan, NextId;
      var stored := false;
      if cancelled {
        err := cause;
      } else {
        stored := db.Enqueue(kind, payload);
        err := if stored then ErrQueued(cause) else QueueFailed(cause);
      }
      insert := if cancelled then Cancelled else if stored then Inserted else InsertFailed;
      Steps.Queues(cfg, start, run, sys, p, payload, insert);
      trace := run + [Step(p, Queue(insert))];
      sys := Run(cfg, start, trace).value;
    }

    /** Since `before`, only producer `p` has moved, to `pc`. */
    ghost predicate At(p: Proc, before: State, pc: Pc)
      reads this`sys
    {
      sys.pcs == before.pcs.With(p, pc) && sys.holders == before.holders
    }

    /** Since `before`, producer `p` has given up its pass and released the mutex. */
    ghost predicate GaveUp(p: Proc, before: State)
      reads this`sys
    {
      sys.pcs == before.pcs.With(p, Flushed(false)) && sys.holders == before.holders - {cfg.engine(p)}
    }

    /** One round of the loop in `Flush`: skips an unroutable row, sends and deletes a routable one. */
    method Round(ghost p: Proc, ghost start: State, ghost run: seq<Label>, ghost before: State, ghost pass: Pass,
                 item: Row, sizes: nat -> nat)
      returns (skipped: bool, err: Option<SyncError>, ghost trace: seq<Label>, ghost made: seq<Offer>)
      requires Mirrors() && client.retries == RETRIES && (forall i :: sizes(i) > 0)
      requires Run(cfg, start, run) == Some(sys) && At(p, before, Flushing(pass))
      requires pass.index < |pass.items| && item == pass.items[pass.index]
      modifies this`sys, client, db
      ensures Mirrors() && Run(cfg, start, trace) == Some(sys) && db.config == old(db.config)
      ensures skipped == !Routable(item.kind) && (skipped ==> err.None?)
      ensures client.offers == old(client.offers) + made
      ensures db.faults >= old(db.faults)
      ensures Transmits(client.crypto, db.config, RouteForType(item.kind), item.payload, made)
      ensures if skipped then made == [] && db.faults == old(db.faults)
              else err.None? <==> db.faults == old(db.faults) && HasToken(db.config) && EndsAcked(made)
      ensures made == [] && !skipped ==> db.faults != old(db.faults) || !HasToken(db.config)
      ensures db.Rows() == if skipped || err.Some? then old(db.Rows()) else DeleteId(old(db.Rows()), item.id)
      ensures if err.Some? then GaveUp(p, before)
              else At(p, before, Flushing(Pass(pass.items, pass.index + 1,
                                               if skipped then pass.sent else pass.sent + 1, pass.covered)))
    {
      hide Run, Scan, DeleteId, NextId, Transmits, Judgement;
      made := [];
      LaterWriteWins(before.pcs, p, Flushing(pass));
      LaterWriteWins(before.pcs, p, FlushDeleting(pass));
      var endpoint := RouteForType(item.kind);
      skipped, err := endpoint == "", None;
      NothingSent(client.crypto, db.config, endpoint, item.payload);
      if skipped {
        Steps.Skips(cfg, start, run, sys, p, pass);
        trace := run + [Step(p, SkipRow)];
        sys := Run(cfg, start, trace).value;
        return;
      }
      err, trace, made := SendRow(p, start, run, pass, endpoint, item.payload, sizes);
      if err.Some? { return; }
      err, trace := Remove(p, start, trace, before, pass, item);
    }

    /** Deletes the row just acknowledged. */
    method Remove(ghost p: Proc, ghost start: State, ghost run: seq<Label>, ghost before: State, ghost pass: Pass,
                  item: Row)
      returns (err: Option<SyncError>, ghost trace: seq<Label>)
      requires Mirrors() && Run(cfg, start, run) == Some(sys) && At(p, before, FlushDeleting(pass))
      requires pass.index < |pass.items| && item == pass.items[pass.index]
      modifies this`sys, db`queue, db`faults
      ensures Mirrors() && Run(cfg, start, trace) == Some(sys)
      ensures db.faults == if err.None? then old(db.faults) else old(db.faults) + 1
      ensures db.Rows() == if err.Some? then old(db.Rows()) else DeleteId(old(db.Rows()), item.id)
      ensures if err.Some? then GaveUp(p, before)
              else At(p, before, Flushing(pass.(index := pass.index + 1, sent := pass.sent + 1)))
    {
      hide Run, Scan, DeleteId, NextId;
      LaterWriteWins(before.pcs, p, FlushDeleting(pass));
      var deleted := db.DeleteQueueItem(item.id);
      if deleted {
        Steps.Deletes(cfg, start, run, sys, p, pass);
        err := None;
      } else {
        Steps.FailsToDelete(cfg, start, run, sys, p, pass);
        err := Some(StorageFailed);
      }
      trace := run + [Step(p, Delete(deleted))];
      sys := Run(cfg, start, trace).value;
    }

    /** Replays the queue in id order, at most 100 rows, until the first failure. */
    method Flush(ghost p: Proc, sizes: nat -> nat)
      returns (sent: nat, err: Option<SyncError>, ghost trace: seq<Label>, ghost made: seq<Offer>, ghost at: seq<nat>)
      requires Valid() && (forall i :: sizes(i) > 0)
      requires sys.pcs.At(p) == Idle && cfg.engine(p) !in sys.holders
      modifies this`sys, client, db
      ensures Valid() && Run(cfg, old(sys), trace) == Some(sys)
      ensures db.config == old(db.config) && sys.holders == old(sys.holders)
      ensures sys.pcs == old(sys.pcs).With(p, Flushed(err.None? && |old(db.Rows())| <= WINDOW))
      ensures PassResult(old(db.Rows()), db.Rows(), sent, err.None?)
      // of the first 100 rows, no more than the routable ones, and all of them when it returns nil
      ensures sent <= |Routables(old(db.Rows())[..Min(100, |old(db.Rows())|)])|
      ensures err.None? ==> sent == |Routables(old(db.Rows())[..Min(100, |old(db.Rows())|)])|
      // each row goes to the route of its type, in order
      ensures client.offers == old(client.offers) + made
      ensures db.faults >= old(db.faults)
      ensures Replays(client.crypto, db.config, Routables(Window(old(db.Rows()))), made, at, sent)
      // it fails only for a reason outside
      ensures err.None? <==>
                Completes(db.config, Routables(Window(old(db.Rows()))), made, db.faults == old(db.faults))
    {
      hide Run, Reachable, PassResult, Min, Scan, Replays, Completes, Window;
      ghost var start := sys;
      NoSteps(cfg, start);
      Steps.Locks(cfg, start, [], sys, p);
      trace := [] + [Step(p, LockForFlush)];
      sys := Run(cfg, start, trace).value;
      LaterWriteWins(start.pcs, p, FlushLocked);
      assert start.holders[cfg.engine(p) := p] - {cfg.engine(p)} == start.holders;
      sent, err, trace, made, at := ReplayPending(p, start, trace, sizes);
      WindowIsHundred(start.rows, db.Rows(), sent, err.None?);
      ReachableExtends(cfg, start, trace, sys);
    }

    /** `Flush` under the mutex: reads the window and replays it. */
    method ReplayPending(ghost p: Proc, ghost start: State, ghost run: seq<Label>, sizes: nat -> nat)
      returns (sent: nat, err: Option<SyncError>, ghost trace: seq<Label>, ghost made: seq<Offer>, ghost at: seq<nat>)
      requires Mirrors() && client.retries == RETRIES && (forall i :: sizes(i) > 0)
      requires Run(cfg, start, run) == Some(sys) && sys.pcs.At(p) == FlushLocked
      modifies this`sys, client, db
      ensures Mirrors() && Run(cfg, start, trace) == Some(sys) && db.config == old(db.config)
      ensures sys.holders == old(sys.holders) - {cfg.engine(p)}
      ensures sys.pcs == old(sys.pcs).With(p, Flushed(err.None? && |old(db.Rows())| <= WINDOW))
      ensures PassResult(old(db.Rows()), db.Rows(), sent, err.None?)
      ensures client.offers == old(client.offers) + made
      ensures db.faults >= old(db.faults)
      ensures Replays(client.crypto, db.config, Routables(Window(old(db.Rows()))), made, at, sent)
      ensures err.None? <==>
                Completes(db.config, Routables(Window(old(db.Rows()))), made, db.faults == old(db.faults))
    {
      hide Run, PassResult, Progress, Min, Scan, Replays, Completes, NextId, DeleteId, Posts, WithoutFirst;
      ghost var before := sys;
      made, at := [], [];
      var pending := db.Pending(WINDOW);
      Steps.ReadsPending(cfg, start, run, sys, p, pending.Some?);
      trace := run + [Step(p, ReadPending(pending.Some?))];
      sys := Run(cfg, start, trace).value;
      if pending.None? {
        sent, err := 0, Some(StorageFailed);
        NothingReplayed(client.crypto, db.config, Routables(Window(db.Rows())));
        Started(db.Rows());
        Stopped(db.Rows(), Window(db.Rows()), 0, 0, db.Rows());
      } else {
        ghost var pass := Pass(pending.value, 0, 0, |db.Rows()| <= WINDOW);
        LaterWriteWins(before.pcs, p, Flushing(pass));
        sent, err, trace, made, at := ReplayItems(p, start, trace, pending.value, sizes);
        if err.None? {
          ghost var done := pass.(index := |pending.value|, sent := sent);
          LaterWriteWins(before.pcs, p, Flushing(done));
          Steps.Finishes(cfg, start, trace, sys, p, done);
          trace := trace + [Step(p, FinishFlush)];
          sys := Run(cfg, start, trace).value;
        }
      }
    }

    /** The loop of `Flush` over the rows read. */
    method ReplayItems(ghost p: Proc, ghost start: State, ghost run: seq<Label>, items: seq<Row>, sizes: nat -> nat)
      returns (sent: nat, err: Option<SyncError>, ghost trace: seq<Label>, ghost made: seq<Offer>, ghost at: seq<nat>)
      requires Mirrors() && client.retries == RETRIES && (forall i :: sizes(i) > 0)
      requires Run(cfg, start, run) == Some(sys) && items == Window(db.Rows())
      requires sys.pcs.At(p) == Flushing(Pass(items, 0, 0, |db.Rows()| <= WINDOW))
      modifies this`sys, client, db
      ensures Mirrors() && Run(cfg, start, trace) == Some(sys) && db.config == old(db.config)
      ensures if err.None? then At(p, old(sys), Flushing(Pass(items, |items|, sent, |old(db.Rows())| <= WINDOW)))
              else GaveUp(p, old(sys))
      ensures PassResult(old(db.Rows()), db.Rows(), sent, err.None?)
      ensures client.offers == old(client.offers) + made
      ensures db.faults >= old(db.faults)
      ensures Replays(client.crypto, db.config, Routables(items), made, at, sent)
      ensures err.None? <==> Completes(db.config, Routables(items), made, db.faults == old(db.faults))
    {
      hide Run, Mirrors, Progress, PassResult, GaveUp, Scan, DeleteId, Replays, Settled, Completes;
      ghost var before, rows0 := sys, db.Rows();
      trace, sent, err, made, at := run, 0, None, [], [];
      NothingReplayed(client.crypto, db.config, Routables(items));
      Started(rows0);
      RewriteChangesNothing(sys.pcs, p);
      var index := 0;
      while index < |items|
        invariant 0 <= index <= |items| && err.None?
        invariant Mirrors() && Run(cfg, start, trace) == Some(sys) && db.config == old(db.config)
        invariant At(p, before, Flushing(Pass(items, index, sent, |rows0| <= WINDOW)))
        invariant Progress(rows0, items, index, sent, db.Rows())
        invariant client.offers == old(client.offers) + made
        invariant Replays(client.crypto, db.config, Routables(items), made, at, sent) && Settled(at, sent)
        invariant Completes(db.config, Routables(items[..index]), made, true) && db.faults == old(db.faults)
      {
        sent, err, trace, made, at := Handle(p, start, trace, before, rows0, items, index, sent, made, at, sizes);
        if err.Some? { return; }
        index := index + 1;
      }
      assert items[..index] == items;
      Stopped(rows0, items, index, sent, db.Rows());
    }

    /** One round of the loop, with what it means for the pass as a whole. */
    method Handle(ghost p: Proc, ghost start: State, ghost run: seq<Label>, ghost before: State, ghost rows0: seq<Row>,
                  items: seq<Row>, index: nat, sent: nat, ghost made: seq<Offer>, ghost at: seq<nat>, sizes: nat -> nat)
      returns (sent': nat, err: Option<SyncError>, ghost trace: seq<Label>,
               ghost made': seq<Offer>, ghost at': seq<nat>)
      requires Mirrors() && client.retries == RETRIES && (forall i :: sizes(i) > 0)
      requires Run(cfg, start, run) == Some(sys)
      requires index < |items| && Progress(rows0, items, index, sent, db.Rows())
      requires At(p, before, Flushing(Pass(items, index, sent, |rows0| <= WINDOW)))
      requires Replays(client.crypto, db.config, Routables(items), made, at, sent) && Settled(at, sent)
      requires Completes(db.config, Routables(items[..index]), made, true)
      modifies this`sys, client, db
      ensures Mirrors() && Run(cfg, start, trace) == Some(sys) && db.config == old(db.config)
      ensures made <= made' && client.offers == old(client.offers) + made'[|made|..]
      ensures db.faults >= old(db.faults)
      ensures Replays(client.crypto, db.config, Routables(items), made', at', sent')
      ensures err.None? ==>
                && At(p, before, Flushing(Pass(items, index + 1, sent', |rows0| <= WINDOW)))
                && Progress(rows0, items, index + 1, sent', db.Rows())
                && Settled(at', sent') && db.faults == old(db.faults)
                && Completes(db.config, Routables(items[..index + 1]), made', true)
      ensures err.Some? ==>
                && GaveUp(p, before) && PassResult(rows0, db.Rows(), sent', false)
                && !Completes(db.config, Routables(items), made', db.faults == old(db.faults))
    {
      hide Run, Progress, PassResult, Mirrors, At, GaveUp, DeleteId, Scan, Replays, Settled, Completes, Transmits;
      ghost var pass := Pass(items, index, sent, |rows0| <= WINDOW);
      Advance(db, rows0, items, index, sent);
      ProgressCounts(rows0, items, index, sent, db.Rows());
      var skipped;
      ghost var more;
      skipped, err, trace, more := Round(p, start, run, before, pass, items[index], sizes);
      made', at' := RowHandled(client.crypto, db.config, items, index, made, at, sent, more, skipped, err.None?,
                               db.faults == old(db.faults));
      sent' := if skipped || err.Some? then sent else sent + 1;
      if err.Some? { Stopped(rows0, items, index, sent, db.Rows()); }
    }
  }

  lemma WindowIsHundred(rows0: seq<Row>, rows: seq<Row>, sent: nat, complete: bool)
    requires PassResult(rows0, rows, sent, complete)
    ensures sent <= |Routables(rows0[..Min(100, |rows0|)])|
    ensures complete ==> sent == |Routables(rows0[..Min(100, |rows0|)])|
  {
  }

  lemma NothingReplayed(crypto: Signing.Crypto, config: map<Key, string>, rows: seq<Row>)
    ensures Replays(crypto, config, rows, [], [], 0) && Settled([], 0)
    ensures Completes(config, [], [], true) && !Completes(config, rows, [], false)
  {
  }

  lemma ProgressCounts(rows0: seq<Row>, items: seq<Row>, index: nat, sent: nat, rows: seq<Row>)
    requires Progress(rows0, items, index, sent, rows) && index < |items|
    ensures sent == |Routables(items[..index])|
  {
  }

  /** What one round means for the offers of the pass. */
  lemma RowHandled(crypto: Signing.Crypto, config: map<Key, string>, items: seq<Row>, index: nat, made: seq<Offer>,
                   at: seq<nat>, sent: nat, more: seq<Offer>, skipped: bool, done: bool, faultless: bool)
    returns (made': seq<Offer>, at': seq<nat>)
    requires index < |items| && sent == |Routables(items[..index])|
    requires Replays(crypto, config, Routables(items), made, at, sent) && Settled(at, sent)
    requires Completes(config, Routables(items[..index]), made, true)
    requires Transmits(crypto, config, RouteForType(items[index].kind), items[index].payload, more)
    requires skipped == !Routable(items[index].kind)
    requires if skipped then more == [] && faultless && done
             else done <==> faultless && HasToken(config) && EndsAcked(more)
    requires more == [] && !skipped ==> !faultless || !HasToken(config)
    ensures made' == made + more
    ensures Replays(crypto, config, Routables(items), made', at', if skipped || !done then sent else sent + 1)
    ensures done ==>
              && Settled(at', if skipped then sent else sent + 1)
              && Completes(config, Routables(items[..index + 1]), made', true)
    ensures !done ==> !Completes(config, Routables(items), made', faultless)
  {
    hide Replays, Settled, Transmits;
    RoutableAt(items, index);
    made', at' := made + more, at;
    if skipped {
      assert made' == made;
    } else {
      OneMoreRow(crypto, config, Routables(items), made, at, sent, more, done);
      at' := at + seq(|more|, _ => sent);
    }
  }

  /** Row `index` is, if it has a route, the routable row that comes next. */
  lemma RoutableAt(items: seq<Row>, index: nat)
    requires index < |items|
    ensures var done := Routables(items[..index]);
            if Routable(items[index].kind) then
              && Routables(items[..index + 1]) == done + [items[index]]
              && |done| < |Routables(items)| && Routables(items)[|done|] == items[index]
            else Routables(items[..index + 1]) == done
  {
    assert items[..index + 1] == items[..index] + [items[index]];
    assert items == items[..index + 1] + items[index + 1..];
    PickConcat(items[..index], [items[index]], true);
    PickConcat(items[..index + 1], items[index + 1..], true);
  }

  /** The initial states are among those an engine can be opened on. */
  lemma InitIsReachable(cfg: Config, s: State)
    requires Init(s)
    ensures Reachable(cfg, s) && s.pcs == ALL_IDLE && s.holders == map[]
  {
    assert Run(cfg, s, []) == Some(s);
  }

  /** An engine on a new database. */
  method Create(crypto: Signing.Crypto, db: Database, ghost cfg: Config) returns (e: Engine)
    requires db.queue == map[] && db.config == map[] && db.tickets == 0 && SingleEngine(cfg)
    ensures e.Valid() && fresh(e) && fresh(e.client) && e.db == db && e.cfg == cfg
    ensures Init(e.sys) && e.sys.rows == []
  {
    ghost var start := State([], map[], map[], ALL_IDLE, [], 0, [], []);
    InitIsReachable(cfg, start);
    e := new Engine(crypto, db, cfg, start);
  }

  /** The service starts again: a new engine on the database the old one leaves behind. */
  method Reopen(crypto: Signing.Crypto, e: Engine) returns (e': Engine)
    requires e.Valid()
    ensures e'.Valid() && fresh(e') && fresh(e'.client) && e'.db == e.db && e'.cfg == e.cfg
    ensures e'.sys == Restarted(e.sys)
  {
    assert Run(e.cfg, e.sys, []) == Some(e.sys);
    RunSnoc(e.cfg, e.sys, [], Crash);
    ReachableExtends(e.cfg, e.sys, [] + [Crash], Restarted(e.sys));
    e' := new Engine(crypto, e.db, e.cfg, Restarted(e.sys));
  }

  // ---------------------------------------------------------------- what a pass has done so far

  /** The rows before `index` are handled: the routable ones are gone, the others still there. */
  ghost predicate Progress(rows0: seq<Row>, items: seq<Row>, index: nat, sent: nat, rows: seq<Row>) {
    && items == Window(rows0) && index <= |items|
    && sent == |Routables(items[..index])|
    && rows == Others(items[..index]) + rows0[index..]
  }

  lemma Started(rows0: seq<Row>)
    ensures Progress(rows0, Window(rows0), 0, 0, rows0)
  {
  }

  lemma Skipped(rows0: seq<Row>, items: seq<Row>, index: nat, sent: nat, rows: seq<Row>)
    requires Progress(rows0, items, index, sent, rows) && index < |items| && !Routable(items[index].kind)
    ensures Progress(rows0, items, index + 1, sent, rows)
  {
    assert items[..index + 1] == items[..index] + [items[index]];
    PickConcat(items[..index], [items[index]], true);
    PickConcat(items[..index], [items[index]], false);
    assert rows0[index..] == [items[index]] + rows0[index + 1..];
  }

  lemma Removed(rows0: seq<Row>, items: seq<Row>, index: nat, sent: nat, rows: seq<Row>)
    requires Progress(rows0, items, index, sent, rows) && index < |items| && Routable(items[index].kind)
    requires IdsIncrease(rows)
    ensures Progress(rows0, items, index + 1, sent + 1, DeleteId(rows, items[index].id))
  {
    assert items[..index + 1] == items[..index] + [items[index]];
    PickConcat(items[..index], [items[index]], true);
    PickConcat(items[..index], [items[index]], false);
    var k := |Others(items[..index])|;
    assert rows0[index..] == [items[index]] + rows0[index + 1..];
    assert rows[k] == items[index];
    DeleteAt(rows, k);
    assert rows[..k] == Others(items[..index]) && rows[k + 1..] == rows0[index + 1..];
  }

  /** Either way the loop goes on, the rows before the next index are handled. */
  lemma Advance(db: Database, rows0: seq<Row>, items: seq<Row>, index: nat, sent: nat)
    requires Progress(rows0, items, index, sent, db.Rows()) && index < |items|
    ensures Routable(items[index].kind) ==>
              Progress(rows0, items, index + 1, sent + 1, DeleteId(db.Rows(), items[index].id))
    ensures !Routable(items[index].kind) ==> Progress(rows0, items, index + 1, sent, db.Rows())
  {
    ScanIsSorted(db.queue);
    if Routable(items[index].kind) { Removed(rows0, items, index, sent, db.Rows()); }
    else { Skipped(rows0, items, index, sent, db.Rows()); }
  }

  lemma Stopped(rows0: seq<Row>, items: seq<Row>, index: nat, sent: nat, rows: seq<Row>)
    requires Progress(rows0, items, index, sent, rows)
    ensures PassResult(rows0, rows, sent, index == |items|)
    ensures PassResult(rows0, rows, sent, false)
  {
    assert rows0 == items[..index] + rows0[index..];
    WithoutFirstPrefix(items[..index], rows0[index..]);
    PickSizes(items[..index]);
    assert items == items[..index] + items[index..];
    PickConcat(items[..index], items[index..], true);
    assert index == |items| ==> items[..index] == items;
  }
}
