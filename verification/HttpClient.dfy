/** The HTTP client: a bounded number of attempts, each with a fresh and freshly signed body. */
module HttpClient {
  import opened Common
  import opened Signing

  /** One attempt: the request, with the body a receiver can read and the bytes that were in fact
      taken from it, and what became of it. Nothing reaches the network when it was not signed. */
  datatype Offer = Offer(verb: string, path: string, body: Bytes, taken: Bytes, headers: map<Header, string>,
                         outcome: Outcome)

  /** What one attempt gets from the clock and the random source. */
  datatype Draw = Draw(now: int, nonce: Option<Bytes>)

  datatype DoResult = Answer(reply: Outcome) | Exhausted | SigningFailed

  function Outcomes(offers: seq<Offer>): (outcomes: seq<Outcome>)
    ensures |outcomes| == |offers|
  {
    seq(|offers|, i requires 0 <= i < |offers| => offers[i].outcome)
  }

  /** The offer is this request with these bytes, and with these headers apart from the signature. */
  ghost predicate Carries(offer: Offer, verb: string, path: string, body: Bytes, headers: map<Header, string>) {
    && offer.verb == verb && offer.path == path && offer.body == body && offer.taken <= body
    && SameOthers(offer.headers, headers)
  }

  /** It is signed with the token at the time and with the nonce drawn for it; it is not sent exactly
      when there was no nonce. */
  ghost predicate SignedFrom(crypto: Crypto, token: Bytes, offer: Offer, draw: Draw) {
    && (offer.outcome.NotSigned? <==> draw.nonce.None?)
    && (draw.nonce.Some? ==>
          SignedAt(crypto, token, offer.verb, offer.path, offer.headers, offer.body, draw.now, draw.nonce.value))
  }

  /** Every offer is this request, signed from the draw made for it if there is a token. */
  ghost predicate AllGood(crypto: Crypto, token: Bytes, verb: string, path: string, body: Bytes,
                          headers: map<Header, string>, offers: seq<Offer>, draws: seq<Draw>) {
    && (forall i :: 0 <= i < |offers| ==> Carries(offers[i], verb, path, body, headers))
    && if token == "" then draws == [] && forall i :: 0 <= i < |offers| ==> !offers[i].outcome.NotSigned?
       else |draws| == |offers| && forall i :: 0 <= i < |offers| ==> SignedFrom(crypto, token, offers[i], draws[i])
  }

  /** The attempts of one request: the first outcome that is no transport error decides, and there are
      at most `retries` + 1. */
  ghost predicate Bounded(outcomes: seq<Outcome>, retries: int) {
    && |outcomes| <= Max(retries + 1, 0)
    && (forall i :: 0 <= i < |outcomes| - 1 ==> TransportError(outcomes[i]))
    && (|outcomes| < retries + 1 ==> outcomes != [] && !TransportError(outcomes[|outcomes| - 1]))
  }

  /** What is reported is what became of the last attempt. */
  predicate Reports(result: DoResult, outcomes: seq<Outcome>) {
    match result
    case Answer(reply) => outcomes != [] && outcomes[|outcomes| - 1] == reply && reply.Replied?
    case SigningFailed => outcomes != [] && outcomes[|outcomes| - 1].NotSigned?
    case Exhausted => forall i :: 0 <= i < |outcomes| ==> TransportError(outcomes[i])
  }

  class Client {
    const crypto: Crypto
    const retries: int
    var token: Bytes
    /** Every attempt, in order. */
    ghost var offers: seq<Offer>
    /** Everything drawn from the clock and the random source, in order. */
    ghost var draws: seq<Draw>

    constructor (crypto: Crypto, retries: int)
      ensures this.crypto == crypto && this.retries == retries && token == "" && offers == [] && draws == []
    {
      this.crypto, this.retries, token, offers, draws := crypto, retries, "", [], [];
    }

    /** time.Now and rand.Read: any time, and any nonce or none. */
    method DrawNonce() returns (now: int, nonce: Option<Bytes>)
      modifies this`draws
      ensures draws == old(draws) + [Draw(now, nonce)]
    {
      now, nonce := *, *;
      draws := draws + [Draw(now, nonce)];
    }

    /** One attempt on the network: any part of the body is read in pieces of any size, then
        anything can happen. */
    method RoundTrip(request: Request) returns (outcome: Outcome)
      requires request.body != null
      modifies request.body, this`offers
      ensures !outcome.NotSigned?
      ensures exists taken ::
                && taken <= old(request.Content())
                && offers == old(offers) + [Offer(request.verb, request.path, old(request.Content()), taken,
                                                  request.headers, outcome)]
    {
      ghost var offered, taken, rest := request.Content(), [], request.Content();
      var more: bool := *;
      var patience: int := *;
      while more && patience > 0
        invariant request.body == old(request.body)
        invariant rest == request.body.Remaining() && offered == taken + rest
        invariant offers == old(offers)
      {
        var size: int := *;
        var piece, _ := ReadPiece(request.body, if size < 0 then 0 else size);
        Reassociate(taken, piece, request.body.Remaining());
        taken, rest := taken + piece, request.body.Remaining();
        more := *;
        patience := patience - 1;
      }
      assert taken == offered[..|taken|];
      outcome := *;
      if outcome.NotSigned? { outcome := RequestLost; }
      offers := offers + [Offer(request.verb, request.path, offered, taken, request.headers, outcome)];
    }

    /** What an attempt is before it is made. */
    ghost function Unsent(request: Request, body: Bytes): Offer
      reads request`headers
    {
      Offer(request.verb, request.path, body, "", request.headers, NotSigned)
    }

    /** One attempt: a fresh body, a new signature, and the network unless there was no nonce. */
    method Try(request: Request, body: Bytes, sizes: nat -> nat)
      returns (outcome: Outcome, ghost offer: Offer, ghost more: seq<Draw>)
      requires forall i :: sizes(i) > 0
      modifies request, this`offers, this`draws
      ensures request.body != null && fresh(request.body) && SameOthers(request.headers, old(request.headers))
      ensures offers == old(offers) + [offer] && draws == old(draws) + more && offer.outcome == outcome
      ensures Carries(offer, request.verb, request.path, body, old(request.headers))
      ensures if token == "" then more == [] && !outcome.NotSigned?
              else |more| == 1 && SignedFrom(crypto, token, offer, more[0])
    {
      ghost var before, was := offers, draws;
      var signed := Prepare(request, body, sizes);
      more := draws[|was|..];
      if signed {
        outcome := RoundTrip(request);
        offer := offers[|before|];
      } else {
        outcome := NotSigned;
        offer := Unsent(request, body);
        offers := offers + [offer];
      }
    }

    /** At most `retries` + 1 attempts. Whatever pieces bodies are read in and whatever the
        network does, every attempt offers exactly the original request, signed anew if there is a
        token; the first attempt without a transport error decides. */
    method Do(request: Request, sizes: nat -> nat)
      returns (result: DoResult, ghost made: seq<Offer>, ghost drawn: seq<Draw>)
      requires forall i :: sizes(i) > 0
      modifies request, request.body, this`offers, this`draws
      ensures offers == old(offers) + made && draws == old(draws) + drawn
      ensures Bounded(Outcomes(made), retries) && Reports(result, Outcomes(made))
      ensures AllGood(crypto, token, request.verb, request.path, old(request.Content()), old(request.headers),
                      made, drawn)
    {
      var body := [];
      if request.body != null { body := ReadAll(request.body, sizes); }
      made, drawn := [], [];
      var attempt := 0;
      while attempt <= retries
        invariant |made| == attempt <= Max(retries + 1, 0)
        invariant request.body != null ==> request.body == old(request.body) || fresh(request.body)
        invariant SameOthers(request.headers, old(request.headers))
        invariant forall i :: 0 <= i < |made| ==> TransportError(made[i].outcome)
        invariant offers == old(offers) + made && draws == old(draws) + drawn
        invariant AllGood(crypto, token, request.verb, request.path, body, old(request.headers), made, drawn)
      {
        hide AllGood, SameOthers;
        var outcome;
        ghost var offer, more;
        SameOthersTransitive(request.headers, old(request.headers));
        outcome, offer, more := Try(request, body, sizes);
        OneMore(crypto, token, request, body, old(request.headers), made, drawn, offer, more);
        made, drawn := made + [offer], drawn + more;
        if outcome.Replied? { return Answer(outcome), made, drawn; }
        if outcome.NotSigned? { return SigningFailed, made, drawn; }
        attempt := attempt + 1;
      }
      return Exhausted, made, drawn;
    }

    /** A fresh body over the original bytes, signed anew when there is a token. */
    method Prepare(request: Request, body: Bytes, sizes: nat -> nat) returns (signed: bool)
      requires forall i :: sizes(i) > 0
      modifies request, this`draws
      ensures request.body != null && fresh(request.body) && request.Content() == body
      ensures SameOthers(request.headers, old(request.headers))
      ensures old(draws) <= draws
      ensures if token == "" then signed && draws == old(draws)
              else |draws| == |old(draws)| + 1 && (signed <==> draws[|old(draws)|].nonce.Some?)
      ensures signed && token != "" ==>
                SignedAt(crypto, token, request.verb, request.path, request.headers, body,
                         draws[|old(draws)|].now, draws[|old(draws)|].nonce.value)
    {
      request.body := new ByteReader(body);
      signed := true;
      if token != "" {
        var now, nonce := DrawNonce();
        signed := SignRequest(crypto, request, token, now, nonce, sizes);
      }
    }
  }

  lemma SameOthersTransitive(b: map<Header, string>, c: map<Header, string>)
    requires SameOthers(b, c)
    ensures forall a :: SameOthers(a, b) ==> SameOthers(a, c)
    ensures forall offer, verb, path, body ::
              Carries(offer, verb, path, body, b) ==> Carries(offer, verb, path, body, c)
  {
  }

  /** One more good attempt. */
  lemma OneMore(crypto: Crypto, token: Bytes, request: Request, body: Bytes, headers: map<Header, string>,
                made: seq<Offer>, drawn: seq<Draw>, offer: Offer, more: seq<Draw>)
    requires AllGood(crypto, token, request.verb, request.path, body, headers, made, drawn)
    requires Carries(offer, request.verb, request.path, body, headers)
    requires if token == "" then more == [] && !offer.outcome.NotSigned?
             else |more| == 1 && SignedFrom(crypto, token, offer, more[0])
    ensures AllGood(crypto, token, request.verb, request.path, body, headers, made + [offer], drawn + more)
  {
    hide Carries, SignedFrom;
  }

  function Max(a: int, b: int): int { if a >= b then a else b }
}
