/**
 The requests for a relay socket of one client, and the backend's answers, over every run of the TURN server:
 what is asked, answered, received and replied, and the accounts that tie them together.
 */
module TurnAnswers {
  import opened Basics
  import opened Text
  import opened StunMessages
  import opened StunAddresses
  import opened StunIntegrity
  import opened TurnIpc
  import opened TurnRouting
  import opened TurnGuarantees
  import F = TurnFrontend
  import B = TurnBackend

  type Id = seq<byte>

  /**
   A run as one client sees it: the transaction IDs of the requests it had forwarded, the responses that the
   backend made for it, and those of them that the frontend has received.
   */
  datatype Trace = Trace(world: World, asked: seq<Id>, emitted: seq<Message>, received: seq<Message>)

  // ---------------------------------------------------------------- what is asked, emitted and received

  /** An ALLOCATE request with a user name is forwarded. */
  function RequestIn(m: Message): seq<Id> {
    if m.method_ == ALLOCATE && FindFirst(m.attributes, USERNAME).Some? then [m.transactionId] else []
  }

  function AskedBy(c: Endpoint, e: Event): seq<Id> {
    match e
    case ClientData(client, b) =>
      if client == c && FormatXor(c).Ok? && ParseMessage(b).Ok? then RequestIn(ParseMessage(b).value) else []
    case _ => []
  }

  function AskedIn(c: Endpoint, es: seq<Event>): seq<Id> {
    if es == [] then [] else AskedBy(c, es[0]) + AskedIn(c, es[1..])
  }

  function ResponseOf(c: Endpoint, x: InFlight): seq<Message> {
    if x.origin == c && DecodeIpc(x.bytes).Ok? && DecodeIpc(x.bytes).value.message.method_ == ALLOCATE
    then [DecodeIpc(x.bytes).value.message] else []
  }

  /** The ALLOCATE messages among some that were sent on behalf of the client. */
  function ResponsesIn(c: Endpoint, xs: seq<InFlight>): seq<Message> {
    if xs == [] then [] else ResponseOf(c, xs[0]) + ResponsesIn(c, xs[1..])
  }

  function Ids(ms: seq<Message>): seq<Id> {
    seq(|ms|, i requires 0 <= i < |ms| => ms[i].transactionId)
  }

  function NewToFront(w: World, e: Event): seq<InFlight> {
    match e
    case BackReceives =>
      if w.toBack == [] then [] else BackIpcs(w.toBack[0].origin, B.OnIpc(w.back, w.toBack[0].bytes).1)
    case SocketBound(i, relay) =>
      if i >= |w.sockets| then []
      else BackIpcs(w.sockets[i].owner, B.OnBound(w.back, w.sockets[i].tag, relay).1)
    case RelayData(i, random, from, payload) =>
      if i >= |w.sockets| then []
      else BackIpcs(w.sockets[i].owner, B.OnRelayData(w.back, w.sockets[i].tag, random, from, payload))
    case _ => []
  }

  function Taken(w: World, e: Event): seq<InFlight> {
    if e.FrontReceives? && w.toFront != [] then [w.toFront[0]] else []
  }

  function TraceStep(t: Trace, hmac: Hmac, c: Endpoint, e: Event): Trace {
    Trace(Step(t.world, hmac, e),
          t.asked + AskedBy(c, e),
          t.emitted + ResponsesIn(c, NewToFront(t.world, e)),
          t.received + ResponsesIn(c, Taken(t.world, e)))
  }

  function Follow(t: Trace, hmac: Hmac, c: Endpoint, es: seq<Event>): Trace
    decreases |es|
  {
    if es == [] then t else Follow(TraceStep(t, hmac, c, es[0]), hmac, c, es[1..])
  }

  /** The whole run, seen by a client. */
  function Seen(hmac: Hmac, c: Endpoint, es: seq<Event>): Trace {
    Follow(Trace(START, [], [], []), hmac, c, es)
  }

  // ---------------------------------------------------------------- what the client gets

  /** The successful ALLOCATE responses that were sent to the client. */
  function SuccessesTo(c: Endpoint, log: seq<Done>): seq<seq<byte>> {
    if log == [] then [] else SuccessOf(c, log[0]) + SuccessesTo(c, log[1..])
  }

  function SuccessOf(c: Endpoint, d: Done): seq<seq<byte>> {
    if SuccessTo(d, c) then [d.effect.bytes] else []
  }

  /** A signed message as bytes. */
  function Printed(hmac: Hmac, m: Message): seq<byte> {
    Front(m) + [0, 8, 0, 20] + hmac(Front(m))
  }

  /** n replies made from one response object, the first from the object as it came. */
  function RepliesFrom(hmac: Hmac, response: Message, n: nat): seq<seq<byte>> {
    seq(n, j requires 0 <= j < n => Printed(hmac, F.Reused(response, j)))
  }

  /** The attributes of a granted request: relayed address, the client's own address, and 600 seconds. */
  predicate Grants(as_: seq<Attribute>, relay: Endpoint, c: Endpoint) {
    AddressIn(as_, 0x16) == Some(relay) && AddressIn(as_, 0x20) == Some(c) && ValueOf(as_, 0x0d) == Some([0, 0, 2, 88])
  }

  /** A response for the client that tells what has become of its relay socket. */
  predicate Tells(m: Message, k: B.Back, c: Endpoint) {
    && m.method_ == ALLOCATE && EndpointKey(c) in k.allocations
    && match k.allocations[EndpointKey(c)]
       case Binding(_) => false
       case Bound(address) => m.clazz == SUCCESS_RESPONSE && Grants(m.attributes, address, c)
       case BindFailed => m.clazz == FAILURE_RESPONSE && RelayedIn(m.attributes).None?
  }

  // ---------------------------------------------------------------- the accounts

  function IdsInFlight(c: Endpoint, xs: seq<InFlight>): seq<Id> {
    Ids(ResponsesIn(c, xs))
  }

  function PendingIds(ps: seq<B.Pending>): seq<Id> {
    if ps == [] then []
    else (if ps[0].AllocateRequest? then [ps[0].transactionId] else []) + PendingIds(ps[1..])
  }

  /** The requests that wait for the socket with the tag to be bound. */
  function PendingAt(k: B.Back, tag: string): seq<Id> {
    if tag in k.allocations && k.allocations[tag].Binding? then PendingIds(k.allocations[tag].pending) else []
  }

  /** The relay socket is bound at an address that cannot be printed. */
  predicate Unprintable(k: B.Back, tag: string) {
    tag in k.allocations && k.allocations[tag].Bound? && FormatXor(k.allocations[tag].address).Err?
  }

  /** Every request has been answered, waits for the socket, or is on its way, in the order of asking. */
  predicate BackAccounts(k: B.Back, toBack: seq<InFlight>, asked: seq<Id>, emitted: seq<Message>, c: Endpoint) {
    var tag := EndpointKey(c);
    if Unprintable(k, tag) then emitted == []
    else
      && asked == Ids(emitted) + (PendingAt(k, tag) + IdsInFlight(c, toBack))
      && (forall i :: 0 <= i < |emitted| ==> Tells(emitted[i], k, c))
  }

  /** The first response decides: every request gets a reply made from it, or none ever does. */
  predicate Stands(p: Option<F.Promise>, successes: seq<seq<byte>>, asked: nat, received: seq<Message>, hmac: Hmac) {
    match p
    case None => asked == 0 && received == [] && successes == []
    case Some(Waiting(clients)) => |clients| == asked && received == [] && successes == []
    case Some(Fulfilled(response, n)) =>
      && received != [] && received[0] == response && response.clazz == SUCCESS_RESPONSE
      && n == asked && successes == RepliesFrom(hmac, response, n)
    case Some(Rejected) => received != [] && received[0].clazz != SUCCESS_RESPONSE && successes == []
  }

  function PromiseOf(f: F.Front, c: Endpoint): Option<F.Promise> {
    if EndpointKey(c) in f.promises then Some(f.promises[EndpointKey(c)]) else None
  }

  predicate FrontAccounts(
    f: F.Front, log: seq<Done>, asked: seq<Id>, received: seq<Message>, hmac: Hmac, c: Endpoint)
  {
    Stands(PromiseOf(f, c), SuccessesTo(c, log), |asked|, received, hmac)
  }

  predicate Accounted(t: Trace, hmac: Hmac, c: Endpoint) {
    && Inv(t.world)
    && (t.asked != [] ==> FormatXor(c).Ok?)
    && t.emitted == t.received + ResponsesIn(c, t.world.toFront)
    && BackAccounts(t.world.back, t.world.toBack, t.asked, t.emitted, c)
    && FrontAccounts(t.world.front, t.world.log, t.asked, t.received, hmac, c)
  }

  // ---------------------------------------------------------------- lists

  lemma {:induction false} ResponsesConcat(c: Endpoint, xs: seq<InFlight>, ys: seq<InFlight>)
    ensures ResponsesIn(c, xs + ys) == ResponsesIn(c, xs) + ResponsesIn(c, ys)
  {
    if xs == [] {
      assert xs + ys == ys;
    } else {
      assert (xs + ys)[1..] == xs[1..] + ys;
      ResponsesConcat(c, xs[1..], ys);
    }
  }

  lemma IdsConcat(ms: seq<Message>, ns: seq<Message>)
    ensures Ids(ms + ns) == Ids(ms) + Ids(ns)
  {
  }

  lemma IdsInFlightConcat(c: Endpoint, xs: seq<InFlight>, ys: seq<InFlight>)
    ensures IdsInFlight(c, xs + ys) == IdsInFlight(c, xs) + IdsInFlight(c, ys)
  {
    ResponsesConcat(c, xs, ys);
    IdsConcat(ResponsesIn(c, xs), ResponsesIn(c, ys));
  }

  lemma {:induction false} PendingConcat(ps: seq<B.Pending>, qs: seq<B.Pending>)
    ensures PendingIds(ps + qs) == PendingIds(ps) + PendingIds(qs)
  {
    if ps == [] {
      assert ps + qs == qs;
    } else {
      assert (ps + qs)[1..] == ps[1..] + qs && (ps + qs)[0] == ps[0];
      PendingConcat(ps[1..], qs);
    }
  }

  lemma {:induction false} SuccessesConcat(c: Endpoint, log: seq<Done>, more: seq<Done>)
    ensures SuccessesTo(c, log + more) == SuccessesTo(c, log) + SuccessesTo(c, more)
  {
    if log == [] {
      assert log + more == more;
    } else {
      assert (log + more)[1..] == log[1..] + more;
      SuccessesConcat(c, log[1..], more);
    }
  }

  lemma {:induction false} BackIpcsConcat(origin: Endpoint, es: seq<B.Effect>, more: seq<B.Effect>)
    ensures BackIpcs(origin, es + more) == BackIpcs(origin, es) + BackIpcs(origin, more)
  {
    if es == [] {
      assert es + more == more;
    } else {
      assert (es + more)[1..] == es[1..] + more;
      BackIpcsConcat(origin, es[1..], more);
    }
  }

  lemma {:induction false} NoSuccess(c: Endpoint, log: seq<Done>)
    requires forall i :: 0 <= i < |log| ==> !SuccessTo(log[i], c)
    ensures SuccessesTo(c, log) == []
  {
    if log != [] {
      NoSuccess(c, log[1..]);
    }
  }

  lemma {:induction false} NotTheirs(c: Endpoint, xs: seq<InFlight>)
    requires forall i :: 0 <= i < |xs| ==> ResponseOf(c, xs[i]) == []
    ensures ResponsesIn(c, xs) == []
  {
    if xs != [] {
      NotTheirs(c, xs[1..]);
    }
  }

  lemma {:induction false} OriginOfIpcs(origin: Endpoint, es: seq<B.Effect>)
    ensures forall x :: x in BackIpcs(origin, es) ==> x.origin == origin && B.Ipc(x.bytes) in es
  {
    if es != [] {
      OriginOfIpcs(origin, es[1..]);
    }
  }

  // ---------------------------------------------------------------- requests on their way

  /** A message keeps its type and transaction ID on its way. */
  lemma EmittedHead(m: Message, client: Endpoint, b: seq<byte>)
    requires EmitIpc(m, client) == Some(b) && m.method_ < 16 && |m.transactionId| == 12
    requires AllFit(m.attributes) && Untagged(m.attributes) && Addressable(client)
    ensures DecodeIpc(b).Ok? && DecodeIpc(b).value.client == client
    ensures var m' := DecodeIpc(b).value.message;
            m'.method_ == m.method_ && m'.clazz == m.clazz && m'.transactionId == m.transactionId
  {
    EmittedDecodes(m, client, b);
    assert Twelve(m.transactionId) == m.transactionId;
  }

  lemma EmittedIds(m: Message, client: Endpoint, b: seq<byte>, c: Endpoint)
    requires EmitIpc(m, client) == Some(b) && m.method_ < 16 && |m.transactionId| == 12
    requires AllFit(m.attributes) && Untagged(m.attributes) && Addressable(client)
    ensures Ids(ResponseOf(c, InFlight(client, b)))
         == if client == c && m.method_ == ALLOCATE then [m.transactionId] else []
  {
    EmittedHead(m, client, b);
    var Decoded(m', client') := DecodeIpc(b).value;
    ResponseDecoded(c, InFlight(client, b), m', client');
    assert Ids([m']) == [m'.transactionId];
  }

  lemma ResponseDecoded(c: Endpoint, x: InFlight, m: Message, client: Endpoint)
    requires DecodeIpc(x.bytes) == Ok(Decoded(m, client))
    ensures ResponseOf(c, x) == if x.origin == c && m.method_ == ALLOCATE then [m] else []
  {
  }

  lemma OneInFlight(c: Endpoint, x: InFlight)
    ensures ResponsesIn(c, [x]) == ResponseOf(c, x)
  {
    assert [x][1..] == [];
  }

  lemma RequestAsks(f: F.Front, hmac: Hmac, m: Message, client: Endpoint, c: Endpoint)
    requires |m.transactionId| == 12 && AllFit(m.attributes) && Untagged(m.attributes) && Addressable(client)
    ensures IdsInFlight(c, FrontIpcs(client, F.OnRequest(f, hmac, m, client).1))
         == if client == c && FormatXor(c).Ok? then RequestIn(m) else []
  {
    var es := F.OnRequest(f, hmac, m, client).1;
    var e := EmitIpc(m, client);
    assert e.Some? <==> FormatXor(client).Ok?;
    if (m.method_ == ALLOCATE && FindFirst(m.attributes, USERNAME).Some?) || m.method_ == SEND {
      if e.Some? {
        EmittedIds(m, client, e.value, c);
        NoIpcs(client, es[1..]);
        assert FrontIpcs(client, es) == [InFlight(client, e.value)];
        OneInFlight(c, InFlight(client, e.value));
      }
    } else {
      NoIpcs(client, es);
    }
  }

  lemma DataAsks(f: F.Front, hmac: Hmac, b: seq<byte>, client: Endpoint, c: Endpoint)
    requires EventOk(ClientData(client, b))
    ensures IdsInFlight(c, FrontIpcs(client, F.OnData(f, hmac, b, client).1)) == AskedBy(c, ClientData(client, b))
  {
    if ParseMessage(b).Ok? {
      ParsesUnlessResidue(b[20..]);
      RequestAsks(f, hmac, ParseMessage(b).value, client, c);
    }
  }

  // ---------------------------------------------------------------- the backend's answers

  lemma FailureFits(id: Id)
    ensures var m := B.FailureResponse(id); AllFit(m.attributes) && Untagged(m.attributes) && m.attributes == []
  {
  }

  lemma SuccessGrants(id: Id, relay: Endpoint, c: Endpoint)
    requires Addressable(relay) && Addressable(c) && FormatXor(relay).Ok? && FormatXor(c).Ok?
    ensures B.SuccessResponse(id, relay, c).Some?
    ensures var m := B.SuccessResponse(id, relay, c).value;
            && m.method_ == ALLOCATE && m.clazz == SUCCESS_RESPONSE && m.transactionId == id
            && AllFit(m.attributes) && Untagged(m.attributes) && Grants(m.attributes, relay, c)
  {
    AddressRoundTrip(relay);
    AddressRoundTrip(c);
    GrantsInThree(FormatXor(relay).value, FormatXor(c).value, relay, c);
  }

  lemma GrantsInThree(r: seq<byte>, v: seq<byte>, relay: Endpoint, c: Endpoint)
    requires ParseXor(r) == Ok(relay) && ParseXor(v) == Ok(c)
    ensures Grants([Attribute(XOR_RELAYED_ADDRESS, Some(r)), Attribute(XOR_MAPPED_ADDRESS, Some(v)),
                    Attribute(LIFETIME, Some(TEN_MINUTES))], relay, c)
  {
    assert TEN_MINUTES == [0, 0, 2, 88];
    FindAmongThree(Attribute(0x16, Some(r)), Attribute(0x20, Some(v)), Attribute(0x0d, Some(TEN_MINUTES)));
  }

  lemma FindAmongThree(a: Attribute, b: Attribute, d: Attribute)
    requires a.typ != b.typ && a.typ != d.typ && b.typ != d.typ
    ensures ValueOf([a, b, d], a.typ) == a.value
    ensures ValueOf([a, b, d], b.typ) == b.value
    ensures ValueOf([a, b, d], d.typ) == d.value
  {
    var as_ := [a, b, d];
    assert as_[1..] == [b, d] && [b, d][1..] == [d];
    assert FindFirst([d], d.typ) == Some(0) && FindFirst([b, d], d.typ) == Some(1);
    assert FindFirst(as_, d.typ) == Some(2);
    assert FindFirst([b, d], b.typ) == Some(0) && FindFirst(as_, b.typ) == Some(1);
  }

  /** Attributes of other types change nothing. */
  lemma GrantsKept(as_: seq<Attribute>, more: seq<Attribute>, relay: Endpoint, c: Endpoint)
    requires forall i :: 0 <= i < |more| ==> more[i].typ != 0x16 && more[i].typ != 0x20 && more[i].typ != 0x0d
    requires Grants(as_, relay, c)
    ensures Grants(NormAll(as_ + more), relay, c)
  {
    ValueKept(as_, more, 0x16);
    ValueKept(as_, more, 0x20);
    ValueKept(as_, more, 0x0d);
    assert ParseXor([]).Err?;
  }

  lemma EmittedAttributes(m: Message, client: Endpoint, b: seq<byte>)
    requires EmitIpc(m, client) == Some(b) && m.method_ < 16
    requires AllFit(m.attributes) && Untagged(m.attributes) && Addressable(client)
    ensures var tag := TagAttribute(XorAddress(FormatXor(client).value));
            DecodeIpc(b).Ok? && DecodeIpc(b).value.message.attributes == NormAll(m.attributes + [tag])
            && DecodeIpc(b).value.message.method_ == m.method_
  {
    EmittedDecodes(m, client, b);
    var tag := TagAttribute(XorAddress(FormatXor(client).value));
    assert Norm(tag) == tag;
    assert NormAll(m.attributes + [tag]) == NormAll(m.attributes) + [tag];
  }

  /** What the backend sends for the client is received as the one response it is. */
  lemma OneResponse(m: Message, c: Endpoint)
    requires m.method_ == ALLOCATE && |m.transactionId| == 12
    requires AllFit(m.attributes) && Untagged(m.attributes) && Addressable(c) && FormatXor(c).Ok?
    ensures var ms := ResponsesIn(c, BackIpcs(c, B.Emitted(m, c)));
            && |ms| == 1 && ms[0].method_ == ALLOCATE && ms[0].clazz == m.clazz && Ids(ms) == [m.transactionId]
            && ms[0].attributes == NormAll(m.attributes + [TagAttribute(XorAddress(FormatXor(c).value))])
  {
    var b := EmitIpc(m, c).value;
    EmittedHead(m, c, b);
    EmittedAttributes(m, c, b);
    OneIpc(c, b, DecodeIpc(b).value.message);
  }

  lemma OneIpc(c: Endpoint, b: seq<byte>, m: Message)
    requires DecodeIpc(b) == Ok(Decoded(m, c)) && m.method_ == ALLOCATE
    ensures ResponsesIn(c, BackIpcs(c, [B.Ipc(b)])) == [m] && Ids([m]) == [m.transactionId]
  {
    assert [B.Ipc(b)][1..] == [];
    assert BackIpcs(c, [B.Ipc(b)]) == [InFlight(c, b)];
    OneInFlight(c, InFlight(c, b));
    ResponseDecoded(c, InFlight(c, b), m, c);
  }

  /** The outcome of binding the socket of a tag. */
  predicate Outcome(k: B.Back, tag: string, relay: Option<Endpoint>) {
    && tag in k.allocations
    && k.allocations[tag] == (if relay.Some? then B.Bound(relay.value) else B.BindFailed)
    && (relay.Some? ==> Addressable(relay.value))
  }

  /** What requests with some transaction IDs lead to once the outcome is known. */
  predicate Answered(ms: seq<Message>, ids: seq<Id>, k: B.Back, c: Endpoint) {
    if Unprintable(k, EndpointKey(c)) then ms == []
    else Ids(ms) == ids && forall i :: 0 <= i < |ms| ==> Tells(ms[i], k, c)
  }

  lemma ResolveAnswers(p: B.Pending, relay: Option<Endpoint>, k: B.Back, c: Endpoint)
    requires PendingOk(EndpointKey(c), p) && Outcome(k, EndpointKey(c), relay)
    requires p.AllocateRequest? ==> FormatXor(c).Ok?
    ensures Answered(ResponsesIn(c, BackIpcs(c, B.Resolve(EndpointKey(c), p, relay))), PendingIds([p]), k, c)
  {
    assert [p][1..] == [];
    if p.AllocateRequest? {
      EndpointKeyInjective(p.client, c);
      assert PendingIds([p]) == [p.transactionId];
      if relay.None? {
        FailureAnswers(p.transactionId, k, c);
      } else if FormatXor(relay.value).Ok? {
        SuccessAnswers(p.transactionId, relay.value, k, c);
      }
    } else {
      assert PendingIds([p]) == [];
      NoResponses(c, B.Resolve(EndpointKey(c), p, relay));
    }
  }

  lemma {:induction false} NoResponses(c: Endpoint, es: seq<B.Effect>)
    requires forall i :: 0 <= i < |es| ==> !es[i].Ipc?
    ensures ResponsesIn(c, BackIpcs(c, es)) == []
  {
    if es != [] {
      NoResponses(c, es[1..]);
      assert BackIpcs(c, es) == BackIpcs(c, es[1..]);
    }
  }

  lemma FailureAnswers(id: Id, k: B.Back, c: Endpoint)
    requires |id| == 12 && Addressable(c) && FormatXor(c).Ok? && Outcome(k, EndpointKey(c), None)
    ensures Answered(ResponsesIn(c, BackIpcs(c, B.Emitted(B.FailureResponse(id), c))), [id], k, c)
  {
    FailureFits(id);
    OneResponse(B.FailureResponse(id), c);
    NoAddress([TagAttribute(XorAddress(FormatXor(c).value))]);
    OneAnswered(ResponsesIn(c, BackIpcs(c, B.Emitted(B.FailureResponse(id), c))), id, k, c);
  }

  lemma NoAddress(as_: seq<Attribute>)
    requires |as_| == 1 && as_[0].typ == IPC_TAG
    ensures RelayedIn(NormAll([] + as_)).None?
  {
  }

  lemma OneAnswered(ms: seq<Message>, id: Id, k: B.Back, c: Endpoint)
    requires |ms| == 1 && Ids(ms) == [id] && Tells(ms[0], k, c) && !Unprintable(k, EndpointKey(c))
    ensures Answered(ms, [id], k, c)
  {
  }

  lemma SuccessAnswers(id: Id, relay: Endpoint, k: B.Back, c: Endpoint)
    requires |id| == 12 && Addressable(c) && FormatXor(c).Ok? && FormatXor(relay).Ok?
    requires Outcome(k, EndpointKey(c), Some(relay))
    ensures B.SuccessResponse(id, relay, c).Some?
    ensures Answered(ResponsesIn(c, BackIpcs(c, B.Emitted(B.SuccessResponse(id, relay, c).value, c))), [id], k, c)
  {
    SuccessGrants(id, relay, c);
    var m := B.SuccessResponse(id, relay, c).value;
    OneResponse(m, c);
    GrantsKept(m.attributes, [TagAttribute(XorAddress(FormatXor(c).value))], relay, c);
    OneAnswered(ResponsesIn(c, BackIpcs(c, B.Emitted(m, c))), id, k, c);
  }

  lemma AnsweredTogether(
    ms: seq<Message>, ids: seq<Id>, more: seq<Message>, moreIds: seq<Id>, k: B.Back, c: Endpoint)
    requires Answered(ms, ids, k, c) && Answered(more, moreIds, k, c)
    ensures Answered(ms + more, ids + moreIds, k, c)
  {
    IdsConcat(ms, more);
  }

  lemma {:induction false} ResolveAllAnswers(ps: seq<B.Pending>, relay: Option<Endpoint>, k: B.Back, c: Endpoint)
    requires forall i :: 0 <= i < |ps| ==> PendingOk(EndpointKey(c), ps[i])
    requires Outcome(k, EndpointKey(c), relay) && (PendingIds(ps) != [] ==> FormatXor(c).Ok?)
    ensures Answered(ResponsesIn(c, BackIpcs(c, B.ResolveAll(EndpointKey(c), ps, relay))), PendingIds(ps), k, c)
    decreases |ps|
  {
    var tag := EndpointKey(c);
    if ps != [] {
      PendingConcat([ps[0]], ps[1..]);
      assert [ps[0]] + ps[1..] == ps;
      assert [ps[0]][1..] == [];
      ResolveAnswers(ps[0], relay, k, c);
      ResolveAllAnswers(ps[1..], relay, k, c);
      var first, rest := B.Resolve(tag, ps[0], relay), B.ResolveAll(tag, ps[1..], relay);
      BackIpcsConcat(c, first, rest);
      ResponsesConcat(c, BackIpcs(c, first), BackIpcs(c, rest));
      AnsweredTogether(ResponsesIn(c, BackIpcs(c, first)), PendingIds([ps[0]]),
                       ResponsesIn(c, BackIpcs(c, rest)), PendingIds(ps[1..]), k, c);
    }
  }

  // ---------------------------------------------------------------- the backend's steps

  /** From k to k', x is newly asked, ms are newly answered, and what waited before is answered or waits on. */
  predicate BackMoves(k: B.Back, k': B.Back, x: seq<Id>, ms: seq<Message>, c: Endpoint) {
    var tag := EndpointKey(c);
    && (tag in k.allocations && !k.allocations[tag].Binding? ==>
          tag in k'.allocations && k'.allocations[tag] == k.allocations[tag])
    && if Unprintable(k', tag) then ms == []
       else PendingAt(k, tag) + x == Ids(ms) + PendingAt(k', tag) && forall i :: 0 <= i < |ms| ==> Tells(ms[i], k', c)
  }

  lemma NothingMoves(k: B.Back, k': B.Back, c: Endpoint)
    requires var tag := EndpointKey(c);
             (tag in k.allocations <==> tag in k'.allocations) &&
             (tag in k.allocations ==> k'.allocations[tag] == k.allocations[tag])
    ensures BackMoves(k, k', [], [], c)
  {
    var waiting := PendingAt(k, EndpointKey(c));
    assert waiting + [] == Ids([]) + waiting;
  }

  lemma AnsweredMoves(k: B.Back, x: seq<Id>, ms: seq<Message>, c: Endpoint)
    requires EndpointKey(c) in k.allocations && !k.allocations[EndpointKey(c)].Binding?
    requires Answered(ms, x, k, c)
    ensures BackMoves(k, k, x, ms, c)
  {
    assert [] + x == x + [];
  }

  lemma ThenMoves(k: B.Back, p: B.Pending, c: Endpoint)
    requires EndpointKey(c) in k.allocations && RelayOk(EndpointKey(c), k.allocations[EndpointKey(c)])
    requires PendingOk(EndpointKey(c), p) && (p.AllocateRequest? ==> FormatXor(c).Ok?)
    ensures var (k', es) := B.Then(k, EndpointKey(c), p);
            BackMoves(k, k', PendingIds([p]), ResponsesIn(c, BackIpcs(c, es)), c)
  {
    var tag := EndpointKey(c);
    match k.allocations[tag]
    case Binding(ps) =>
      PendingConcat(ps, [p]);
      var k' := B.Then(k, tag, p).0;
      assert PendingAt(k', tag) == PendingAt(k, tag) + PendingIds([p]);
      assert Ids([]) + PendingAt(k', tag) == PendingAt(k', tag);
    case Bound(address) =>
      ResolveAnswers(p, Some(address), k, c);
      AnsweredMoves(k, PendingIds([p]), ResponsesIn(c, BackIpcs(c, B.Resolve(tag, p, Some(address)))), c);
    case BindFailed =>
      ResolveAnswers(p, None, k, c);
      AnsweredMoves(k, PendingIds([p]), ResponsesIn(c, BackIpcs(c, B.Resolve(tag, p, None))), c);
  }

  lemma AllocateMoves(k: B.Back, f: F.Front, id: Id, c: Endpoint)
    requires BackOk(k, f) && Addressable(c) && FormatXor(c).Ok? && |id| == 12
    ensures var (k1, made) := B.MakeAllocation(k, c);
            var (k2, out) := B.Then(k1, EndpointKey(c), B.AllocateRequest(id, c));
            BackMoves(k, k2, [id], ResponsesIn(c, BackIpcs(c, made + out)), c)
  {
    var tag := EndpointKey(c);
    var (k1, made) := B.MakeAllocation(k, c);
    var p := B.AllocateRequest(id, c);
    var (k2, out) := B.Then(k1, tag, p);
    assert RelayOk(tag, k1.allocations[tag]) by {
      if tag in k.allocations {
        assert RelayOk(tag, k.allocations[tag]);
      }
    }
    ThenMoves(k1, p, c);
    assert [p][1..] == [];
    assert PendingIds([p]) == [id];
    BackIpcsConcat(c, made, out);
    assert made != [] ==> made[1..] == [];
    assert BackIpcs(c, made) == [];
    assert [] + BackIpcs(c, out) == BackIpcs(c, out);
    assert PendingAt(k, tag) == PendingAt(k1, tag);
  }

  lemma SendMoves(k: B.Back, f: F.Front, to: Endpoint, payload: seq<byte>, c: Endpoint)
    requires BackOk(k, f) && EndpointKey(c) in k.allocations
    ensures var (k', es) := B.Then(k, EndpointKey(c), B.SendRequest(to, payload));
            BackMoves(k, k', [], ResponsesIn(c, BackIpcs(c, es)), c)
  {
    var p := B.SendRequest(to, payload);
    assert RelayOk(EndpointKey(c), k.allocations[EndpointKey(c)]);
    ThenMoves(k, p, c);
    assert [p][1..] == [];
    assert PendingIds([p]) == [];
  }

  /** Messages sent on account of another client are none of the client's responses. */
  lemma OthersResponses(c: Endpoint, origin: Endpoint, es: seq<B.Effect>)
    requires origin != c
    ensures ResponsesIn(c, BackIpcs(origin, es)) == []
  {
    OriginOfIpcs(origin, es);
    NotTheirs(c, BackIpcs(origin, es));
  }

  lemma OtherTag(c: Endpoint, origin: Endpoint)
    requires origin != c
    ensures EndpointKey(origin) != EndpointKey(c)
  {
    if EndpointKey(origin) == EndpointKey(c) {
      EndpointKeyInjective(origin, c);
    }
  }

  lemma OwnIpcMoves(k: B.Back, f: F.Front, b: seq<byte>, m: Message, c: Endpoint)
    requires BackOk(k, f) && DecodeIpc(b) == Ok(Decoded(m, c)) && |m.transactionId| == 12 && Addressable(c)
    requires m.method_ == ALLOCATE ==> FormatXor(c).Ok?
    ensures var (k', es) := B.OnIpc(k, b);
            BackMoves(k, k', if m.method_ == ALLOCATE then [m.transactionId] else [],
                      ResponsesIn(c, BackIpcs(c, es)), c)
  {
    if m.method_ == ALLOCATE {
      AllocateMoves(k, f, m.transactionId, c);
    } else if m.method_ == SEND && B.SendTarget(m).Some? && EndpointKey(c) in k.allocations {
      var (to, payload) := B.SendTarget(m).value;
      SendMoves(k, f, to, payload, c);
    } else {
      NothingMoves(k, k, c);
    }
  }

  lemma OtherIpcMoves(k: B.Back, b: seq<byte>, m: Message, client: Endpoint, c: Endpoint)
    requires DecodeIpc(b) == Ok(Decoded(m, client)) && client != c
    ensures var (k', es) := B.OnIpc(k, b);
            BackMoves(k, k', [], ResponsesIn(c, BackIpcs(client, es)), c)
  {
    OthersAllocation(k, b, m, client, c);
    OthersResponses(c, client, B.OnIpc(k, b).1);
    NothingMoves(k, B.OnIpc(k, b).0, c);
  }

  lemma OthersAllocation(k: B.Back, b: seq<byte>, m: Message, client: Endpoint, c: Endpoint)
    requires DecodeIpc(b) == Ok(Decoded(m, client)) && client != c
    ensures var tag, k' := EndpointKey(c), B.OnIpc(k, b).0;
            && (tag in k.allocations <==> tag in k'.allocations)
            && (tag in k.allocations ==> k'.allocations[tag] == k.allocations[tag])
  {
    OtherTag(c, client);
  }

  lemma OnIpcMoves(k: B.Back, f: F.Front, x: InFlight, c: Endpoint)
    requires BackOk(k, f) && ToBackOk(x, f)
    requires ResponseOf(c, x) != [] ==> FormatXor(c).Ok?
    ensures var (k', es) := B.OnIpc(k, x.bytes);
            BackMoves(k, k', Ids(ResponseOf(c, x)), ResponsesIn(c, BackIpcs(x.origin, es)), c)
  {
    var Decoded(m, client) := DecodeIpc(x.bytes).value;
    ResponseDecoded(c, x, m, client);
    assert Ids([m]) == [m.transactionId];
    if client == c {
      OwnIpcMoves(k, f, x.bytes, m, c);
    } else {
      OtherIpcMoves(k, x.bytes, m, client, c);
    }
  }

  lemma OnBoundMoves(k: B.Back, f: F.Front, owner: Endpoint, relay: Option<Endpoint>, c: Endpoint)
    requires BackOk(k, f) && EndpointKey(owner) in k.allocations && (relay.Some? ==> Addressable(relay.value))
    requires PendingAt(k, EndpointKey(c)) != [] ==> FormatXor(c).Ok?
    ensures var (k', es) := B.OnBound(k, EndpointKey(owner), relay);
            BackMoves(k, k', [], ResponsesIn(c, BackIpcs(owner, es)), c)
  {
    var tag := EndpointKey(c);
    var (k', es) := B.OnBound(k, EndpointKey(owner), relay);
    if owner != c {
      OtherTag(c, owner);
      OthersResponses(c, owner, es);
      NothingMoves(k, k', c);
    } else if k.allocations[tag].Binding? {
      var ps := k.allocations[tag].pending;
      assert RelayOk(tag, k.allocations[tag]);
      ResolveAllAnswers(ps, relay, k', c);
      assert PendingIds(ps) + [] == PendingIds(ps);
    } else {
      NothingMoves(k, k', c);
    }
  }

  /** A DATA indication is no response. */
  lemma RelayDataSilent(
    k: B.Back, f: F.Front, owner: Endpoint, random: seq<byte>, from: Endpoint, payload: seq<byte>, c: Endpoint)
    requires BackOk(k, f) && EndpointKey(owner) in k.allocations && |payload| < 65536
    ensures ResponsesIn(c, BackIpcs(owner, B.OnRelayData(k, EndpointKey(owner), random, from, payload))) == []
  {
    var tag := EndpointKey(owner);
    EndpointKeyInjective(k.clients[tag], owner);
    var es := B.OnRelayData(k, tag, random, from, payload);
    if es != [] {
      var m := B.DataIndication(random, FormatXor(from).value, payload);
      var b := EmitIpc(m, owner).value;
      EmittedAttributes(m, owner, b);
      assert es == [B.Ipc(b)] && es[1..] == [];
      assert BackIpcs(owner, es) == [InFlight(owner, b)];
      OneInFlight(c, InFlight(owner, b));
    }
  }

  lemma BackAccountsStep(k: B.Back, k': B.Back, toBack: seq<InFlight>, toBack': seq<InFlight>, x: seq<Id>,
                         asked: seq<Id>, emitted: seq<Message>, ms: seq<Message>, c: Endpoint)
    requires BackAccounts(k, toBack, asked, emitted, c) && BackMoves(k, k', x, ms, c)
    requires IdsInFlight(c, toBack) == x + IdsInFlight(c, toBack')
    ensures BackAccounts(k', toBack', asked, emitted + ms, c)
  {
    var tag := EndpointKey(c);
    if Unprintable(k', tag) {
      assert !Unprintable(k, tag) && emitted != [] ==> Tells(emitted[0], k, c);
    } else {
      IdsConcat(emitted, ms);
      Shift(Ids(emitted), PendingAt(k, tag), x, IdsInFlight(c, toBack'), Ids(ms), PendingAt(k', tag));
    }
  }

  lemma Shift(done: seq<Id>, p: seq<Id>, x: seq<Id>, rest: seq<Id>, now: seq<Id>, p': seq<Id>)
    requires p + x == now + p'
    ensures done + (p + (x + rest)) == (done + now) + (p' + rest)
  {
    assert p + (x + rest) == (p + x) + rest;
    assert (now + p') + rest == now + (p' + rest);
  }

  lemma BackAsks(k: B.Back, toBack: seq<InFlight>, xs: seq<InFlight>, asked: seq<Id>, emitted: seq<Message>,
                 c: Endpoint)
    requires BackAccounts(k, toBack, asked, emitted, c)
    ensures BackAccounts(k, toBack + xs, asked + IdsInFlight(c, xs), emitted, c)
  {
    IdsInFlightConcat(c, toBack, xs);
    MoreAtEnd(Ids(emitted), PendingAt(k, EndpointKey(c)), IdsInFlight(c, toBack), IdsInFlight(c, xs));
  }

  lemma MoreAtEnd(done: seq<Id>, p: seq<Id>, rest: seq<Id>, more: seq<Id>)
    ensures (done + (p + rest)) + more == done + (p + (rest + more))
  {
  }
}
