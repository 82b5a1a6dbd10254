/** What leaves through the relay socket of one client, over every run of the TURN server. */
module TurnRelays {
  import opened Basics
  import opened Text
  import opened StunMessages
  import opened StunAddresses
  import opened StunIntegrity
  import opened TurnIpc
  import opened TurnRouting
  import opened TurnGuarantees
  import F = TurnFrontend
  import B = TurnBackend

  /** A payload for a peer. */
  datatype Sent = Sent(to: Endpoint, payload: seq<byte>)

  /** What a message asks to be sent: a SEND indication with a peer and a payload that is not empty. */
  function Asked(m: Message): seq<Sent> {
    if m.method_ != SEND then []
    else
      match B.SendTarget(m)
      case None => []
      case Some((to, payload)) => if payload == [] then [] else [Sent(to, payload)]
  }

  /** What a message asks of the backend; one that has travelled holds no empty value. */
  function Target(m: Message): seq<Sent> {
    if m.method_ != SEND then []
    else
      match B.SendTarget(m)
      case None => []
      case Some((to, payload)) => [Sent(to, payload)]
  }

  /** What the client asks for with a datagram; when its endpoint cannot be printed, every request fails. */
  function AskedBy(c: Endpoint, e: Event): seq<Sent> {
    match e
    case ClientData(client, b) =>
      if client == c && FormatXor(c).Ok? && ParseMessage(b).Ok? then Asked(ParseMessage(b).value) else []
    case _ => []
  }

  function AskedIn(c: Endpoint, es: seq<Event>): seq<Sent> {
    if es == [] then [] else AskedBy(c, es[0]) + AskedIn(c, es[1..])
  }

  /** What leaves through the relay socket with the tag. */
  function Relays(tag: string, es: seq<B.Effect>): seq<Sent> {
    if es == [] then []
    else
      var first := if es[0].RelaySend? && es[0].tag == tag then [Sent(es[0].to, es[0].payload)] else [];
      first + Relays(tag, es[1..])
  }

  function LeavesAt(w: World, c: Endpoint, e: Event): seq<Sent> {
    match e
    case BackReceives => if w.toBack == [] then [] else Relays(EndpointKey(c), B.OnIpc(w.back, w.toBack[0].bytes).1)
    case SocketBound(i, relay) =>
      if i >= |w.sockets| then [] else Relays(EndpointKey(c), B.OnBound(w.back, w.sockets[i].tag, relay).1)
    case RelayData(i, random, from, payload) =>
      if i >= |w.sockets| then []
      else Relays(EndpointKey(c), B.OnRelayData(w.back, w.sockets[i].tag, random, from, payload))
    case _ => []
  }

  function LeavesIn(w: World, hmac: Hmac, c: Endpoint, es: seq<Event>): seq<Sent>
    decreases |es|
  {
    if es == [] then [] else LeavesAt(w, c, es[0]) + LeavesIn(Step(w, hmac, es[0]), hmac, c, es[1..])
  }

  // ---------------------------------------------------------------- what is under way

  function InFlightOf(c: Endpoint, x: InFlight): seq<Sent> {
    if x.origin == c && DecodeIpc(x.bytes).Ok? then Target(DecodeIpc(x.bytes).value.message) else []
  }

  function InFlightAll(c: Endpoint, xs: seq<InFlight>): seq<Sent> {
    if xs == [] then [] else InFlightOf(c, xs[0]) + InFlightAll(c, xs[1..])
  }

  function SendOf(p: B.Pending): seq<Sent> {
    match p
    case SendRequest(to, payload) => [Sent(to, payload)]
    case AllocateRequest(_, _) => []
  }

  function PendingSends(ps: seq<B.Pending>): seq<Sent> {
    if ps == [] then [] else SendOf(ps[0]) + PendingSends(ps[1..])
  }

  /** What waits for the socket with the tag to be bound. */
  function PendingAt(k: B.Back, tag: string): seq<Sent> {
    if tag in k.allocations && k.allocations[tag].Binding? then PendingSends(k.allocations[tag].pending) else []
  }

  function UnderWay(w: World, c: Endpoint): seq<Sent> {
    PendingAt(w.back, EndpointKey(c)) + InFlightAll(c, w.toBack)
  }

  predicate IsBound(k: B.Back, tag: string) {
    tag in k.allocations && k.allocations[tag].Bound?
  }

  // ---------------------------------------------------------------- lists

  lemma {:induction false} InFlightConcat(c: Endpoint, xs: seq<InFlight>, ys: seq<InFlight>)
    ensures InFlightAll(c, xs + ys) == InFlightAll(c, xs) + InFlightAll(c, ys)
  {
    if xs == [] {
      assert xs + ys == ys;
    } else {
      assert (xs + ys)[1..] == xs[1..] + ys;
      InFlightConcat(c, xs[1..], ys);
    }
  }

  lemma {:induction false} PendingConcat(ps: seq<B.Pending>, qs: seq<B.Pending>)
    ensures PendingSends(ps + qs) == PendingSends(ps) + PendingSends(qs)
  {
    if ps == [] {
      assert ps + qs == qs;
    } else {
      assert (ps + qs)[1..] == ps[1..] + qs && (ps + qs)[0] == ps[0];
      PendingConcat(ps[1..], qs);
      Associates(SendOf(ps[0]), PendingSends(ps[1..]), PendingSends(qs));
    }
  }

  lemma {:induction false} RelaysConcat(tag: string, es: seq<B.Effect>, more: seq<B.Effect>)
    ensures Relays(tag, es + more) == Relays(tag, es) + Relays(tag, more)
  {
    if es == [] {
      assert es + more == more;
    } else {
      assert (es + more)[1..] == es[1..] + more;
      RelaysConcat(tag, es[1..], more);
    }
  }

  /** What a pending request of a tag lets out when its socket is bound, or not. */
  lemma ResolveRelays(tag: string, t: string, p: B.Pending, relay: Option<Endpoint>)
    ensures Relays(t, B.Resolve(tag, p, relay)) == if t == tag && relay.Some? then PendingSends([p]) else []
  {
    var es := B.Resolve(tag, p, relay);
    assert [p][1..] == [];
    if es != [] {
      assert es[1..] == [];
    }
  }

  lemma {:induction false} ResolveAllRelays(tag: string, t: string, ps: seq<B.Pending>, relay: Option<Endpoint>)
    ensures Relays(t, B.ResolveAll(tag, ps, relay)) == if t == tag && relay.Some? then PendingSends(ps) else []
    decreases |ps|
  {
    if ps != [] {
      ResolveRelays(tag, t, ps[0], relay);
      ResolveAllRelays(tag, t, ps[1..], relay);
      RelaysConcat(t, B.Resolve(tag, ps[0], relay), B.ResolveAll(tag, ps[1..], relay));
      PendingConcat([ps[0]], ps[1..]);
      assert [ps[0]] + ps[1..] == ps;
    }
  }

  // ---------------------------------------------------------------- the frontend's side

  /** On its way, a message asks for what it asked for when the client sent it. */
  lemma AskedKept(m: Message, more: Attribute, id: seq<byte>)
    requires more.typ != XOR_PEER_ADDRESS && more.typ != DATA_ATTRIBUTE
    ensures Target(m.(transactionId := id, attributes := NormAll(m.attributes) + [more])) == Asked(m)
  {
    var as_ := m.attributes;
    var m' := m.(transactionId := id, attributes := NormAll(as_) + [more]);
    FindNormal(as_, XOR_PEER_ADDRESS);
    FindNormal(as_, DATA_ATTRIBUTE);
    FindInFront(NormAll(as_), [more], XOR_PEER_ADDRESS);
    FindInFront(NormAll(as_), [more], DATA_ATTRIBUTE);
    var i, j := FindFirst(as_, XOR_PEER_ADDRESS), FindFirst(as_, DATA_ATTRIBUTE);
    if i.Some? && j.Some? {
      assert m'.attributes[i.value] == Norm(as_[i.value]) && m'.attributes[j.value] == Norm(as_[j.value]);
      assert ParseXor([]).Err?;
    }
  }

  lemma EmittedAsks(m: Message, client: Endpoint, b: seq<byte>, c: Endpoint)
    requires EmitIpc(m, client) == Some(b) && m.method_ < 16
    requires AllFit(m.attributes) && Untagged(m.attributes) && Addressable(client)
    ensures InFlightOf(c, InFlight(client, b)) == if client == c then Asked(m) else []
  {
    EmittedDecodes(m, client, b);
    AskedKept(m, TagAttribute(XorAddress(FormatXor(client).value)), Twelve(m.transactionId));
  }

  lemma RequestAsks(f: F.Front, hmac: Hmac, m: Message, client: Endpoint, c: Endpoint)
    requires |m.transactionId| == 12 && AllFit(m.attributes) && Untagged(m.attributes) && Addressable(client)
    requires f.callbacks.Keys == f.promises.Keys
    ensures InFlightAll(c, FrontIpcs(client, F.OnRequest(f, hmac, m, client).1))
         == if client == c && FormatXor(c).Ok? then Asked(m) else []
  {
    var es := F.OnRequest(f, hmac, m, client).1;
    var e := EmitIpc(m, client);
    if FormatXor(client).Ok? {
      assert e.Some?;
    }
    if (m.method_ == ALLOCATE && FindFirst(m.attributes, USERNAME).Some?) || m.method_ == SEND {
      if e.Some? {
        EmittedAsks(m, client, e.value, c);
        assert es[0] == F.Ipc(e.value) && NoIpc(es[1..]);
        NoIpcs(client, es[1..]);
        assert FrontIpcs(client, es) == [InFlight(client, e.value)] + [];
        assert [InFlight(client, e.value)][1..] == [];
      }
    } else {
      NoIpcs(client, es);
    }
  }

  lemma ClientDataMoves(w: World, hmac: Hmac, client: Endpoint, b: seq<byte>, c: Endpoint)
    requires Inv(w) && EventOk(ClientData(client, b))
    ensures var e := ClientData(client, b);
            UnderWay(w, c) + AskedBy(c, e) == UnderWay(Step(w, hmac, e), c)
  {
    var xs := FrontIpcs(client, F.OnData(w.front, hmac, b, client).1);
    InFlightConcat(c, w.toBack, xs);
    DataAsks(w.front, hmac, client, b, c);
    Associates(PendingAt(w.back, EndpointKey(c)), InFlightAll(c, w.toBack), InFlightAll(c, xs));
  }

  lemma Associates(a: seq<Sent>, b: seq<Sent>, d: seq<Sent>)
    ensures (a + b) + d == a + (b + d)
  {
  }

  lemma DataAsks(f: F.Front, hmac: Hmac, client: Endpoint, b: seq<byte>, c: Endpoint)
    requires f.callbacks.Keys == f.promises.Keys && EventOk(ClientData(client, b))
    ensures InFlightAll(c, FrontIpcs(client, F.OnData(f, hmac, b, client).1)) == AskedBy(c, ClientData(client, b))
  {
    if ParseMessage(b).Ok? {
      ParsesUnlessResidue(b[20..]);
      RequestAsks(f, hmac, ParseMessage(b).value, client, c);
    }
  }

  lemma FrontReceivesMoves(w: World, hmac: Hmac, c: Endpoint)
    requires Inv(w)
    ensures UnderWay(w, c) == UnderWay(Step(w, hmac, FrontReceives), c)
  {
    if w.toFront != [] {
      NoIpcOut(w.front, w.toFront[0].bytes, w.toFront[0].origin, hmac);
      assert w.toBack + [] == w.toBack;
    }
  }

  // ---------------------------------------------------------------- the backend's side

  /** A request that waits for, or is resolved by, the socket of a tag: what leaves, what waits, what is lost. */
  lemma ThenMoves(k: B.Back, tag: string, p: B.Pending, t: string)
    requires tag in k.allocations
    ensures var (k', es) := B.Then(k, tag, p);
            && Relays(t, es) == (if t == tag && IsBound(k, tag) then PendingSends([p]) else [])
            && PendingAt(k', t) == PendingAt(k, t)
                 + (if t == tag && k.allocations[tag].Binding? then PendingSends([p]) else [])
            && (IsBound(k', t) <==> IsBound(k, t))
  {
    match k.allocations[tag]
    case Binding(ps) =>
      PendingConcat(ps, [p]);
      assert PendingAt(k, t) + [] == PendingAt(k, t);
    case Bound(address) =>
      ResolveRelays(tag, t, p, Some(address));
      assert PendingAt(k, t) + [] == PendingAt(k, t);
    case BindFailed =>
      ResolveRelays(tag, t, p, None);
      assert PendingAt(k, t) + [] == PendingAt(k, t);
  }

  lemma AllocateMoves(k: B.Back, client: Endpoint, id: seq<byte>, t: string)
    ensures var (k1, made) := B.MakeAllocation(k, client);
            var (k2, out) := B.Then(k1, EndpointKey(client), B.AllocateRequest(id, client));
            Relays(t, made + out) == [] && PendingAt(k2, t) == PendingAt(k, t) && (IsBound(k2, t) <==> IsBound(k, t))
  {
    var (k1, made) := B.MakeAllocation(k, client);
    var p := B.AllocateRequest(id, client);
    var (k2, out) := B.Then(k1, EndpointKey(client), p);
    assert [p][1..] == [];
    ThenMoves(k1, EndpointKey(client), p, t);
    RelaysConcat(t, made, out);
    assert PendingAt(k, t) + [] == PendingAt(k, t);
    assert made != [] ==> made[1..] == [];
  }

  /** handleIpc of the backend, once the message is decoded. */
  function Handled(k: B.Back, m: Message, client: Endpoint): (B.Back, seq<B.Effect>) {
    var tag := EndpointKey(client);
    if m.method_ == ALLOCATE then
      var (k', made) := B.MakeAllocation(k, client);
      var (k'', out) := B.Then(k', tag, B.AllocateRequest(m.transactionId, client));
      (k'', made + out)
    else if Target(m) == [] || tag !in k.allocations then (k, [])
    else B.Then(k, tag, B.SendRequest(Target(m)[0].to, Target(m)[0].payload))
  }

  lemma OnIpcHandles(k: B.Back, b: seq<byte>, m: Message, client: Endpoint)
    requires DecodeIpc(b) == Ok(Decoded(m, client))
    ensures B.OnIpc(k, b) == Handled(k, m, client)
  {
  }

  /** What is lost when it is asked for: without a relay socket, or with one that failed to bind, everything. */
  function Lost(k: B.Back, tag: string, wanted: seq<Sent>): seq<Sent> {
    if tag in k.allocations && !k.allocations[tag].BindFailed? then [] else wanted
  }

  lemma HandledMoves(k: B.Back, m: Message, client: Endpoint, t: string)
    ensures var (k', es) := Handled(k, m, client);
            var wanted := if EndpointKey(client) == t then Target(m) else [];
            && PendingAt(k, t) + wanted == Lost(k, t, wanted) + Relays(t, es) + PendingAt(k', t)
            && (Relays(t, es) != [] ==> IsBound(k, t)) && (IsBound(k', t) <==> IsBound(k, t))
  {
    var tag := EndpointKey(client);
    assert PendingAt(k, t) + [] == [] + [] + PendingAt(k, t);
    if m.method_ == ALLOCATE {
      AllocateMoves(k, client, m.transactionId, t);
    } else if Target(m) != [] && tag in k.allocations {
      var p := B.SendRequest(Target(m)[0].to, Target(m)[0].payload);
      assert PendingSends([p]) == Target(m) by {
        assert [p][1..] == [];
      }
      ThenMoves(k, tag, p, t);
      SentMoves(k, tag, t, Target(m), B.Then(k, tag, p).0);
    } else if tag == t {
      NothingPending(k, t, Target(m));
    }
  }

  /** The three fates of a request of the tag itself, and that of another tag. */
  lemma SentMoves(k: B.Back, tag: string, t: string, wanted: seq<Sent>, k': B.Back)
    requires tag in k.allocations
    requires PendingAt(k', t) == PendingAt(k, t) + (if t == tag && k.allocations[tag].Binding? then wanted else [])
    ensures var w := if tag == t then wanted else [];
            var left := if t == tag && IsBound(k, tag) then wanted else [];
            PendingAt(k, t) + w == Lost(k, t, w) + left + PendingAt(k', t)
  {
    var none: seq<Sent> := [];
    assert none + none + PendingAt(k', t) == PendingAt(k', t);
    assert PendingAt(k, t) + none == PendingAt(k, t);
    if tag == t && !k.allocations[tag].Binding? {
      assert PendingAt(k, t) == [];
      assert none + wanted == wanted + none == wanted;
    }
  }

  lemma NothingPending(k: B.Back, t: string, wanted: seq<Sent>)
    requires wanted == [] || t !in k.allocations
    ensures PendingAt(k, t) + wanted == Lost(k, t, wanted) + [] + PendingAt(k, t)
  {
    if wanted == [] {
      assert Lost(k, t, wanted) == [];
    }
  }

  lemma BackReceivesMoves(w: World, c: Endpoint, x: InFlight)
    requires DecodeIpc(x.bytes).Ok? && DecodeIpc(x.bytes).value.client == x.origin
    ensures var (k', es) := B.OnIpc(w.back, x.bytes);
            var t := EndpointKey(c);
            && PendingAt(w.back, t) + InFlightOf(c, x)
                 == Lost(w.back, t, InFlightOf(c, x)) + Relays(t, es) + PendingAt(k', t)
            && (Relays(t, es) != [] ==> IsBound(w.back, t)) && (IsBound(k', t) <==> IsBound(w.back, t))
  {
    var Decoded(m, client) := DecodeIpc(x.bytes).value;
    OnIpcHandles(w.back, x.bytes, m, client);
    HandledMoves(w.back, m, client, EndpointKey(c));
    if EndpointKey(client) == EndpointKey(c) {
      EndpointKeyInjective(client, c);
    }
  }

  lemma BoundMoves(k: B.Back, tag: string, relay: Option<Endpoint>, t: string)
    ensures var (k', es) := B.OnBound(k, tag, relay);
            && PendingAt(k, t)
                 == (if tag == t && relay.None? then PendingAt(k, t) else []) + Relays(t, es) + PendingAt(k', t)
            && (Relays(t, es) != [] ==> IsBound(k', t)) && (IsBound(k, t) ==> IsBound(k', t))
  {
    var none: seq<Sent> := [];
    assert none + none + PendingAt(k, t) == PendingAt(k, t);
    if tag in k.allocations && k.allocations[tag].Binding? {
      ResolveAllRelays(tag, t, k.allocations[tag].pending, relay);
      assert PendingAt(k, t) == PendingAt(k, t) + none + none == none + PendingAt(k, t) + none;
    }
  }

  // ---------------------------------------------------------------- over every run

  lemma Regroup(p: seq<Sent>, x: seq<Sent>, rest: seq<Sent>, lost: seq<Sent>, left: seq<Sent>, p': seq<Sent>)
    requires p + x == lost + left + p'
    ensures p + (x + rest) == lost + left + (p' + rest)
  {
    assert p + (x + rest) == (p + x) + rest;
    assert lost + left + (p' + rest) == (lost + left + p') + rest;
  }

  lemma {:induction false} NoRelays(tag: string, es: seq<B.Effect>)
    requires forall i :: 0 <= i < |es| ==> !es[i].RelaySend?
    ensures Relays(tag, es) == []
  {
    if es != [] {
      NoRelays(tag, es[1..]);
    }
  }

  /** One event: what is asked for and under way is lost, leaves or stays under way, in that order. */
  predicate Moves(w: World, hmac: Hmac, c: Endpoint, e: Event, lost: seq<Sent>) {
    var w', t := Step(w, hmac, e), EndpointKey(c);
    && UnderWay(w, c) + AskedBy(c, e) == lost + LeavesAt(w, c, e) + UnderWay(w', c)
    && (IsBound(w.back, t) ==> lost == [] && IsBound(w'.back, t))
    && (LeavesAt(w, c, e) != [] ==> IsBound(w'.back, t))
  }

  lemma BackStepMoves(w: World, hmac: Hmac, c: Endpoint) returns (lost: seq<Sent>)
    requires Inv(w)
    ensures Moves(w, hmac, c, BackReceives, lost)
  {
    if w.toBack == [] {
      return [];
    }
    var x, rest := w.toBack[0], InFlightAll(c, w.toBack[1..]);
    var t := EndpointKey(c);
    assert ToBackOk(x, w.front);
    BackReceivesMoves(w, c, x);
    var (k', es) := B.OnIpc(w.back, x.bytes);
    lost := Lost(w.back, t, InFlightOf(c, x));
    Regroup(PendingAt(w.back, t), InFlightOf(c, x), rest, lost, Relays(t, es), PendingAt(k', t));
  }

  lemma BoundStepMoves(w: World, hmac: Hmac, c: Endpoint, i: nat, relay: Option<Endpoint>) returns (lost: seq<Sent>)
    ensures Moves(w, hmac, c, SocketBound(i, relay), lost)
  {
    if i >= |w.sockets| {
      return [];
    }
    var tag, t := w.sockets[i].tag, EndpointKey(c);
    BoundMoves(w.back, tag, relay, t);
    var (k', es) := B.OnBound(w.back, tag, relay);
    lost := if tag == t && relay.None? then PendingAt(w.back, t) else [];
    RegroupAll(PendingAt(w.back, t), InFlightAll(c, w.toBack), lost, Relays(t, es), PendingAt(k', t));
  }

  lemma RegroupAll(p: seq<Sent>, rest: seq<Sent>, lost: seq<Sent>, left: seq<Sent>, p': seq<Sent>)
    requires p == lost + left + p'
    ensures (p + rest) + [] == lost + left + (p' + rest)
  {
    assert p + [] == p && [] + rest == rest;
    Regroup(p, [], rest, lost, left, p');
  }

  lemma StepMoves(w: World, hmac: Hmac, c: Endpoint, e: Event) returns (lost: seq<Sent>)
    requires Inv(w) && EventOk(e)
    ensures Moves(w, hmac, c, e, lost)
  {
    match e {
      case ClientData(client, b) => lost := ClientStepMoves(w, hmac, c, client, b);
      case FrontReceives => lost := FrontStepMoves(w, hmac, c);
      case BackReceives => lost := BackStepMoves(w, hmac, c);
      case SocketBound(i, relay) => lost := BoundStepMoves(w, hmac, c, i, relay);
      case RelayData(_, _, _, _) => lost := RelayStepMoves(w, hmac, c, e);
    }
  }

  lemma NothingLost(u: seq<Sent>, a: seq<Sent>, u': seq<Sent>)
    requires u + a == u'
    ensures u + a == [] + [] + u'
  {
  }

  lemma ClientStepMoves(w: World, hmac: Hmac, c: Endpoint, client: Endpoint, b: seq<byte>) returns (lost: seq<Sent>)
    requires Inv(w) && EventOk(ClientData(client, b))
    ensures Moves(w, hmac, c, ClientData(client, b), lost)
  {
    var e := ClientData(client, b);
    ClientDataMoves(w, hmac, client, b, c);
    NothingLost(UnderWay(w, c), AskedBy(c, e), UnderWay(Step(w, hmac, e), c));
    return [];
  }

  lemma FrontStepMoves(w: World, hmac: Hmac, c: Endpoint) returns (lost: seq<Sent>)
    requires Inv(w)
    ensures Moves(w, hmac, c, FrontReceives, lost)
  {
    FrontReceivesMoves(w, hmac, c);
    NothingLost(UnderWay(w, c), [], UnderWay(Step(w, hmac, FrontReceives), c));
    return [];
  }

  lemma RelayStepMoves(w: World, hmac: Hmac, c: Endpoint, e: Event) returns (lost: seq<Sent>)
    requires e.RelayData?
    ensures Moves(w, hmac, c, e, lost)
  {
    if e.socket < |w.sockets| {
      NoRelays(EndpointKey(c), B.OnRelayData(w.back, w.sockets[e.socket].tag, e.random, e.from, e.payload));
    }
    NothingLost(UnderWay(w, c), [], UnderWay(w, c));
    return [];
  }

  /**
   Conservation from any state: what is under way and then asked for is lost, leaves or stays under way, in that
   order; and nothing is lost any more once the client's relay socket is bound.
   */
  lemma {:induction false} RunMoves(w: World, hmac: Hmac, c: Endpoint, es: seq<Event>) returns (lost: seq<Sent>)
    requires Inv(w) && EventsOk(es) && TwentyBytes(hmac)
    ensures UnderWay(w, c) + AskedIn(c, es) == lost + LeavesIn(w, hmac, c, es) + UnderWay(Run(w, hmac, es), c)
    ensures IsBound(w.back, EndpointKey(c)) ==> lost == []
    decreases |es|
  {
    if es == [] {
      assert UnderWay(w, c) + [] == [] + [] + UnderWay(w, c);
      return [];
    }
    var e, w' := es[0], Step(w, hmac, es[0]);
    var first := StepMoves(w, hmac, c, e);
    StepKeeps(w, hmac, e);
    var later := RunMoves(w', hmac, c, es[1..]);
    lost := first + later;
    Chain(UnderWay(w, c), AskedBy(c, e), AskedIn(c, es[1..]), first, LeavesAt(w, c, e), UnderWay(w', c),
          later, LeavesIn(w', hmac, c, es[1..]), UnderWay(Run(w', hmac, es[1..]), c));
  }

  lemma Chain(u: seq<Sent>, a: seq<Sent>, b: seq<Sent>, lost: seq<Sent>, left: seq<Sent>, u': seq<Sent>,
              lost': seq<Sent>, left': seq<Sent>, u'': seq<Sent>)
    requires u + a == lost + left + u' && u' + b == lost' + left' + u''
    requires left != [] ==> lost' == []
    ensures u + (a + b) == (lost + lost') + (left + left') + u''
  {
    assert u + (a + b) == (u + a) + b == (lost + left) + (u' + b);
    if left == [] {
      assert (lost + left) + (lost' + left' + u'') == (lost + lost') + (left + left') + u'';
    } else {
      assert (lost + left) + (lost' + left' + u'') == (lost + lost') + (left + left') + u'';
    }
  }

  /** What has left is a contiguous part of what was asked for. */
  predicate PartOf(left: seq<Sent>, asked: seq<Sent>) {
    exists i :: 0 <= i <= |asked| && left <= asked[i..]
  }

  /**
   Over every run: what leaves through a client's relay socket is what that client's SEND indications named, in
   order and without gaps: only those from before the socket was requested, or all if binding failed, are lost.
   */
  lemma LeavesInOrder(hmac: Hmac, c: Endpoint, es: seq<Event>)
    requires EventsOk(es) && TwentyBytes(hmac)
    ensures PartOf(LeavesIn(START, hmac, c, es), AskedIn(c, es))
  {
    var lost := RunMoves(START, hmac, c, es);
    NothingAtStart(c, AskedIn(c, es));
    Contiguous(AskedIn(c, es), lost, LeavesIn(START, hmac, c, es), UnderWay(Run(START, hmac, es), c));
  }

  lemma NothingAtStart(c: Endpoint, asked: seq<Sent>)
    ensures UnderWay(START, c) + asked == asked
  {
  }

  lemma Contiguous(asked: seq<Sent>, lost: seq<Sent>, left: seq<Sent>, rest: seq<Sent>)
    requires asked == lost + left + rest
    ensures PartOf(left, asked)
  {
    assert asked[|lost|..] == left + rest;
  }

  /** From the moment the socket is bound nothing is lost: all that is asked for has left or is under way. */
  lemma BoundLosesNothing(hmac: Hmac, c: Endpoint, es: seq<Event>, more: seq<Event>)
    requires EventsOk(es) && EventsOk(more) && TwentyBytes(hmac)
    requires IsBound(Run(START, hmac, es).back, EndpointKey(c))
    ensures var w := Run(START, hmac, es);
            UnderWay(w, c) + AskedIn(c, more) == LeavesIn(w, hmac, c, more) + UnderWay(Run(w, hmac, more), c)
  {
    RunKeeps(START, hmac, es);
    var w := Run(START, hmac, es);
    var lost := RunMoves(w, hmac, c, more);
    assert [] + LeavesIn(w, hmac, c, more) == LeavesIn(w, hmac, c, more);
  }
}
