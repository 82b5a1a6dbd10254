/**
 The TURN server as a whole: any number of clients, one frontend and one backend joined by
 IPC, and relay sockets, over runs of arbitrary length and interleaving.

 Assumptions on the surroundings: a socket reports IPv4 endpoints in the usual notation, the
 payload of a datagram is shorter than 65536 bytes, and no client puts an IPC_TAG attribute
 into its messages.
 */
module TurnRouting {
  import opened Basics
  import opened Text
  import opened StunMessages
  import opened StunAddresses
  import opened StunBuffers
  import opened StunIntegrity
  import opened TurnIpc
  import F = TurnFrontend
  import B = TurnBackend

  datatype Event =
    | ClientData(client: Endpoint, bytes: seq<byte>)
    | BackReceives
    | FrontReceives
    | SocketBound(socket: nat, relay: Option<Endpoint>)
    | RelayData(socket: nat, random: seq<byte>, from: Endpoint, payload: seq<byte>)

  /** An IPC message on its way, with the client on whose behalf it was sent. */
  datatype InFlight = InFlight(origin: Endpoint, bytes: seq<byte>)

  /** A relay socket: its tag, and the client whose request created it. */
  datatype Socket = Socket(tag: string, owner: Endpoint)

  /** Something the frontend did, with the client whose message or relay socket caused it. */
  datatype Done = Done(origin: Endpoint, effect: F.Effect)

  datatype World = World(
    front: F.Front,
    back: B.Back,
    toBack: seq<InFlight>,
    toFront: seq<InFlight>,
    sockets: seq<Socket>,
    log: seq<Done>)

  const START := World(F.Front(map[], map[]), B.Back(map[], map[]), [], [], [], [])

  function FrontIpcs(origin: Endpoint, es: seq<F.Effect>): seq<InFlight> {
    if es == [] then []
    else (if es[0].Ipc? then [InFlight(origin, es[0].bytes)] else []) + FrontIpcs(origin, es[1..])
  }

  function BackIpcs(origin: Endpoint, es: seq<B.Effect>): seq<InFlight> {
    if es == [] then []
    else (if es[0].Ipc? then [InFlight(origin, es[0].bytes)] else []) + BackIpcs(origin, es[1..])
  }

  function NewSockets(origin: Endpoint, es: seq<B.Effect>): seq<Socket> {
    if es == [] then []
    else (if es[0].NewSocket? then [Socket(es[0].tag, origin)] else []) + NewSockets(origin, es[1..])
  }

  function Logged(origin: Endpoint, es: seq<F.Effect>): seq<Done> {
    seq(|es|, i requires 0 <= i < |es| => Done(origin, es[i]))
  }

  /** The frontend has made f' and es of something that `origin` caused. */
  function AfterFront(w: World, f': F.Front, origin: Endpoint, es: seq<F.Effect>): World {
    w.(front := f', toBack := w.toBack + FrontIpcs(origin, es), log := w.log + Logged(origin, es))
  }

  function AfterBack(w: World, k': B.Back, origin: Endpoint, es: seq<B.Effect>): World {
    w.(back := k', toFront := w.toFront + BackIpcs(origin, es), sockets := w.sockets + NewSockets(origin, es))
  }

  function Step(w: World, hmac: Hmac, e: Event): World {
    match e
    case ClientData(client, bytes) =>
      var (f', es) := F.OnData(w.front, hmac, bytes, client);
      AfterFront(w, f', client, es)
    case BackReceives =>
      if w.toBack == [] then w
      else
        var (k', es) := B.OnIpc(w.back, w.toBack[0].bytes);
        AfterBack(w.(toBack := w.toBack[1..]), k', w.toBack[0].origin, es)
    case FrontReceives =>
      if w.toFront == [] then w
      else
        var (f', es) := F.OnIpc(w.front, hmac, w.toFront[0].bytes);
        AfterFront(w.(toFront := w.toFront[1..]), f', w.toFront[0].origin, es)
    case SocketBound(i, relay) =>
      if i >= |w.sockets| then w
      else
        var (k', es) := B.OnBound(w.back, w.sockets[i].tag, relay);
        AfterBack(w, k', w.sockets[i].owner, es)
    case RelayData(i, random, from, payload) =>
      if i >= |w.sockets| then w
      else
        AfterBack(w, w.back, w.sockets[i].owner, B.OnRelayData(w.back, w.sockets[i].tag, random, from, payload))
  }

  function Run(w: World, hmac: Hmac, es: seq<Event>): World
    decreases |es|
  {
    if es == [] then w else Run(Step(w, hmac, es[0]), hmac, es[1..])
  }

  /** The assumptions on what the surroundings do. */
  predicate EventOk(e: Event) {
    match e
    case ClientData(client, bytes) =>
      Addressable(client) && (ParseMessage(bytes).Ok? ==> Untagged(ParseMessage(bytes).value.attributes))
    case SocketBound(_, relay) => relay.Some? ==> Addressable(relay.value)
    case RelayData(_, _, _, payload) => |payload| < 65536
    case _ => true
  }

  predicate EventsOk(es: seq<Event>) {
    forall i :: 0 <= i < |es| ==> EventOk(es[i])
  }

  // ---------------------------------------------------------------- what replies carry

  /** The value of the first attribute of the type. */
  function ValueOf(as_: seq<Attribute>, typ: nat): Option<seq<byte>> {
    match FindFirst(as_, typ)
    case None => None
    case Some(i) => as_[i].value
  }

  /** The address in it. */
  function AddressIn(as_: seq<Attribute>, typ: nat): Option<Endpoint> {
    match ValueOf(as_, typ)
    case None => None
    case Some(v) =>
      match ParseXor(v)
      case Err(_) => None
      case Ok(e) => Some(e)
  }

  function RelayedIn(as_: seq<Attribute>): Option<Endpoint> {
    AddressIn(as_, XOR_RELAYED_ADDRESS)
  }

  predicate IsAllocateSuccess(b: seq<byte>) {
    ParseMessage(b).Ok? && ParseMessage(b).value.method_ == ALLOCATE && ParseMessage(b).value.clazz == SUCCESS_RESPONSE
  }

  /** A successful response that carries the address at which the tag's socket is bound. */
  predicate GoodResponse(m: Message, k: B.Back, tag: string) {
    && m.method_ == ALLOCATE && m.clazz == SUCCESS_RESPONSE
    && |m.transactionId| == 12 && AllFit(m.attributes)
    && tag in k.allocations && k.allocations[tag].Bound?
    && RelayedIn(m.attributes) == Some(k.allocations[tag].address)
  }

  predicate ToBackOk(x: InFlight, f: F.Front) {
    && DecodeIpc(x.bytes).Ok?
    && DecodeIpc(x.bytes).value.client == x.origin && Addressable(x.origin)
    && |DecodeIpc(x.bytes).value.message.transactionId| == 12
    && (DecodeIpc(x.bytes).value.message.method_ == ALLOCATE ==> EndpointKey(x.origin) in f.callbacks)
  }

  predicate ToFrontOk(x: InFlight, f: F.Front, k: B.Back) {
    && DecodeIpc(x.bytes).Ok?
    && DecodeIpc(x.bytes).value.client == x.origin
    && EndpointKey(x.origin) in f.callbacks
    && var m := DecodeIpc(x.bytes).value.message;
       (m.method_ == ALLOCATE && m.clazz == SUCCESS_RESPONSE ==> GoodResponse(m, k, EndpointKey(x.origin)))
  }

  predicate PromiseOk(tag: string, p: F.Promise, k: B.Back) {
    match p
    case Waiting(clients) => forall i :: 0 <= i < |clients| ==> EndpointKey(clients[i]) == tag
    case Fulfilled(response, _) => GoodResponse(response, k, tag)
    case Rejected => true
  }

  predicate PendingOk(tag: string, p: B.Pending) {
    p.AllocateRequest? ==> EndpointKey(p.client) == tag && Addressable(p.client) && |p.transactionId| == 12
  }

  predicate RelayOk(tag: string, r: B.Relay) {
    match r
    case Binding(ps) => forall i :: 0 <= i < |ps| ==> PendingOk(tag, ps[i])
    case Bound(address) => Addressable(address)
    case BindFailed => true
  }

  predicate DoneOk(d: Done, k: B.Back) {
    match d.effect
    case Ipc(_) => true
    case CallbackMissing => false
    case Datagram(to, b) =>
      && to == d.origin
      && (IsAllocateSuccess(b) ==>
            var tag := EndpointKey(to);
            tag in k.allocations && k.allocations[tag].Bound? &&
            RelayedIn(ParseMessage(b).value.attributes) == Some(k.allocations[tag].address))
  }

  predicate FrontOk(f: F.Front, k: B.Back) {
    && f.callbacks.Keys == f.promises.Keys
    && (forall tag :: tag in f.promises ==> PromiseOk(tag, f.promises[tag], k))
  }

  predicate BackOk(k: B.Back, f: F.Front) {
    && k.clients.Keys == k.allocations.Keys
    && (forall tag :: tag in k.allocations ==>
          && tag in f.callbacks && RelayOk(tag, k.allocations[tag])
          && EndpointKey(k.clients[tag]) == tag && Addressable(k.clients[tag]))
  }

  predicate SocketsOk(ss: seq<Socket>, k: B.Back) {
    && (forall i :: 0 <= i < |ss| ==> ss[i].tag in k.allocations && ss[i].tag == EndpointKey(ss[i].owner))
    && (forall i, j :: 0 <= i < j < |ss| ==> ss[i].tag != ss[j].tag)
  }

  predicate Inv(w: World) {
    && FrontOk(w.front, w.back)
    && BackOk(w.back, w.front)
    && (forall i :: 0 <= i < |w.toBack| ==> ToBackOk(w.toBack[i], w.front))
    && (forall i :: 0 <= i < |w.toFront| ==> ToFrontOk(w.toFront[i], w.front, w.back))
    && SocketsOk(w.sockets, w.back)
    && (forall i :: 0 <= i < |w.log| ==> DoneOk(w.log[i], w.back))
  }

  // ---------------------------------------------------------------- lists of effects

  predicate FrontEffectsOk(origin: Endpoint, es: seq<F.Effect>, f: F.Front, k: B.Back) {
    forall i :: 0 <= i < |es| ==>
      if es[i].Ipc? then ToBackOk(InFlight(origin, es[i].bytes), f) else DoneOk(Done(origin, es[i]), k)
  }

  predicate BackEffectsOk(origin: Endpoint, es: seq<B.Effect>, f: F.Front, k: B.Back) {
    forall i :: 0 <= i < |es| ==> es[i].Ipc? ==> ToFrontOk(InFlight(origin, es[i].bytes), f, k)
  }

  lemma {:induction false} FrontIpcsOk(origin: Endpoint, es: seq<F.Effect>, f: F.Front, k: B.Back)
    requires FrontEffectsOk(origin, es, f, k)
    ensures forall i :: 0 <= i < |FrontIpcs(origin, es)| ==> ToBackOk(FrontIpcs(origin, es)[i], f)
  {
    if es != [] {
      assert forall i :: 0 <= i < |es[1..]| ==> es[1..][i] == es[i + 1];
      FrontIpcsOk(origin, es[1..], f, k);
    }
  }

  lemma {:induction false} BackIpcsOk(origin: Endpoint, es: seq<B.Effect>, f: F.Front, k: B.Back)
    requires BackEffectsOk(origin, es, f, k)
    ensures forall i :: 0 <= i < |BackIpcs(origin, es)| ==> ToFrontOk(BackIpcs(origin, es)[i], f, k)
  {
    if es != [] {
      assert forall i :: 0 <= i < |es[1..]| ==> es[1..][i] == es[i + 1];
      BackIpcsOk(origin, es[1..], f, k);
    }
  }

  predicate NoSockets(es: seq<B.Effect>) {
    forall i :: 0 <= i < |es| ==> !es[i].NewSocket?
  }

  lemma {:induction false} NoNewSockets(origin: Endpoint, es: seq<B.Effect>)
    requires NoSockets(es)
    ensures NewSockets(origin, es) == []
  {
    if es != [] {
      NoNewSockets(origin, es[1..]);
    }
  }

  // ---------------------------------------------------------------- growth

  /** Clients stay registered. */
  predicate FrontGrows(f: F.Front, f': F.Front) {
    f.callbacks.Keys <= f'.callbacks.Keys
  }

  /** Relay sockets stay, and those that are bound stay where they are. */
  predicate BackGrows(k: B.Back, k': B.Back) {
    && k.allocations.Keys <= k'.allocations.Keys
    && (forall tag :: tag in k.allocations && k.allocations[tag].Bound? ==> k'.allocations[tag] == k.allocations[tag])
  }

  lemma FrontGrowthKeeps(w: World, f': F.Front, origin: Endpoint, es: seq<F.Effect>)
    requires Inv(w) && FrontOk(f', w.back) && FrontGrows(w.front, f')
    requires FrontEffectsOk(origin, es, f', w.back)
    ensures Inv(AfterFront(w, f', origin, es))
  {
    FrontIpcsOk(origin, es, f', w.back);
    assert forall tag :: tag in w.front.callbacks ==> tag in f'.callbacks;
  }

  lemma BackGrowthKeeps(w: World, k': B.Back, origin: Endpoint, es: seq<B.Effect>)
    requires Inv(w) && BackOk(k', w.front) && BackGrows(w.back, k')
    requires BackEffectsOk(origin, es, w.front, k')
    requires SocketsOk(w.sockets + NewSockets(origin, es), k')
    ensures Inv(AfterBack(w, k', origin, es))
  {
    BackIpcsOk(origin, es, w.front, k');
    assert forall tag :: tag in w.back.allocations ==> tag in k'.allocations;
    forall tag | tag in w.front.promises
      ensures PromiseOk(tag, w.front.promises[tag], k')
    {
      assert PromiseOk(tag, w.front.promises[tag], w.back);
    }
  }
}
