/** The TURN backend: it owns the relay sockets, one per client tag. */
module TurnBackend {
  import opened Basics
  import opened Text
  import opened StunMessages
  import opened StunAddresses
  import opened StunBuffers
  import opened TurnIpc

  /** What awaits a relay socket that is still being bound. */
  datatype Pending =
    | AllocateRequest(transactionId: seq<byte>, client: Endpoint)
    | SendRequest(to: Endpoint, payload: seq<byte>)

  /** The promise in allocations_ for a tag. */
  datatype Relay = Binding(pending: seq<Pending>) | Bound(address: Endpoint) | BindFailed

  datatype Effect =
    | Ipc(bytes: seq<byte>)
    | NewSocket(tag: string)
    | RelaySend(tag: string, to: Endpoint, payload: seq<byte>)

  /** allocations_ by tag, and the endpoint for which each tag's socket was made. */
  datatype Back = Back(allocations: map<string, Relay>, clients: map<string, Endpoint>)

  function Emitted(m: Message, client: Endpoint): seq<Effect> {
    match EmitIpc(m, client)
    case None => []
    case Some(b) => [Ipc(b)]
  }

  /** The answer to an ALLOCATE request once its socket is bound; None when an address cannot be printed. */
  function SuccessResponse(transactionId: seq<byte>, relay: Endpoint, client: Endpoint): Option<Message> {
    match FormatXor(relay)
    case Err(_) => None
    case Ok(r) =>
      match FormatXor(client)
      case Err(_) => None
      case Ok(c) =>
        Some(Message(ALLOCATE, SUCCESS_RESPONSE, transactionId,
                     [Attribute(XOR_RELAYED_ADDRESS, Some(r)),
                      Attribute(XOR_MAPPED_ADDRESS, Some(c)),
                      Attribute(LIFETIME, Some(TEN_MINUTES))]))
  }

  function FailureResponse(transactionId: seq<byte>): Message {
    Message(ALLOCATE, FAILURE_RESPONSE, transactionId, [])
  }

  /** What a pending request leads to, with the outcome of the binding. */
  function Resolve(tag: string, p: Pending, relay: Option<Endpoint>): seq<Effect> {
    match (p, relay)
    case (AllocateRequest(id, client), Some(address)) =>
      (match SuccessResponse(id, address, client)
       case None => []
       case Some(m) => Emitted(m, client))
    case (AllocateRequest(id, client), None) => Emitted(FailureResponse(id), client)
    case (SendRequest(to, payload), Some(_)) => [RelaySend(tag, to, payload)]
    case (SendRequest(_, _), None) => []
  }

  function ResolveAll(tag: string, ps: seq<Pending>, relay: Option<Endpoint>): seq<Effect>
    decreases |ps|
  {
    if ps == [] then [] else Resolve(tag, ps[0], relay) + ResolveAll(tag, ps[1..], relay)
  }

  lemma NextResolved(tag: string, ps: seq<Pending>, i: nat, relay: Option<Endpoint>, before: seq<Effect>)
    requires i < |ps|
    ensures before + ResolveAll(tag, ps[i..], relay)
         == (before + Resolve(tag, ps[i], relay)) + ResolveAll(tag, ps[i + 1..], relay)
  {
    assert ps[i..][1..] == ps[i + 1..];
  }

  /** `.then` on the promise of a tag: at once when it is settled. */
  function Then(k: Back, tag: string, p: Pending): (Back, seq<Effect>)
    requires tag in k.allocations
  {
    match k.allocations[tag]
    case Binding(ps) => (k.(allocations := k.allocations[tag := Binding(ps + [p])]), [])
    case Bound(address) => (k, Resolve(tag, p, Some(address)))
    case BindFailed => (k, Resolve(tag, p, None))
  }

  function MakeAllocation(k: Back, client: Endpoint): (Back, seq<Effect>) {
    var tag := EndpointKey(client);
    if tag in k.allocations then (k, [])
    else (Back(k.allocations[tag := Binding([])], k.clients[tag := client]), [NewSocket(tag)])
  }

  /** The destination and payload of a SEND indication; None when one is missing or malformed. */
  function SendTarget(m: Message): Option<(Endpoint, seq<byte>)> {
    match (FindFirst(m.attributes, XOR_PEER_ADDRESS), FindFirst(m.attributes, DATA_ATTRIBUTE))
    case (Some(i), Some(j)) =>
      (match (m.attributes[i].value, m.attributes[j].value)
       case (Some(address), Some(payload)) =>
         (match ParseXor(address)
          case Err(_) => None
          case Ok(to) => Some((to, payload)))
       case _ => None)
    case _ => None
  }

  function OnIpc(k: Back, b: seq<byte>): (Back, seq<Effect>) {
    match DecodeIpc(b)
    case Err(_) => (k, [])
    case Ok(Decoded(m, client)) =>
      var tag := EndpointKey(client);
      if m.method_ == ALLOCATE then
        var (k', made) := MakeAllocation(k, client);
        var (k'', out) := Then(k', tag, AllocateRequest(m.transactionId, client));
        (k'', made + out)
      else if m.method_ == SEND then
        match SendTarget(m)
        case None => (k, [])
        case Some((to, payload)) =>
          if tag in k.allocations then Then(k, tag, SendRequest(to, payload)) else (k, [])
      else (k, [])
  }

  /** The socket of a tag has been bound, to the given address, or not. */
  function OnBound(k: Back, tag: string, relay: Option<Endpoint>): (Back, seq<Effect>) {
    if tag in k.allocations && k.allocations[tag].Binding? then
      (k.(allocations := k.allocations[tag := if relay.Some? then Bound(relay.value) else BindFailed]),
       ResolveAll(tag, k.allocations[tag].pending, relay))
    else (k, [])
  }

  /** The indication sent for a datagram that arrived at a relay socket. */
  function DataIndication(transactionId: seq<byte>, from: seq<byte>, payload: seq<byte>): Message {
    Message(DATA, INDICATION, transactionId,
            [Attribute(XOR_PEER_ADDRESS, Some(from)), Attribute(DATA_ATTRIBUTE, Some(payload))])
  }

  /** A datagram has arrived at the relay socket of a tag; `random` is the transaction ID drawn for it. */
  function OnRelayData(k: Back, tag: string, random: seq<byte>, from: Endpoint, payload: seq<byte>): seq<Effect> {
    if tag in k.clients && tag in k.allocations && k.allocations[tag].Bound? then
      match FormatXor(from)
      case Err(_) => []
      case Ok(v) => Emitted(DataIndication(random, v, payload), k.clients[tag])
    else []
  }

  class Backend {
    var allocations_: map<string, Relay>
    /** The clientEndpoint that each socket's onData handler closes over. */
    var clients: map<string, Endpoint>
    var effects: seq<Effect>

    function View(): Back
      reads this
    {
      Back(allocations_, clients)
    }

    constructor ()
      ensures View() == Back(map[], map[]) && effects == []
    {
      allocations_, clients, effects := map[], map[], [];
    }

    method Emit(m: Message, client: Endpoint)
      modifies `effects
      ensures effects == old(effects) + Emitted(m, client)
    {
      var v := FormatXor(client);
      if v.Err? {
        return;
      }
      var bytes := FormatStunMessage(m.(attributes := m.attributes + [TagAttribute(v.value)]));
      if bytes.Ok? {
        effects := effects + [Ipc(bytes.value[..])];
      }
    }

    method ResolveOne(tag: string, p: Pending, relay: Option<Endpoint>)
      modifies `effects
      ensures effects == old(effects) + Resolve(tag, p, relay)
    {
      match p {
        case AllocateRequest(id, client) =>
          if relay.None? {
            Emit(FailureResponse(id), client);
          } else {
            var response := SuccessResponse(id, relay.value, client);
            if response.Some? {
              Emit(response.value, client);
            }
          }
        case SendRequest(to, payload) =>
          if relay.Some? {
            effects := effects + [RelaySend(tag, to, payload)];
          }
      }
    }

    method Await(tag: string, p: Pending)
      requires tag in allocations_
      modifies this
      ensures View() == Then(old(View()), tag, p).0
      ensures effects == old(effects) + Then(old(View()), tag, p).1
    {
      match allocations_[tag] {
        case Binding(ps) => allocations_ := allocations_[tag := Binding(ps + [p])];
        case Bound(address) => ResolveOne(tag, p, Some(address));
        case BindFailed => ResolveOne(tag, p, None);
      }
    }

    method HandleAllocate(transactionId: seq<byte>, client: Endpoint)
      modifies this
      ensures var (k, made) := MakeAllocation(old(View()), client);
              var (k', out) := Then(k, EndpointKey(client), AllocateRequest(transactionId, client));
              View() == k' && effects == old(effects) + (made + out)
    {
      var tag := EndpointKey(client);
      if tag !in allocations_ {
        allocations_ := allocations_[tag := Binding([])];
        clients := clients[tag := client];
        effects := effects + [NewSocket(tag)];
      }
      Await(tag, AllocateRequest(transactionId, client));
    }

    method HandleIpc(data: array<byte>)
      modifies this, data
      ensures View() == OnIpc(old(View()), old(data[..])).0
      ensures effects == old(effects) + OnIpc(old(View()), old(data[..])).1
    {
      var decoded := DecodeIpcInPlace(data);
      if decoded.Err? {
        return;
      }
      var Decoded(m, client) := decoded.value;
      var tag := EndpointKey(client);
      if m.method_ == ALLOCATE {
        HandleAllocate(m.transactionId, client);
      } else if m.method_ == SEND {
        var target := SendTarget(m);
        if target.Some? && tag in allocations_ {
          var (to, payload) := target.value;
          Await(tag, SendRequest(to, payload));
        }
      }
    }

    method OnSocketBound(tag: string, relay: Option<Endpoint>)
      modifies this
      ensures View() == OnBound(old(View()), tag, relay).0
      ensures effects == old(effects) + OnBound(old(View()), tag, relay).1
    {
      if tag in allocations_ && allocations_[tag].Binding? {
        var pending := allocations_[tag].pending;
        allocations_ := allocations_[tag := if relay.Some? then Bound(relay.value) else BindFailed];
        for i := 0 to |pending|
          invariant View() == OnBound(old(View()), tag, relay).0
          invariant effects + ResolveAll(tag, pending[i..], relay) == old(effects) + ResolveAll(tag, pending, relay)
        {
          NextResolved(tag, pending, i, relay, effects);
          ResolveOne(tag, pending[i], relay);
        }
        assert effects + [] == effects;
      }
    }

    method OnDatagram(tag: string, random: seq<byte>, from: Endpoint, payload: seq<byte>)
      modifies this
      ensures View() == old(View())
      ensures effects == old(effects) + OnRelayData(View(), tag, random, from, payload)
    {
      if tag in clients && tag in allocations_ && allocations_[tag].Bound? {
        var v := FormatXor(from);
        if v.Ok? {
          Emit(DataIndication(random, v.value, payload), clients[tag]);
        }
      }
    }
  }
}
