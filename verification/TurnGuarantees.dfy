/** What the TURN server as a whole promises, over every run within TurnRouting's assumptions. */
module TurnGuarantees {
  import opened Basics
  import opened Text
  import opened StunMessages
  import opened StunAddresses
  import opened StunBuffers
  import opened StunIntegrity
  import opened TurnIpc
  import opened TurnRouting
  import F = TurnFrontend
  import B = TurnBackend

  // ---------------------------------------------------------------- replies to clients

  lemma {:induction false} FindInFront(as_: seq<Attribute>, more: seq<Attribute>, typ: nat)
    requires forall i :: 0 <= i < |more| ==> more[i].typ != typ
    ensures FindFirst(as_ + more, typ) == FindFirst(as_, typ)
  {
    if as_ == [] {
      assert as_ + more == more;
    } else {
      assert (as_ + more)[1..] == as_[1..] + more;
      FindInFront(as_[1..], more, typ);
    }
  }

  /** Normalising and appending other attributes does not change the value that is found, except an empty one. */
  lemma ValueKept(as_: seq<Attribute>, more: seq<Attribute>, typ: nat)
    requires forall i :: 0 <= i < |more| ==> more[i].typ != typ
    ensures ValueOf(NormAll(as_ + more), typ) == (if ValueOf(as_, typ) == Some([]) then None else ValueOf(as_, typ))
  {
    FindNormal(as_ + more, typ);
    FindInFront(as_, more, typ);
    var r := FindFirst(as_, typ);
    if r.Some? {
      assert NormAll(as_ + more)[r.value] == Norm(as_[r.value]);
    }
  }

  /** Nor the address that is read. */
  lemma RelayedKept(as_: seq<Attribute>, more: seq<Attribute>)
    requires forall i :: 0 <= i < |more| ==> more[i].typ != XOR_RELAYED_ADDRESS
    ensures RelayedIn(NormAll(as_ + more)) == RelayedIn(as_)
  {
    ValueKept(as_, more, XOR_RELAYED_ADDRESS);
    assert ParseXor([]).Err?;
  }

  /** A reply goes to its client, and reads as the message it was made from, signed. */
  lemma ReplyReads(hmac: Hmac, to: Endpoint, m: Message)
    requires TwentyBytes(hmac) && |m.transactionId| == 12
    requires m.method_ < 16 && AllFit(m.attributes)
    ensures FormatWithIntegrity(m, hmac).Ok?
    ensures var b := FormatWithIntegrity(m, hmac).value;
            && F.Reply(hmac, to, m) == [F.Datagram(to, b)]
            && ParseMessage(b) == Ok(Normal(WithIntegrity(m, hmac(b[..|b| - 24]))))
            && RelayedIn(ParseMessage(b).value.attributes) == RelayedIn(m.attributes)
  {
    SignedRoundTrip(m, hmac);
    var b := FormatWithIntegrity(m, hmac).value;
    RelayedWhenSigned(m, hmac(b[..|b| - 24]));
  }

  lemma RelayedWhenSigned(m: Message, hash: seq<byte>)
    ensures RelayedIn(Normal(WithIntegrity(m, hash)).attributes) == RelayedIn(m.attributes)
  {
    RelayedKept(m.attributes, [Attribute(MESSAGE_INTEGRITY, Some(hash))]);
  }

  /** A reply that is not a successful ALLOCATE response. */
  lemma PlainReplyOk(hmac: Hmac, to: Endpoint, m: Message, k: B.Back, f: F.Front)
    requires TwentyBytes(hmac) && |m.transactionId| == 12
    requires m.method_ < 16 && AllFit(m.attributes)
    requires m.method_ != ALLOCATE || m.clazz != SUCCESS_RESPONSE
    ensures FrontEffectsOk(to, F.Reply(hmac, to, m), f, k)
  {
    ReplyReads(hmac, to, m);
  }

  lemma ReusedFits(response: Message, n: nat)
    requires AllFit(response.attributes)
    ensures AllFit(F.Reused(response, n).attributes)
    ensures RelayedIn(F.Reused(response, n).attributes) == RelayedIn(response.attributes)
  {
    var more := F.ZeroIntegrity(n);
    FindInFront(response.attributes, more, XOR_RELAYED_ADDRESS);
  }

  lemma GoodReplyOk(hmac: Hmac, to: Endpoint, response: Message, n: nat, k: B.Back, f: F.Front)
    requires TwentyBytes(hmac) && GoodResponse(response, k, EndpointKey(to))
    ensures FrontEffectsOk(to, F.Reply(hmac, to, F.Reused(response, n)), f, k)
  {
    ReusedFits(response, n);
    ReplyReads(hmac, to, F.Reused(response, n));
  }

  lemma {:induction false} RepliesOk(
    hmac: Hmac, response: Message, n: nat, clients: seq<Endpoint>, origin: Endpoint, k: B.Back, f: F.Front)
    requires TwentyBytes(hmac) && GoodResponse(response, k, EndpointKey(origin))
    requires forall i :: 0 <= i < |clients| ==> clients[i] == origin
    ensures FrontEffectsOk(origin, F.Replies(hmac, response, n, clients), f, k)
    decreases |clients|
  {
    if clients != [] {
      var rest := clients[1..];
      assert clients[0] == origin && forall i :: 0 <= i < |rest| ==> rest[i] == clients[i + 1];
      GoodReplyOk(hmac, origin, response, n, k, f);
      RepliesOk(hmac, response, n + 1, rest, origin, k, f);
      var first, others := F.Reply(hmac, origin, F.Reused(response, n)), F.Replies(hmac, response, n + 1, rest);
      assert F.Replies(hmac, response, n, clients) == first + others;
      EffectsTogether(origin, first, others, f, k);
    }
  }

  lemma EffectsTogether(origin: Endpoint, es: seq<F.Effect>, more: seq<F.Effect>, f: F.Front, k: B.Back)
    requires FrontEffectsOk(origin, es, f, k) && FrontEffectsOk(origin, more, f, k)
    ensures FrontEffectsOk(origin, es + more, f, k)
  {
  }

  predicate NoIpc(es: seq<F.Effect>) {
    forall i :: 0 <= i < |es| ==> !es[i].Ipc?
  }

  lemma {:induction false} NoIpcs(origin: Endpoint, es: seq<F.Effect>)
    requires NoIpc(es)
    ensures FrontIpcs(origin, es) == []
  {
    if es != [] {
      NoIpcs(origin, es[1..]);
    }
  }

  lemma {:induction false} RepliesNoIpc(hmac: Hmac, response: Message, n: nat, clients: seq<Endpoint>)
    ensures NoIpc(F.Replies(hmac, response, n, clients))
    decreases |clients|
  {
    if clients != [] {
      RepliesNoIpc(hmac, response, n + 1, clients[1..]);
    }
  }

  /** What comes over IPC to the frontend leads to nothing on IPC. */
  lemma NoIpcOut(f: F.Front, b: seq<byte>, origin: Endpoint, hmac: Hmac)
    ensures FrontIpcs(origin, F.OnIpc(f, hmac, b).1) == []
  {
    var es := F.OnIpc(f, hmac, b).1;
    if DecodeIpc(b).Ok? && EndpointKey(DecodeIpc(b).value.client) in f.promises {
      var p := f.promises[EndpointKey(DecodeIpc(b).value.client)];
      if p.Waiting? {
        RepliesNoIpc(hmac, DecodeIpc(b).value.message, 0, p.clients);
      }
    }
    NoIpcs(origin, es);
  }

  // ---------------------------------------------------------------- the frontend's handlers

  /** What a client's message becomes on the IPC channel. */
  lemma ClientMessageEmitted(m: Message, client: Endpoint, b: seq<byte>, f: F.Front)
    requires EmitIpc(m, client) == Some(b)
    requires m.method_ < 16 && AllFit(m.attributes) && Untagged(m.attributes) && Addressable(client)
    requires m.method_ == ALLOCATE ==> EndpointKey(client) in f.callbacks
    ensures ToBackOk(InFlight(client, b), f)
  {
    EmittedDecodes(m, client, b);
  }

  lemma AwaitOk(f: F.Front, k: B.Back, hmac: Hmac, client: Endpoint)
    requires FrontOk(f, k) && TwentyBytes(hmac) && EndpointKey(client) in f.promises
    ensures var (f', es) := F.Await(f, hmac, client);
            FrontOk(f', k) && f'.callbacks == f.callbacks && FrontEffectsOk(client, es, f', k)
  {
    var tag := EndpointKey(client);
    assert PromiseOk(tag, f.promises[tag], k);
    var (f', es) := F.Await(f, hmac, client);
    if f.promises[tag].Fulfilled? {
      GoodReplyOk(hmac, client, f.promises[tag].response, f.promises[tag].replies, k, f');
    }
  }

  lemma RegisterOk(f: F.Front, k: B.Back, client: Endpoint)
    requires FrontOk(f, k)
    ensures var f' := F.Register(f, client);
            FrontOk(f', k) && FrontGrows(f, f') && EndpointKey(client) in f'.callbacks
  {
  }

  lemma AllocateRequestOk(f: F.Front, k: B.Back, hmac: Hmac, m: Message, client: Endpoint)
    requires FrontOk(f, k) && TwentyBytes(hmac) && Addressable(client)
    requires m.method_ == ALLOCATE && |m.transactionId| == 12 && AllFit(m.attributes) && Untagged(m.attributes)
    ensures var (f', es) := F.OnRequest(f, hmac, m, client);
            FrontOk(f', k) && FrontGrows(f, f') && FrontEffectsOk(client, es, f', k)
  {
    if FindFirst(m.attributes, USERNAME).None? {
      PlainReplyOk(hmac, client, F.Unauthorised(m), k, f);
    } else {
      RegisterOk(f, k, client);
      var f' := F.Register(f, client);
      var e := EmitIpc(m, client);
      if e.Some? {
        AllocateForwarded(f', k, hmac, m, client, e.value);
      }
    }
  }

  lemma AllocateForwarded(f: F.Front, k: B.Back, hmac: Hmac, m: Message, client: Endpoint, b: seq<byte>)
    requires FrontOk(f, k) && TwentyBytes(hmac) && Addressable(client) && EndpointKey(client) in f.promises
    requires m.method_ == ALLOCATE && |m.transactionId| == 12 && AllFit(m.attributes) && Untagged(m.attributes)
    requires EmitIpc(m, client) == Some(b)
    ensures var (f', es) := F.Await(f, hmac, client);
            FrontOk(f', k) && f'.callbacks == f.callbacks && FrontEffectsOk(client, [F.Ipc(b)] + es, f', k)
  {
    AwaitOk(f, k, hmac, client);
    ClientMessageEmitted(m, client, b, F.Await(f, hmac, client).0);
  }

  lemma OnDataOk(f: F.Front, k: B.Back, hmac: Hmac, b: seq<byte>, client: Endpoint)
    requires FrontOk(f, k) && TwentyBytes(hmac) && EventOk(ClientData(client, b))
    ensures var (f', es) := F.OnData(f, hmac, b, client);
            FrontOk(f', k) && FrontGrows(f, f') && FrontEffectsOk(client, es, f', k)
  {
    if ParseMessage(b).Ok? {
      var m := ParseMessage(b).value;
      ParsesUnlessResidue(b[20..]);
      if m.method_ == ALLOCATE {
        AllocateRequestOk(f, k, hmac, m, client);
      } else if m.method_ == CREATE_PERMISSION {
        PlainReplyOk(hmac, client, Message(CREATE_PERMISSION, SUCCESS_RESPONSE, m.transactionId, []), k, f);
      } else if m.method_ == REFRESH {
        PlainReplyOk(hmac, client, Message(REFRESH, SUCCESS_RESPONSE, m.transactionId,
                                           [Attribute(LIFETIME, Some(TEN_MINUTES))]), k, f);
      } else if m.method_ == SEND && EmitIpc(m, client).Some? {
        ClientMessageEmitted(m, client, EmitIpc(m, client).value, f);
      }
    }
  }

  lemma OnFrontIpcOk(f: F.Front, k: B.Back, hmac: Hmac, x: InFlight)
    requires FrontOk(f, k) && TwentyBytes(hmac) && ToFrontOk(x, f, k)
    ensures var (f', es) := F.OnIpc(f, hmac, x.bytes);
            FrontOk(f', k) && f'.callbacks == f.callbacks && FrontEffectsOk(x.origin, es, f', k)
  {
    var Decoded(m, client) := DecodeIpc(x.bytes).value;
    var tag := EndpointKey(client);
    if m.method_ == ALLOCATE {
      assert PromiseOk(tag, f.promises[tag], k);
      if f.promises[tag].Waiting? && m.clazz == SUCCESS_RESPONSE {
        var clients := f.promises[tag].clients;
        forall i | 0 <= i < |clients|
          ensures clients[i] == x.origin
        {
          EndpointKeyInjective(clients[i], x.origin);
        }
        RepliesOk(hmac, m, 0, clients, x.origin, k, F.OnIpc(f, hmac, x.bytes).0);
      }
    } else if m.method_ == DATA {
      AfterDecodeParses(x.bytes);
    }
  }

  // ---------------------------------------------------------------- the backend's handlers

  /** What an untagged message of the backend becomes on the IPC channel. */
  lemma BackendMessageEmitted(m: Message, client: Endpoint, f: F.Front, k: B.Back)
    requires m.method_ < 16 && AllFit(m.attributes) && Untagged(m.attributes) && Addressable(client)
    requires EndpointKey(client) in f.callbacks
    requires m.method_ == ALLOCATE && m.clazz == SUCCESS_RESPONSE ==>
               var tag := EndpointKey(client);
               && tag in k.allocations && k.allocations[tag].Bound?
               && RelayedIn(m.attributes) == Some(k.allocations[tag].address)
    ensures BackEffectsOk(client, B.Emitted(m, client), f, k) && NoSockets(B.Emitted(m, client))
  {
    var e := EmitIpc(m, client);
    if e.Some? {
      EmittedDecodes(m, client, e.value);
      TaggedFits(m.attributes, TagAttribute(XorAddress(FormatXor(client).value)));
    }
  }

  lemma TaggedFits(as_: seq<Attribute>, tag: Attribute)
    requires AllFit(as_) && Fits(tag) && tag.typ != XOR_RELAYED_ADDRESS && Norm(tag) == tag
    ensures AllFit(NormAll(as_) + [tag])
    ensures RelayedIn(NormAll(as_) + [tag]) == RelayedIn(as_)
  {
    RelayedKept(as_, [tag]);
    assert NormAll(as_) + [tag] == NormAll(as_ + [tag]);
    assert forall i :: 0 <= i < |as_| ==> NormAll(as_)[i] == Norm(as_[i]);
  }

  lemma ResponseOk(tag: string, p: B.Pending, relay: Option<Endpoint>, origin: Endpoint, f: F.Front, k: B.Back)
    requires PendingOk(tag, p) && EndpointKey(origin) == tag && tag in f.callbacks
    requires relay.Some? ==>
               Addressable(relay.value) && tag in k.allocations && k.allocations[tag] == B.Bound(relay.value)
    ensures BackEffectsOk(origin, B.Resolve(tag, p, relay), f, k) && NoSockets(B.Resolve(tag, p, relay))
  {
    if p.AllocateRequest? {
      EndpointKeyInjective(p.client, origin);
      if relay.None? {
        BackendMessageEmitted(B.FailureResponse(p.transactionId), origin, f, k);
      } else {
        SuccessOk(p.transactionId, relay.value, origin, f, k);
      }
    }
  }

  /** The attributes of a successful response. */
  lemma SuccessReads(id: seq<byte>, relay: Endpoint, client: Endpoint)
    requires Addressable(relay) && B.SuccessResponse(id, relay, client).Some?
    ensures var m := B.SuccessResponse(id, relay, client).value;
            AllFit(m.attributes) && Untagged(m.attributes) && RelayedIn(m.attributes) == Some(relay)
  {
    AddressRoundTrip(relay);
    assert FindFirst(B.SuccessResponse(id, relay, client).value.attributes, XOR_RELAYED_ADDRESS) == Some(0);
  }

  lemma SuccessOk(id: seq<byte>, relay: Endpoint, client: Endpoint, f: F.Front, k: B.Back)
    requires |id| == 12 && Addressable(relay) && Addressable(client)
    requires var tag := EndpointKey(client);
             tag in f.callbacks && tag in k.allocations && k.allocations[tag] == B.Bound(relay)
    ensures var p := B.AllocateRequest(id, client);
            var es := B.Resolve(EndpointKey(client), p, Some(relay));
            BackEffectsOk(client, es, f, k) && NoSockets(es)
  {
    if B.SuccessResponse(id, relay, client).Some? {
      SuccessReads(id, relay, client);
      BackendMessageEmitted(B.SuccessResponse(id, relay, client).value, client, f, k);
    }
  }

  lemma {:induction false} ResponsesOk(
    tag: string, ps: seq<B.Pending>, relay: Option<Endpoint>, origin: Endpoint, f: F.Front, k: B.Back)
    requires forall i :: 0 <= i < |ps| ==> PendingOk(tag, ps[i])
    requires EndpointKey(origin) == tag && tag in f.callbacks
    requires relay.Some? ==>
               Addressable(relay.value) && tag in k.allocations && k.allocations[tag] == B.Bound(relay.value)
    ensures BackEffectsOk(origin, B.ResolveAll(tag, ps, relay), f, k) && NoSockets(B.ResolveAll(tag, ps, relay))
    decreases |ps|
  {
    if ps != [] {
      ResponseOk(tag, ps[0], relay, origin, f, k);
      ResponsesOk(tag, ps[1..], relay, origin, f, k);
    }
  }

  lemma ThenOk(k: B.Back, f: F.Front, tag: string, p: B.Pending, origin: Endpoint)
    requires BackOk(k, f) && tag in k.allocations && PendingOk(tag, p) && EndpointKey(origin) == tag
    ensures var (k', es) := B.Then(k, tag, p);
            && BackOk(k', f) && BackGrows(k, k') && k'.allocations.Keys == k.allocations.Keys
            && BackEffectsOk(origin, es, f, k') && NoSockets(es)
  {
    assert RelayOk(tag, k.allocations[tag]);
    match k.allocations[tag]
    case Binding(ps) => PendingAdded(k, f, tag, ps, p);
    case Bound(address) => ResponseOk(tag, p, Some(address), origin, f, k);
    case BindFailed => ResponseOk(tag, p, None, origin, f, k);
  }

  lemma PendingAdded(k: B.Back, f: F.Front, tag: string, ps: seq<B.Pending>, p: B.Pending)
    requires BackOk(k, f) && tag in k.allocations && k.allocations[tag] == B.Binding(ps) && PendingOk(tag, p)
    ensures var k' := k.(allocations := k.allocations[tag := B.Binding(ps + [p])]);
            BackOk(k', f) && BackGrows(k, k') && k'.allocations.Keys == k.allocations.Keys
  {
    var k' := k.(allocations := k.allocations[tag := B.Binding(ps + [p])]);
    assert RelayOk(tag, k.allocations[tag]);
    assert RelayOk(tag, k'.allocations[tag]);
    assert k'.allocations.Keys == k.allocations.Keys;
  }

  lemma MakeAllocationOk(k: B.Back, f: F.Front, client: Endpoint)
    requires BackOk(k, f) && EndpointKey(client) in f.callbacks && Addressable(client)
    ensures var (k', es) := B.MakeAllocation(k, client);
            && BackOk(k', f) && BackGrows(k, k') && k'.allocations.Keys == k.allocations.Keys + {EndpointKey(client)}
            && es == if EndpointKey(client) in k.allocations then [] else [B.NewSocket(EndpointKey(client))]
  {
    var tag := EndpointKey(client);
    if tag !in k.allocations {
      var k' := B.MakeAllocation(k, client).0;
      assert k'.allocations.Keys == k.allocations.Keys + {tag};
      forall t | t in k'.allocations
        ensures t in f.callbacks && RelayOk(t, k'.allocations[t])
        ensures EndpointKey(k'.clients[t]) == t && Addressable(k'.clients[t])
      {
        if t != tag {
          assert t in k.allocations;
          assert k'.allocations[t] == k.allocations[t] && k'.clients[t] == k.clients[t];
        }
      }
    }
  }

  /** What a handler of the backend may do on behalf of `origin`. */
  predicate BackHandled(k: B.Back, k': B.Back, es: seq<B.Effect>, f: F.Front, origin: Endpoint) {
    && BackOk(k', f) && BackGrows(k, k') && BackEffectsOk(origin, es, f, k')
    && (NewSockets(origin, es) == [] ||
        (EndpointKey(origin) !in k.allocations && EndpointKey(origin) in k'.allocations
         && NewSockets(origin, es) == [Socket(EndpointKey(origin), origin)]))
  }

  lemma AllocateIpcOk(k: B.Back, f: F.Front, id: seq<byte>, client: Endpoint)
    requires BackOk(k, f) && EndpointKey(client) in f.callbacks && Addressable(client) && |id| == 12
    ensures var (k1, made) := B.MakeAllocation(k, client);
            var (k2, out) := B.Then(k1, EndpointKey(client), B.AllocateRequest(id, client));
            BackHandled(k, k2, made + out, f, client)
  {
    MakeAllocationOk(k, f, client);
    var tag := EndpointKey(client);
    var (k1, made) := B.MakeAllocation(k, client);
    var p := B.AllocateRequest(id, client);
    ThenOk(k1, f, tag, p, client);
    var (k2, out) := B.Then(k1, tag, p);
    NoNewSockets(client, out);
    if made == [] {
      assert made + out == out;
    } else {
      assert (made + out)[1..] == out;
    }
    BackGrowsTwice(k, k1, k2);
  }

  lemma BackGrowsTwice(k: B.Back, k1: B.Back, k2: B.Back)
    requires BackGrows(k, k1) && BackGrows(k1, k2)
    ensures BackGrows(k, k2)
  {
    assert forall tag :: tag in k.allocations ==> tag in k1.allocations;
  }

  lemma SendIpcOk(k: B.Back, f: F.Front, to: Endpoint, payload: seq<byte>, client: Endpoint)
    requires BackOk(k, f) && EndpointKey(client) in k.allocations
    ensures var (k', es) := B.Then(k, EndpointKey(client), B.SendRequest(to, payload));
            BackHandled(k, k', es, f, client)
  {
    var p := B.SendRequest(to, payload);
    ThenOk(k, f, EndpointKey(client), p, client);
    NoNewSockets(client, B.Then(k, EndpointKey(client), p).1);
  }

  /** A message from `origin` makes at most one new socket, for origin's own tag if that had none. */
  lemma OnBackIpcOk(k: B.Back, f: F.Front, x: InFlight)
    requires BackOk(k, f) && ToBackOk(x, f)
    ensures var (k', es) := B.OnIpc(k, x.bytes);
            BackHandled(k, k', es, f, x.origin)
  {
    var Decoded(m, client) := DecodeIpc(x.bytes).value;
    if m.method_ == ALLOCATE {
      AllocateIpcOk(k, f, m.transactionId, client);
    } else if m.method_ == SEND && B.SendTarget(m).Some? && EndpointKey(client) in k.allocations {
      var (to, payload) := B.SendTarget(m).value;
      SendIpcOk(k, f, to, payload, client);
    }
  }

  lemma SocketsGrow(ss: seq<Socket>, k: B.Back, k': B.Back, origin: Endpoint, es: seq<B.Effect>, f: F.Front)
    requires SocketsOk(ss, k) && BackHandled(k, k', es, f, origin)
    ensures SocketsOk(ss + NewSockets(origin, es), k')
  {
    if NewSockets(origin, es) == [] {
      assert ss + NewSockets(origin, es) == ss;
    }
  }

  lemma OnBoundOk(k: B.Back, f: F.Front, tag: string, relay: Option<Endpoint>, origin: Endpoint)
    requires BackOk(k, f) && tag in k.allocations && EndpointKey(origin) == tag
    requires relay.Some? ==> Addressable(relay.value)
    ensures var (k', es) := B.OnBound(k, tag, relay);
            && BackOk(k', f) && BackGrows(k, k') && BackEffectsOk(origin, es, f, k') && NoSockets(es)
            && k'.allocations.Keys == k.allocations.Keys
  {
    assert RelayOk(tag, k.allocations[tag]);
    if k.allocations[tag].Binding? {
      ResponsesOk(tag, k.allocations[tag].pending, relay, origin, f, B.OnBound(k, tag, relay).0);
    }
  }

  lemma OnRelayDataOk(
    k: B.Back, f: F.Front, tag: string, random: seq<byte>, from: Endpoint, payload: seq<byte>, origin: Endpoint)
    requires BackOk(k, f) && tag in k.allocations && EndpointKey(origin) == tag && |payload| < 65536
    ensures var es := B.OnRelayData(k, tag, random, from, payload);
            BackEffectsOk(origin, es, f, k) && NoSockets(es)
  {
    EndpointKeyInjective(k.clients[tag], origin);
    if FormatXor(from).Ok? {
      BackendMessageEmitted(B.DataIndication(random, FormatXor(from).value, payload), origin, f, k);
    }
  }

  // ---------------------------------------------------------------- every step keeps the invariant

  lemma FrontStepKeeps(w: World, hmac: Hmac, e: Event)
    requires Inv(w) && EventOk(e) && TwentyBytes(hmac) && (e.ClientData? || e.FrontReceives?)
    ensures Inv(Step(w, hmac, e))
  {
    if e.ClientData? {
      OnDataOk(w.front, w.back, hmac, e.bytes, e.client);
      var (f', es) := F.OnData(w.front, hmac, e.bytes, e.client);
      FrontGrowthKeeps(w, f', e.client, es);
    } else if w.toFront != [] {
      var x := w.toFront[0];
      OnFrontIpcOk(w.front, w.back, hmac, x);
      var (f', es) := F.OnIpc(w.front, hmac, x.bytes);
      FrontGrowthKeeps(w.(toFront := w.toFront[1..]), f', x.origin, es);
    }
  }

  lemma BackReceivesKeeps(w: World)
    requires Inv(w) && w.toBack != []
    ensures var x := w.toBack[0];
            var (k', es) := B.OnIpc(w.back, x.bytes);
            Inv(AfterBack(w.(toBack := w.toBack[1..]), k', x.origin, es))
  {
    var x := w.toBack[0];
    OnBackIpcOk(w.back, w.front, x);
    var (k', es) := B.OnIpc(w.back, x.bytes);
    SocketsGrow(w.sockets, w.back, k', x.origin, es, w.front);
    BackGrowthKeeps(w.(toBack := w.toBack[1..]), k', x.origin, es);
  }

  lemma SocketEventKeeps(w: World, i: nat, k': B.Back, es: seq<B.Effect>)
    requires Inv(w) && i < |w.sockets|
    requires BackOk(k', w.front) && BackGrows(w.back, k') && k'.allocations.Keys == w.back.allocations.Keys
    requires BackEffectsOk(w.sockets[i].owner, es, w.front, k') && NoSockets(es)
    ensures Inv(AfterBack(w, k', w.sockets[i].owner, es))
  {
    NoNewSockets(w.sockets[i].owner, es);
    assert w.sockets + [] == w.sockets;
    BackGrowthKeeps(w, k', w.sockets[i].owner, es);
  }

  lemma BoundStepKeeps(w: World, i: nat, relay: Option<Endpoint>)
    requires Inv(w) && i < |w.sockets| && (relay.Some? ==> Addressable(relay.value))
    ensures var s := w.sockets[i];
            var (k', es) := B.OnBound(w.back, s.tag, relay);
            Inv(AfterBack(w, k', s.owner, es))
  {
    var s := w.sockets[i];
    OnBoundOk(w.back, w.front, s.tag, relay, s.owner);
    var (k', es) := B.OnBound(w.back, s.tag, relay);
    SocketEventKeeps(w, i, k', es);
  }

  lemma RelayStepKeeps(w: World, i: nat, random: seq<byte>, from: Endpoint, payload: seq<byte>)
    requires Inv(w) && i < |w.sockets| && |payload| < 65536
    ensures var s := w.sockets[i];
            Inv(AfterBack(w, w.back, s.owner, B.OnRelayData(w.back, s.tag, random, from, payload)))
  {
    var s := w.sockets[i];
    OnRelayDataOk(w.back, w.front, s.tag, random, from, payload, s.owner);
    SocketEventKeeps(w, i, w.back, B.OnRelayData(w.back, s.tag, random, from, payload));
  }

  lemma StepKeeps(w: World, hmac: Hmac, e: Event)
    requires Inv(w) && EventOk(e) && TwentyBytes(hmac)
    ensures Inv(Step(w, hmac, e))
  {
    match e
    case ClientData(_, _) => FrontStepKeeps(w, hmac, e);
    case FrontReceives => FrontStepKeeps(w, hmac, e);
    case BackReceives => if w.toBack != [] { BackReceivesKeeps(w); }
    case SocketBound(i, relay) => if i < |w.sockets| { BoundStepKeeps(w, i, relay); }
    case RelayData(i, random, from, payload) => if i < |w.sockets| { RelayStepKeeps(w, i, random, from, payload); }
  }

  lemma {:induction false} RunKeeps(w: World, hmac: Hmac, es: seq<Event>)
    requires Inv(w) && EventsOk(es) && TwentyBytes(hmac)
    ensures Inv(Run(w, hmac, es))
    decreases |es|
  {
    if es != [] {
      StepKeeps(w, hmac, es[0]);
      RunKeeps(Step(w, hmac, es[0]), hmac, es[1..]);
    }
  }

  // ---------------------------------------------------------------- over every run

  /** Two relay sockets never belong to one client. */
  predicate SocketsApart(ss: seq<Socket>) {
    forall i, j :: 0 <= i < j < |ss| ==> ss[i].owner != ss[j].owner
  }

  /** Each client gets at most one relay socket, however often it asks. */
  lemma OneSocketPerClient(hmac: Hmac, es: seq<Event>)
    requires EventsOk(es) && TwentyBytes(hmac)
    ensures SocketsApart(Run(START, hmac, es).sockets)
  {
    RunKeeps(START, hmac, es);
  }

  predicate SuccessTo(d: Done, client: Endpoint) {
    d.effect.Datagram? && d.effect.to == client && IsAllocateSuccess(d.effect.bytes)
  }

  function RelayedBy(d: Done): Option<Endpoint>
    requires d.effect.Datagram? && SuccessTo(d, d.effect.to)
  {
    RelayedIn(ParseMessage(d.effect.bytes).value.attributes)
  }

  /** Any two successful ALLOCATE responses to one client carry the same relayed address. */
  predicate RelaysAgree(log: seq<Done>, client: Endpoint) {
    forall i, j :: 0 <= i < |log| && 0 <= j < |log| && SuccessTo(log[i], client) && SuccessTo(log[j], client) ==>
      RelayedBy(log[i]).Some? && RelayedBy(log[i]) == RelayedBy(log[j])
  }

  lemma OneRelayedAddress(hmac: Hmac, es: seq<Event>, client: Endpoint)
    requires EventsOk(es) && TwentyBytes(hmac)
    ensures RelaysAgree(Run(START, hmac, es).log, client)
  {
    RunKeeps(START, hmac, es);
    var w := Run(START, hmac, es);
    forall i, j | 0 <= i < |w.log| && 0 <= j < |w.log| && SuccessTo(w.log[i], client) && SuccessTo(w.log[j], client)
      ensures RelayedBy(w.log[i]).Some? && RelayedBy(w.log[i]) == RelayedBy(w.log[j])
    {
      assert DoneOk(w.log[i], w.back) && DoneOk(w.log[j], w.back);
    }
  }

  /** What was sent on account of a client, or of a relay socket made for it, went to that client. */
  predicate GoesToOrigin(d: Done) {
    !d.effect.CallbackMissing? && (d.effect.Datagram? ==> d.effect.to == d.origin)
  }

  /** The frontend only ever answers the client concerned, and never calls an unregistered callback. */
  lemma OnlyToItsClient(hmac: Hmac, es: seq<Event>)
    requires EventsOk(es) && TwentyBytes(hmac)
    ensures forall d :: d in Run(START, hmac, es).log ==> GoesToOrigin(d)
  {
    RunKeeps(START, hmac, es);
    var w := Run(START, hmac, es);
    forall d | d in w.log
      ensures GoesToOrigin(d)
    {
      var i :| 0 <= i < |w.log| && w.log[i] == d;
      assert DoneOk(w.log[i], w.back);
    }
  }

  predicate ReadsBack(x: InFlight) {
    DecodeIpc(x.bytes).Ok? && DecodeIpc(x.bytes).value.client == x.origin
  }

  /** At any time, each half would take every message in flight to it for the client it was sent for. */
  lemma InFlightReadsBack(hmac: Hmac, es: seq<Event>)
    requires EventsOk(es) && TwentyBytes(hmac)
    ensures forall x :: x in Run(START, hmac, es).toBack + Run(START, hmac, es).toFront ==> ReadsBack(x)
  {
    RunKeeps(START, hmac, es);
    var w := Run(START, hmac, es);
    forall x | x in w.toBack + w.toFront
      ensures ReadsBack(x)
    {
      if x in w.toBack {
        var i :| 0 <= i < |w.toBack| && w.toBack[i] == x;
        assert ToBackOk(w.toBack[i], w.front);
      } else {
        var i :| 0 <= i < |w.toFront| && w.toFront[i] == x;
        assert ToFrontOk(w.toFront[i], w.front, w.back);
      }
    }
  }

  // ---------------------------------------------------------------- payloads

  /** The indication that reports a datagram: these are the first attributes of their types. */
  predicate CarriesDatum(m: Message, random: seq<byte>, from: Endpoint, payload: seq<byte>) {
    && m.method_ == 7 && m.clazz == INDICATION && m.transactionId == Twelve(random)
    && |m.attributes| >= 2
    && m.attributes[0].typ == 0x12
    && m.attributes[0].value.Some? && ParseXor(m.attributes[0].value.value) == Ok(from)
    && m.attributes[1] == Norm(Attribute(0x13, Some(payload)))
  }

  /**
   A datagram that arrives at a relay socket: the backend makes one indication of it, and that, decoded in place and
   forwarded by the frontend, still holds the sender's address and the payload, under the first twelve of the
   random bytes drawn as its transaction ID.
   */
  lemma RelayDataReachesClient(f: F.Front, k: B.Back, hmac: Hmac, client: Endpoint, random: seq<byte>,
                               from: Endpoint, payload: seq<byte>) returns (b: seq<byte>)
    requires Addressable(client) && FormatXor(client).Ok? && |random| == 20
    requires Addressable(from) && FormatXor(from).Ok? && |payload| < 65536
    requires var tag := EndpointKey(client);
             tag in k.clients && k.clients[tag] == client && tag in k.allocations && k.allocations[tag].Bound?
    ensures B.OnRelayData(k, EndpointKey(client), random, from, payload) == [B.Ipc(b)]
    ensures DecodeIpc(b).Ok?
    ensures F.OnIpc(f, hmac, b) == (f, [F.Datagram(client, AfterDecode(b))])
    ensures ParseMessage(AfterDecode(b)).Ok? && CarriesDatum(ParseMessage(AfterDecode(b)).value, random, from, payload)
  {
    b := EmitIpc(B.DataIndication(random, FormatXor(from).value, payload), client).value;
    IndicationDecodes(client, random, from, payload, b);
    AfterDecodeParses(b);
  }

  lemma IndicationDecodes(client: Endpoint, random: seq<byte>, from: Endpoint, payload: seq<byte>, b: seq<byte>)
    requires Addressable(client) && Addressable(from) && FormatXor(from).Ok? && |payload| < 65536
    requires EmitIpc(B.DataIndication(random, FormatXor(from).value, payload), client) == Some(b)
    ensures DecodeIpc(b).Ok? && DecodeIpc(b).value.client == client
    ensures CarriesDatum(DecodeIpc(b).value.message, random, from, payload)
  {
    var v := FormatXor(from).value;
    var m := B.DataIndication(random, v, payload);
    EmittedDecodes(m, client, b);
    AddressRoundTrip(from);
    var as_ := DecodeIpc(b).value.message.attributes;
    assert as_[0] == NormAll(m.attributes)[0] == Norm(m.attributes[0]);
    assert as_[1] == NormAll(m.attributes)[1] == Norm(m.attributes[1]);
  }

  /** A SEND indication names a peer, and holds a DATA attribute; its payload is empty when that has no value. */
  predicate Names(m: Message, to: Endpoint, payload: seq<byte>) {
    match (FindFirst(m.attributes, 0x12), FindFirst(m.attributes, 0x13))
    case (Some(i), Some(j)) =>
      && m.attributes[i].value.Some? && ParseXor(m.attributes[i].value.value) == Ok(to)
      && Bytes(m.attributes[j].value) == payload
    case _ => false
  }

  /** On the other side of the IPC channel the indication has a target if and only if its payload is not empty. */
  lemma TargetKept(m: Message, more: Attribute, id: seq<byte>, to: Endpoint, payload: seq<byte>)
    requires Names(m, to, payload)
    ensures B.SendTarget(m.(transactionId := id, attributes := NormAll(m.attributes) + [more]))
         == if payload == [] then None else Some((to, payload))
  {
    var as_ := m.attributes;
    FindNormal(as_, XOR_PEER_ADDRESS);
    FindNormal(as_, DATA_ATTRIBUTE);
    FindKept(NormAll(as_), more, XOR_PEER_ADDRESS);
    FindKept(NormAll(as_), more, DATA_ATTRIBUTE);
    var i := FindFirst(as_, XOR_PEER_ADDRESS).value;
    var j := FindFirst(as_, DATA_ATTRIBUTE).value;
    var as' := NormAll(as_) + [more];
    assert as'[i] == Norm(as_[i]) && as'[j] == Norm(as_[j]);
    assert ParseXor([]).Err?;
  }

  lemma {:induction false} FindKept(as_: seq<Attribute>, more: Attribute, typ: nat)
    requires FindFirst(as_, typ).Some?
    ensures FindFirst(as_ + [more], typ) == FindFirst(as_, typ)
  {
    assert (as_ + [more])[1..] == as_[1..] + [more];
    if as_[0].typ != typ {
      FindKept(as_[1..], more, typ);
    }
  }

  /** What the backend makes of a SEND indication of the client with that tag. */
  function OnSend(k: B.Back, tag: string, to: Endpoint, payload: seq<byte>): (B.Back, seq<B.Effect>) {
    if payload == [] || tag !in k.allocations then (k, []) else B.Then(k, tag, B.SendRequest(to, payload))
  }

  lemma SendHandled(k: B.Back, m: Message, client: Endpoint, b: seq<byte>, to: Endpoint, payload: seq<byte>)
    requires DecodeIpc(b) == Ok(Decoded(m, client)) && m.method_ == SEND
    requires B.SendTarget(m) == if payload == [] then None else Some((to, payload))
    ensures B.OnIpc(k, b) == OnSend(k, EndpointKey(client), to, payload)
  {
  }

  lemma SendArrives(k: B.Back, m: Message, client: Endpoint, b: seq<byte>, to: Endpoint, payload: seq<byte>)
    requires m.method_ == SEND && AllFit(m.attributes) && Untagged(m.attributes) && Addressable(client)
    requires Names(m, to, payload) && EmitIpc(m, client) == Some(b)
    ensures B.OnIpc(k, b) == OnSend(k, EndpointKey(client), to, payload)
  {
    EmittedDecodes(m, client, b);
    TargetKept(m, TagAttribute(XorAddress(FormatXor(client).value)), Twelve(m.transactionId), to, payload);
    SendHandled(k, DecodeIpc(b).value.message, client, b, to, payload);
  }

  /**
   A SEND indication of a client with a bound relay socket leaves through that socket and no other, to the peer
   and with the payload that the client named, if and only if that payload is not empty; an empty one is dropped.
   */
  lemma SendReachesPeer(k: B.Back, m: Message, client: Endpoint, b: seq<byte>, to: Endpoint, payload: seq<byte>)
    requires m.method_ == 6 && AllFit(m.attributes) && Untagged(m.attributes) && Addressable(client)
    requires Names(m, to, payload) && EmitIpc(m, client) == Some(b)
    requires EndpointKey(client) in k.allocations && k.allocations[EndpointKey(client)].Bound?
    ensures B.OnIpc(k, b) == (k, [B.RelaySend(EndpointKey(client), to, payload)]) <==> payload != []
    ensures payload == [] ==> B.OnIpc(k, b) == (k, [])
  {
    SendArrives(k, m, client, b, to, payload);
  }

  lemma {:induction false} ResolvedLast(tag: string, ps: seq<B.Pending>, p: B.Pending, relay: Option<Endpoint>)
    ensures B.ResolveAll(tag, ps + [p], relay) == B.ResolveAll(tag, ps, relay) + B.Resolve(tag, p, relay)
    decreases |ps|
  {
    if ps == [] {
      assert ps + [p] == [p] && [p][1..] == [];
      var last := B.Resolve(tag, p, relay);
      assert last + [] == [] + last;
    } else {
      assert (ps + [p])[1..] == ps[1..] + [p];
      ResolvedLast(tag, ps[1..], p, relay);
      var first, last := B.Resolve(tag, ps[0], relay), B.Resolve(tag, p, relay);
      var rest := B.ResolveAll(tag, ps[1..], relay);
      assert first + (rest + last) == (first + rest) + last;
    }
  }

  /**
   While the relay socket is still being bound, nothing leaves; once it is bound, everything that waited before
   goes first, and then the indication, if and only if its payload is not empty. If binding fails, it is lost.
   */
  lemma SendWaitsForSocket(
    k: B.Back, m: Message, client: Endpoint, b: seq<byte>, to: Endpoint, payload: seq<byte>, relay: Option<Endpoint>)
    requires m.method_ == 6 && AllFit(m.attributes) && Untagged(m.attributes) && Addressable(client)
    requires Names(m, to, payload) && EmitIpc(m, client) == Some(b)
    requires EndpointKey(client) in k.allocations && k.allocations[EndpointKey(client)].Binding?
    ensures var tag := EndpointKey(client);
            var (k', es) := B.OnIpc(k, b);
            && es == []
            && B.OnBound(k', tag, relay).1 == B.OnBound(k, tag, relay).1
                 + (if payload != [] && relay.Some? then [B.RelaySend(tag, to, payload)] else [])
  {
    SendArrives(k, m, client, b, to, payload);
    var tag := EndpointKey(client);
    ResolvedLast(tag, k.allocations[tag].pending, B.SendRequest(to, payload), relay);
  }

  /** Without a relay socket it is dropped. */
  lemma SendWithoutSocket(k: B.Back, m: Message, client: Endpoint, b: seq<byte>, to: Endpoint, payload: seq<byte>)
    requires m.method_ == 6 && AllFit(m.attributes) && Untagged(m.attributes) && Addressable(client)
    requires Names(m, to, payload) && EmitIpc(m, client) == Some(b)
    requires EndpointKey(client) in k.allocations ==> k.allocations[EndpointKey(client)].BindFailed?
    ensures B.OnIpc(k, b) == (k, [])
  {
    SendArrives(k, m, client, b, to, payload);
  }

  // ---------------------------------------------------------------- repeated replies

  /**
   The replies made from one response object differ: the first carries its own hash in its first
   MESSAGE-INTEGRITY attribute, and every later one carries zeros there, left by its predecessors.
   */
  lemma RepeatedReplyIntegrity(hmac: Hmac, response: Message, n: nat)
    requires TwentyBytes(hmac) && |response.transactionId| == 12 && response.method_ < 16 && AllFit(response.attributes)
    requires FindFirst(response.attributes, MESSAGE_INTEGRITY).None?
    ensures var r := FormatWithIntegrity(F.Reused(response, n), hmac);
            && r.Ok? && |r.value| >= 24 && ParseMessage(r.value).Ok?
            && (FirstIntegrity(ParseMessage(r.value).value.attributes) == Some(hmac(r.value[..|r.value| - 24]))
                <==> n == 0 || hmac(r.value[..|r.value| - 24]) == Zeros(20))
  {
    var m := F.Reused(response, n);
    ReusedFits(response, n);
    SignedRoundTrip(m, hmac);
    var b := FormatWithIntegrity(m, hmac).value;
    FirstOfRepeated(response.attributes, n, hmac(b[..|b| - 24]));
    assert ParseMessage(b).value.attributes
        == NormAll((response.attributes + F.ZeroIntegrity(n))
                   + [Attribute(MESSAGE_INTEGRITY, Some(hmac(b[..|b| - 24])))]);
  }

  function FirstIntegrity(as_: seq<Attribute>): Option<seq<byte>> {
    ValueOf(as_, MESSAGE_INTEGRITY)
  }

  lemma FirstOfRepeated(as_: seq<Attribute>, n: nat, hash: seq<byte>)
    requires FindFirst(as_, MESSAGE_INTEGRITY).None? && |hash| == 20
    ensures FirstIntegrity(NormAll((as_ + F.ZeroIntegrity(n)) + [Attribute(MESSAGE_INTEGRITY, Some(hash))]))
         == Some(if n == 0 then hash else Zeros(20))
  {
    var tail := F.ZeroIntegrity(n) + [Attribute(MESSAGE_INTEGRITY, Some(hash))];
    var all := (as_ + F.ZeroIntegrity(n)) + [Attribute(MESSAGE_INTEGRITY, Some(hash))];
    assert all == as_ + tail;
    FindNormal(all, MESSAGE_INTEGRITY);
    FindPast(as_, tail, MESSAGE_INTEGRITY);
    assert NormAll(all)[|as_|] == Norm(tail[0]);
  }

  lemma {:induction false} FindPast(as_: seq<Attribute>, more: seq<Attribute>, typ: nat)
    requires FindFirst(as_, typ).None? && more != [] && more[0].typ == typ
    ensures FindFirst(as_ + more, typ) == Some(|as_|)
  {
    if as_ == [] {
      assert as_ + more == more;
    } else {
      assert (as_ + more)[1..] == as_[1..] + more;
      FindPast(as_[1..], more, typ);
    }
  }
}
