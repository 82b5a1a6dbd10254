/** What a client gets for its requests, over every run of the TURN server. */
module TurnReplies {
  import opened Basics
  import opened Text
  import opened StunMessages
  import opened StunAddresses
  import opened StunIntegrity
  import opened TurnIpc
  import opened TurnRouting
  import opened TurnGuarantees
  import opened TurnAnswers
  import F = TurnFrontend
  import B = TurnBackend

  // ---------------------------------------------------------------- the frontend's replies

  lemma LoggedConcat(origin: Endpoint, es: seq<F.Effect>, more: seq<F.Effect>)
    ensures Logged(origin, es + more) == Logged(origin, es) + Logged(origin, more)
  {
  }

  lemma OneLogged(c: Endpoint, d: Done)
    ensures SuccessesTo(c, [d]) == if SuccessTo(d, c) then [d.effect.bytes] else []
  {
    assert [d][1..] == [];
  }

  lemma PlainReplySilent(hmac: Hmac, to: Endpoint, m: Message, c: Endpoint)
    requires TwentyBytes(hmac) && |m.transactionId| == 12 && m.method_ < 16 && AllFit(m.attributes)
    requires m.method_ != ALLOCATE || m.clazz != SUCCESS_RESPONSE
    ensures SuccessesTo(c, Logged(to, F.Reply(hmac, to, m))) == []
  {
    ReplyReads(hmac, to, m);
    NoSuccess(c, Logged(to, F.Reply(hmac, to, m)));
  }

  /** A successful response, as bytes on their way to its client. */
  predicate Successful(m: Message) {
    m.method_ == ALLOCATE && m.clazz == SUCCESS_RESPONSE && |m.transactionId| == 12 && AllFit(m.attributes)
  }

  lemma SuccessReplyCounts(hmac: Hmac, c: Endpoint, response: Message, n: nat)
    requires TwentyBytes(hmac) && Successful(response)
    ensures SuccessesTo(c, Logged(c, F.Reply(hmac, c, F.Reused(response, n))))
         == [Printed(hmac, F.Reused(response, n))]
  {
    var m := F.Reused(response, n);
    ReusedFits(response, n);
    ReplyReads(hmac, c, m);
    SignedBytes(m, hmac);
    var d := Done(c, F.Datagram(c, Printed(hmac, m)));
    assert Logged(c, F.Reply(hmac, c, m)) == [d];
    OneLogged(c, d);
  }

  function RepliesBetween(hmac: Hmac, response: Message, i: nat, n: nat): seq<seq<byte>> {
    seq(n, j requires 0 <= j < n => Printed(hmac, F.Reused(response, i + j)))
  }

  lemma BetweenCons(hmac: Hmac, response: Message, i: nat, n: nat)
    ensures RepliesBetween(hmac, response, i, n + 1)
         == [Printed(hmac, F.Reused(response, i))] + RepliesBetween(hmac, response, i + 1, n)
  {
  }

  lemma {:induction false} RepliesCount(hmac: Hmac, response: Message, i: nat, clients: seq<Endpoint>, c: Endpoint)
    requires TwentyBytes(hmac) && Successful(response)
    requires forall j :: 0 <= j < |clients| ==> clients[j] == c
    ensures SuccessesTo(c, Logged(c, F.Replies(hmac, response, i, clients)))
         == RepliesBetween(hmac, response, i, |clients|)
    decreases |clients|
  {
    if clients == [] {
      assert Logged(c, F.Replies(hmac, response, i, clients)) == [];
    } else {
      var rest := clients[1..];
      assert forall j :: 0 <= j < |rest| ==> rest[j] == clients[j + 1];
      RepliesCount(hmac, response, i + 1, rest, c);
      OneMoreReply(hmac, response, i, clients, c);
    }
  }

  lemma OneMoreReply(hmac: Hmac, response: Message, i: nat, clients: seq<Endpoint>, c: Endpoint)
    requires TwentyBytes(hmac) && Successful(response) && clients != [] && clients[0] == c
    requires SuccessesTo(c, Logged(c, F.Replies(hmac, response, i + 1, clients[1..])))
          == RepliesBetween(hmac, response, i + 1, |clients| - 1)
    ensures SuccessesTo(c, Logged(c, F.Replies(hmac, response, i, clients)))
         == RepliesBetween(hmac, response, i, |clients|)
  {
    SuccessReplyCounts(hmac, c, response, i);
    BetweenCons(hmac, response, i, |clients| - 1);
    TogetherLogged(c, F.Reply(hmac, c, F.Reused(response, i)), F.Replies(hmac, response, i + 1, clients[1..]));
  }

  lemma TogetherLogged(c: Endpoint, es: seq<F.Effect>, more: seq<F.Effect>)
    ensures SuccessesTo(c, Logged(c, es + more)) == SuccessesTo(c, Logged(c, es)) + SuccessesTo(c, Logged(c, more))
  {
    LoggedConcat(c, es, more);
    SuccessesConcat(c, Logged(c, es), Logged(c, more));
  }

  lemma AllReplies(hmac: Hmac, response: Message, n: nat)
    ensures RepliesBetween(hmac, response, 0, n) == RepliesFrom(hmac, response, n)
    ensures RepliesFrom(hmac, response, n + 1)
         == RepliesFrom(hmac, response, n) + [Printed(hmac, F.Reused(response, n))]
  {
  }

  // ---------------------------------------------------------------- the frontend's steps

  /** What happens on account of another client changes nothing for this one. */
  lemma OtherEffects(f: F.Front, f': F.Front, k: B.Back, origin: Endpoint, es: seq<F.Effect>, log: seq<Done>,
                     asked: seq<Id>, received: seq<Message>, hmac: Hmac, c: Endpoint)
    requires FrontAccounts(f, log, asked, received, hmac, c) && FrontEffectsOk(origin, es, f', k) && origin != c
    requires PromiseOf(f', c) == PromiseOf(f, c)
    ensures FrontAccounts(f', log + Logged(origin, es), asked, received, hmac, c)
  {
    var more := Logged(origin, es);
    forall i | 0 <= i < |more|
      ensures !SuccessTo(more[i], c)
    {
      assert if es[i].Ipc? then ToBackOk(InFlight(origin, es[i].bytes), f') else DoneOk(Done(origin, es[i]), k);
    }
    NoSuccess(c, more);
    SuccessesConcat(c, log, more);
  }

  lemma OthersPromise(f: F.Front, b: seq<byte>, client: Endpoint, hmac: Hmac, c: Endpoint)
    requires client != c
    ensures PromiseOf(F.OnData(f, hmac, b, client).0, c) == PromiseOf(f, c)
  {
    OtherTag(c, client);
  }

  lemma OtherData(f: F.Front, k: B.Back, b: seq<byte>, client: Endpoint, log: seq<Done>,
                  asked: seq<Id>, received: seq<Message>, hmac: Hmac, c: Endpoint)
    requires FrontAccounts(f, log, asked, received, hmac, c) && client != c
    requires FrontOk(f, k) && TwentyBytes(hmac) && EventOk(ClientData(client, b))
    ensures var (f', es) := F.OnData(f, hmac, b, client);
            FrontAccounts(f', log + Logged(client, es), asked, received, hmac, c)
  {
    OnDataOk(f, k, hmac, b, client);
    OthersPromise(f, b, client, hmac, c);
    var (f', es) := F.OnData(f, hmac, b, client);
    OtherEffects(f, f', k, client, es, log, asked, received, hmac, c);
  }

  lemma AwaitStands(f: F.Front, k: B.Back, successes: seq<seq<byte>>, asked: nat, received: seq<Message>,
                    hmac: Hmac, c: Endpoint)
    requires EndpointKey(c) in f.promises && Stands(PromiseOf(f, c), successes, asked, received, hmac)
    requires PromiseOk(EndpointKey(c), f.promises[EndpointKey(c)], k) && TwentyBytes(hmac)
    ensures var (f', es) := F.Await(f, hmac, c);
            Stands(PromiseOf(f', c), successes + SuccessesTo(c, Logged(c, es)), asked + 1, received, hmac)
  {
    assert successes + [] == successes;
    var p := f.promises[EndpointKey(c)];
    if p.Fulfilled? {
      ReplyNow(p.response, p.replies, hmac, c);
    }
  }

  lemma ReplyNow(response: Message, n: nat, hmac: Hmac, c: Endpoint)
    requires TwentyBytes(hmac) && Successful(response)
    ensures RepliesFrom(hmac, response, n) + SuccessesTo(c, Logged(c, F.Reply(hmac, c, F.Reused(response, n))))
         == RepliesFrom(hmac, response, n + 1)
  {
    SuccessReplyCounts(hmac, c, response, n);
    AllReplies(hmac, response, n);
  }

  lemma OwnRequest(f: F.Front, k: B.Back, m: Message, b: seq<byte>, successes: seq<seq<byte>>, asked: nat,
                   received: seq<Message>, hmac: Hmac, c: Endpoint)
    requires Stands(PromiseOf(f, c), successes, asked, received, hmac) && FrontOk(f, k) && TwentyBytes(hmac)
    requires m.method_ == ALLOCATE && FindFirst(m.attributes, USERNAME).Some? && EmitIpc(m, c) == Some(b)
    ensures var (f', es) := F.OnRequest(f, hmac, m, c);
            Stands(PromiseOf(f', c), successes + SuccessesTo(c, Logged(c, es)), asked + 1, received, hmac)
  {
    var f1 := F.Register(f, c);
    RegisterOk(f, k, c);
    AwaitStands(f1, k, successes, asked, received, hmac, c);
    IpcIsNoSuccess(b, F.Await(f1, hmac, c).1, c);
  }

  lemma IpcIsNoSuccess(b: seq<byte>, es: seq<F.Effect>, c: Endpoint)
    ensures SuccessesTo(c, Logged(c, [F.Ipc(b)] + es)) == SuccessesTo(c, Logged(c, es))
  {
    TogetherLogged(c, [F.Ipc(b)], es);
    OneLogged(c, Done(c, F.Ipc(b)));
    assert Logged(c, [F.Ipc(b)]) == [Done(c, F.Ipc(b))];
  }

  /** Any other message of the client is answered without a success, or not at all. */
  lemma OwnOther(f: F.Front, m: Message, hmac: Hmac, c: Endpoint)
    requires TwentyBytes(hmac) && |m.transactionId| == 12
    requires !(m.method_ == ALLOCATE && FindFirst(m.attributes, USERNAME).Some?) || EmitIpc(m, c).None?
    ensures SuccessesTo(c, Logged(c, F.OnRequest(f, hmac, m, c).1)) == []
    ensures var f' := F.OnRequest(f, hmac, m, c).0;
            f' == f || (PromiseOf(f, c).None? && PromiseOf(f', c) == Some(F.Waiting([])))
  {
    var es := F.OnRequest(f, hmac, m, c).1;
    if m.method_ == ALLOCATE && FindFirst(m.attributes, USERNAME).None? {
      PlainReplySilent(hmac, c, F.Unauthorised(m), c);
    } else if m.method_ == CREATE_PERMISSION {
      PlainReplySilent(hmac, c, Message(CREATE_PERMISSION, SUCCESS_RESPONSE, m.transactionId, []), c);
    } else if m.method_ == REFRESH {
      PlainReplySilent(hmac, c, Message(REFRESH, SUCCESS_RESPONSE, m.transactionId,
                                        [Attribute(LIFETIME, Some(TEN_MINUTES))]), c);
    } else {
      NoSuccess(c, Logged(c, es));
    }
  }

  lemma OwnMessage(f: F.Front, k: B.Back, m: Message, successes: seq<seq<byte>>, asked: nat,
                   received: seq<Message>, hmac: Hmac, c: Endpoint)
    requires Stands(PromiseOf(f, c), successes, asked, received, hmac)
    requires FrontOk(f, k) && TwentyBytes(hmac) && |m.transactionId| == 12
    ensures var (f', es) := F.OnRequest(f, hmac, m, c);
            Stands(PromiseOf(f', c), successes + SuccessesTo(c, Logged(c, es)),
                   asked + |if FormatXor(c).Ok? then RequestIn(m) else []|, received, hmac)
  {
    var e := EmitIpc(m, c);
    assert e.Some? <==> FormatXor(c).Ok?;
    if m.method_ == ALLOCATE && FindFirst(m.attributes, USERNAME).Some? && e.Some? {
      OwnRequest(f, k, m, e.value, successes, asked, received, hmac, c);
    } else {
      OwnOther(f, m, hmac, c);
      assert successes + [] == successes;
    }
  }

  lemma OwnData(f: F.Front, k: B.Back, b: seq<byte>, log: seq<Done>,
                asked: seq<Id>, received: seq<Message>, hmac: Hmac, c: Endpoint)
    requires FrontAccounts(f, log, asked, received, hmac, c)
    requires FrontOk(f, k) && TwentyBytes(hmac) && EventOk(ClientData(c, b))
    ensures var (f', es) := F.OnData(f, hmac, b, c);
            FrontAccounts(f', log + Logged(c, es), asked + AskedBy(c, ClientData(c, b)), received, hmac, c)
  {
    SuccessesConcat(c, log, Logged(c, F.OnData(f, hmac, b, c).1));
    OwnDataStands(f, k, b, SuccessesTo(c, log), |asked|, received, hmac, c);
  }

  lemma OwnDataStands(f: F.Front, k: B.Back, b: seq<byte>, successes: seq<seq<byte>>, asked: nat,
                      received: seq<Message>, hmac: Hmac, c: Endpoint)
    requires Stands(PromiseOf(f, c), successes, asked, received, hmac)
    requires FrontOk(f, k) && TwentyBytes(hmac) && EventOk(ClientData(c, b))
    ensures var (f', es) := F.OnData(f, hmac, b, c);
            Stands(PromiseOf(f', c), successes + SuccessesTo(c, Logged(c, es)),
                   asked + |AskedBy(c, ClientData(c, b))|, received, hmac)
  {
    if ParseMessage(b).Ok? {
      ParsesUnlessResidue(b[20..]);
      OwnMessage(f, k, ParseMessage(b).value, successes, asked, received, hmac, c);
    } else {
      assert Logged(c, []) == [] && successes + [] == successes;
    }
  }

  /** The first response to arrive settles the promise, later ones change nothing. */
  lemma SettleStands(f: F.Front, k: B.Back, m: Message, successes: seq<seq<byte>>, asked: nat,
                     received: seq<Message>, hmac: Hmac, c: Endpoint)
    requires EndpointKey(c) in f.promises && Stands(PromiseOf(f, c), successes, asked, received, hmac)
    requires PromiseOk(EndpointKey(c), f.promises[EndpointKey(c)], k) && TwentyBytes(hmac)
    requires m.clazz == SUCCESS_RESPONSE ==> Successful(m)
    ensures var (f', es) := F.Settle(f, hmac, EndpointKey(c), m);
            Stands(PromiseOf(f', c), successes + SuccessesTo(c, Logged(c, es)), asked, received + [m], hmac)
  {
    assert successes + [] == successes;
    var p := f.promises[EndpointKey(c)];
    if p.Waiting? && m.clazz == SUCCESS_RESPONSE {
      AllTheirs(p.clients, c);
      RepliesCount(hmac, m, 0, p.clients, c);
      AllReplies(hmac, m, |p.clients|);
      assert [] + RepliesFrom(hmac, m, asked) == RepliesFrom(hmac, m, asked);
    }
  }

  lemma AllTheirs(clients: seq<Endpoint>, c: Endpoint)
    requires forall i :: 0 <= i < |clients| ==> EndpointKey(clients[i]) == EndpointKey(c)
    ensures forall i :: 0 <= i < |clients| ==> clients[i] == c
  {
    forall i | 0 <= i < |clients|
      ensures clients[i] == c
    {
      EndpointKeyInjective(clients[i], c);
    }
  }

  lemma OwnResponse(f: F.Front, k: B.Back, x: InFlight, m: Message, successes: seq<seq<byte>>, asked: nat,
                    received: seq<Message>, hmac: Hmac, c: Endpoint)
    requires Stands(PromiseOf(f, c), successes, asked, received, hmac) && FrontOk(f, k) && TwentyBytes(hmac)
    requires x.origin == c && ToFrontOk(x, f, k) && DecodeIpc(x.bytes) == Ok(Decoded(m, c)) && m.method_ == ALLOCATE
    ensures var (f', es) := F.OnIpc(f, hmac, x.bytes);
            Stands(PromiseOf(f', c), successes + SuccessesTo(c, Logged(c, es)), asked, received + [m], hmac)
  {
    assert PromiseOk(EndpointKey(c), f.promises[EndpointKey(c)], k);
    SettleStands(f, k, m, successes, asked, received, hmac, c);
  }

  lemma OwnDatum(f: F.Front, x: InFlight, m: Message, hmac: Hmac, c: Endpoint)
    requires DecodeIpc(x.bytes) == Ok(Decoded(m, c)) && m.method_ != ALLOCATE
    ensures var (f', es) := F.OnIpc(f, hmac, x.bytes);
            f' == f && SuccessesTo(c, Logged(c, es)) == []
  {
    AfterDecodeParses(x.bytes);
    NoSuccess(c, Logged(c, F.OnIpc(f, hmac, x.bytes).1));
  }

  lemma FrontReceivesStands(f: F.Front, k: B.Back, x: InFlight, log: seq<Done>, asked: seq<Id>,
                            received: seq<Message>, hmac: Hmac, c: Endpoint)
    requires FrontAccounts(f, log, asked, received, hmac, c) && FrontOk(f, k) && TwentyBytes(hmac)
    requires ToFrontOk(x, f, k)
    ensures var (f', es) := F.OnIpc(f, hmac, x.bytes);
            FrontAccounts(f', log + Logged(x.origin, es), asked, received + ResponseOf(c, x), hmac, c)
  {
    var Decoded(m, client) := DecodeIpc(x.bytes).value;
    var (f', es) := F.OnIpc(f, hmac, x.bytes);
    ResponseDecoded(c, x, m, client);
    assert received + [] == received;
    if client != c {
      OnFrontIpcOk(f, k, hmac, x);
      OthersSettled(f, x.bytes, m, client, hmac, c);
      OtherEffects(f, f', k, client, es, log, asked, received, hmac, c);
    } else {
      SuccessesConcat(c, log, Logged(c, es));
      if m.method_ == ALLOCATE {
        OwnResponse(f, k, x, m, SuccessesTo(c, log), |asked|, received, hmac, c);
      } else {
        OwnDatum(f, x, m, hmac, c);
        assert SuccessesTo(c, log) + [] == SuccessesTo(c, log);
      }
    }
  }

  lemma OthersSettled(f: F.Front, b: seq<byte>, m: Message, client: Endpoint, hmac: Hmac, c: Endpoint)
    requires DecodeIpc(b) == Ok(Decoded(m, client)) && client != c
    ensures PromiseOf(F.OnIpc(f, hmac, b).0, c) == PromiseOf(f, c)
  {
    OtherTag(c, client);
  }

  // ---------------------------------------------------------------- every step keeps the accounts

  lemma ClientDataKeeps(t: Trace, hmac: Hmac, c: Endpoint, client: Endpoint, b: seq<byte>)
    requires Accounted(t, hmac, c) && EventOk(ClientData(client, b)) && TwentyBytes(hmac)
    ensures Accounted(TraceStep(t, hmac, c, ClientData(client, b)), hmac, c)
  {
    var w, e := t.world, ClientData(client, b);
    var (f', es) := F.OnData(w.front, hmac, b, client);
    StepKeeps(w, hmac, e);
    DataAsks(w.front, hmac, b, client, c);
    BackAsks(w.back, w.toBack, FrontIpcs(client, es), t.asked, t.emitted, c);
    if client == c {
      OwnData(w.front, w.back, b, w.log, t.asked, t.received, hmac, c);
    } else {
      OtherData(w.front, w.back, b, client, w.log, t.asked, t.received, hmac, c);
      assert t.asked + [] == t.asked;
    }
    assert t.emitted + [] == t.emitted && t.received + [] == t.received;
  }

  lemma FrontReceivesKeeps(t: Trace, hmac: Hmac, c: Endpoint)
    requires Accounted(t, hmac, c) && TwentyBytes(hmac) && t.world.toFront != []
    ensures Accounted(TraceStep(t, hmac, c, FrontReceives), hmac, c)
  {
    var w, x := t.world, t.world.toFront[0];
    StepKeeps(w, hmac, FrontReceives);
    FrontReceivesStands(w.front, w.back, x, w.log, t.asked, t.received, hmac, c);
    NoIpcOut(w.front, x.bytes, x.origin, hmac);
    OneInFlight(c, x);
    Received(t, c);
    FrontReceivesWorld(w, hmac);
    NothingNew(t);
  }

  lemma FrontReceivesWorld(w: World, hmac: Hmac)
    requires w.toFront != [] && FrontIpcs(w.toFront[0].origin, F.OnIpc(w.front, hmac, w.toFront[0].bytes).1) == []
    ensures var (f', es) := F.OnIpc(w.front, hmac, w.toFront[0].bytes);
            Step(w, hmac, FrontReceives)
              == w.(front := f', toFront := w.toFront[1..], log := w.log + Logged(w.toFront[0].origin, es))
  {
    assert w.toBack + [] == w.toBack;
  }

  lemma Received(t: Trace, c: Endpoint)
    requires t.world.toFront != [] && t.emitted == t.received + ResponsesIn(c, t.world.toFront)
    ensures t.emitted == (t.received + ResponseOf(c, t.world.toFront[0])) + ResponsesIn(c, t.world.toFront[1..])
  {
  }

  /** The backend has made w' of the world, sending xs. */
  lemma BackStepKeeps(t: Trace, w': World, xs: seq<InFlight>, hmac: Hmac, c: Endpoint)
    requires Accounted(t, hmac, c) && Inv(w')
    requires w'.front == t.world.front && w'.log == t.world.log && w'.toFront == t.world.toFront + xs
    requires BackAccounts(w'.back, w'.toBack, t.asked, t.emitted + ResponsesIn(c, xs), c)
    ensures Accounted(Trace(w', t.asked, t.emitted + ResponsesIn(c, xs), t.received), hmac, c)
  {
    NewResponses(t, c, xs);
  }

  lemma NewResponses(t: Trace, c: Endpoint, xs: seq<InFlight>)
    requires t.emitted == t.received + ResponsesIn(c, t.world.toFront)
    ensures t.emitted + ResponsesIn(c, xs) == t.received + ResponsesIn(c, t.world.toFront + xs)
  {
    ResponsesConcat(c, t.world.toFront, xs);
  }

  lemma NothingNew(t: Trace)
    ensures t.asked + [] == t.asked && t.emitted + [] == t.emitted && t.received + [] == t.received
  {
  }

  /** A client that a message was decoded for has an endpoint that can be printed. */
  lemma DecodedPrints(b: seq<byte>)
    requires DecodeIpc(b).Ok?
    ensures FormatXor(DecodeIpc(b).value.client).Ok?
  {
    var m := ParseMessage(b).value;
    var v := m.attributes[FindFirst(m.attributes, IPC_TAG).value].value.value;
    ReformatAddress(v);
  }

  lemma BackReceivesAccounts(w: World, asked: seq<Id>, emitted: seq<Message>, c: Endpoint)
    requires w.toBack != [] && BackOk(w.back, w.front) && ToBackOk(w.toBack[0], w.front)
    requires BackAccounts(w.back, w.toBack, asked, emitted, c)
    ensures var x := w.toBack[0];
            var (k', es) := B.OnIpc(w.back, x.bytes);
            BackAccounts(k', w.toBack[1..], asked, emitted + ResponsesIn(c, BackIpcs(x.origin, es)), c)
  {
    var x := w.toBack[0];
    var (k', es) := B.OnIpc(w.back, x.bytes);
    DecodedPrints(x.bytes);
    OnIpcMoves(w.back, w.front, x, c);
    IdsConcat(ResponseOf(c, x), ResponsesIn(c, w.toBack[1..]));
    BackAccountsStep(w.back, k', w.toBack, w.toBack[1..], Ids(ResponseOf(c, x)), asked, emitted,
                     ResponsesIn(c, BackIpcs(x.origin, es)), c);
  }

  lemma BackReceivesKeeps(t: Trace, hmac: Hmac, c: Endpoint)
    requires Accounted(t, hmac, c) && TwentyBytes(hmac) && t.world.toBack != []
    ensures Accounted(TraceStep(t, hmac, c, BackReceives), hmac, c)
  {
    var w, x := t.world, t.world.toBack[0];
    StepKeeps(w, hmac, BackReceives);
    BackReceivesAccounts(w, t.asked, t.emitted, c);
    NothingNew(t);
    BackStepKeeps(t, Step(w, hmac, BackReceives), BackIpcs(x.origin, B.OnIpc(w.back, x.bytes).1), hmac, c);
  }

  lemma SocketBoundAccounts(w: World, owner: Endpoint, relay: Option<Endpoint>, asked: seq<Id>,
                            emitted: seq<Message>, c: Endpoint)
    requires BackOk(w.back, w.front) && EndpointKey(owner) in w.back.allocations
    requires relay.Some? ==> Addressable(relay.value)
    requires BackAccounts(w.back, w.toBack, asked, emitted, c) && (asked != [] ==> FormatXor(c).Ok?)
    ensures var (k', es) := B.OnBound(w.back, EndpointKey(owner), relay);
            BackAccounts(k', w.toBack, asked, emitted + ResponsesIn(c, BackIpcs(owner, es)), c)
  {
    var (k', es) := B.OnBound(w.back, EndpointKey(owner), relay);
    OnBoundMoves(w.back, w.front, owner, relay, c);
    assert [] + IdsInFlight(c, w.toBack) == IdsInFlight(c, w.toBack);
    BackAccountsStep(w.back, k', w.toBack, w.toBack, [], asked, emitted, ResponsesIn(c, BackIpcs(owner, es)), c);
  }

  lemma SocketBoundKeeps(t: Trace, hmac: Hmac, c: Endpoint, i: nat, relay: Option<Endpoint>)
    requires Accounted(t, hmac, c) && TwentyBytes(hmac) && i < |t.world.sockets| && EventOk(SocketBound(i, relay))
    ensures Accounted(TraceStep(t, hmac, c, SocketBound(i, relay)), hmac, c)
  {
    var w, s := t.world, t.world.sockets[i];
    StepKeeps(w, hmac, SocketBound(i, relay));
    SocketBoundAccounts(w, s.owner, relay, t.asked, t.emitted, c);
    NothingNew(t);
    BackStepKeeps(t, Step(w, hmac, SocketBound(i, relay)), BackIpcs(s.owner, B.OnBound(w.back, s.tag, relay).1),
                  hmac, c);
  }

  lemma RelayDataKeeps(t: Trace, hmac: Hmac, c: Endpoint, e: Event)
    requires Accounted(t, hmac, c) && TwentyBytes(hmac) && e.RelayData? && e.socket < |t.world.sockets| && EventOk(e)
    ensures Accounted(TraceStep(t, hmac, c, e), hmac, c)
  {
    var w, s := t.world, t.world.sockets[e.socket];
    var xs := BackIpcs(s.owner, B.OnRelayData(w.back, s.tag, e.random, e.from, e.payload));
    StepKeeps(w, hmac, e);
    RelayDataSilent(w.back, w.front, s.owner, e.random, e.from, e.payload, c);
    NothingNew(t);
    BackStepKeeps(t, Step(w, hmac, e), xs, hmac, c);
  }

  /** An event that finds nothing to act on changes nothing. */
  predicate Idle(w: World, e: Event) {
    match e
    case ClientData(_, _) => false
    case FrontReceives => w.toFront == []
    case BackReceives => w.toBack == []
    case SocketBound(i, _) => i >= |w.sockets|
    case RelayData(i, _, _, _) => i >= |w.sockets|
  }

  lemma IdleKeeps(t: Trace, hmac: Hmac, c: Endpoint, e: Event)
    requires Idle(t.world, e)
    ensures TraceStep(t, hmac, c, e) == t
  {
    NothingNew(t);
  }

  lemma TraceKeeps(t: Trace, hmac: Hmac, c: Endpoint, e: Event)
    requires Accounted(t, hmac, c) && EventOk(e) && TwentyBytes(hmac)
    ensures Accounted(TraceStep(t, hmac, c, e), hmac, c)
  {
    if Idle(t.world, e) {
      IdleKeeps(t, hmac, c, e);
    } else {
      match e
      case ClientData(client, b) => ClientDataKeeps(t, hmac, c, client, b);
      case FrontReceives => FrontReceivesKeeps(t, hmac, c);
      case BackReceives => BackReceivesKeeps(t, hmac, c);
      case SocketBound(i, relay) => SocketBoundKeeps(t, hmac, c, i, relay);
      case RelayData(_, _, _, _) => RelayDataKeeps(t, hmac, c, e);
    }
  }

  lemma {:induction false} FollowKeeps(t: Trace, hmac: Hmac, c: Endpoint, es: seq<Event>)
    requires Accounted(t, hmac, c) && EventsOk(es) && TwentyBytes(hmac)
    ensures Accounted(Follow(t, hmac, c, es), hmac, c)
    decreases |es|
  {
    if es != [] {
      TraceKeeps(t, hmac, c, es[0]);
      FollowKeeps(TraceStep(t, hmac, c, es[0]), hmac, c, es[1..]);
    }
  }

  /** Following a client does not change the run, and notes all its requests. */
  lemma {:induction false} FollowRuns(t: Trace, hmac: Hmac, c: Endpoint, es: seq<Event>)
    ensures Follow(t, hmac, c, es).world == Run(t.world, hmac, es)
    ensures Follow(t, hmac, c, es).asked == t.asked + AskedIn(c, es)
    decreases |es|
  {
    if es == [] {
      NothingNew(t);
    } else {
      FollowRuns(TraceStep(t, hmac, c, es[0]), hmac, c, es[1..]);
      Reassociate(t.asked, AskedBy(c, es[0]), AskedIn(c, es[1..]));
    }
  }

  lemma Reassociate(a: seq<Id>, b: seq<Id>, d: seq<Id>)
    ensures (a + b) + d == a + (b + d)
  {
  }

  // ---------------------------------------------------------------- over every run

  lemma SeenAccounted(hmac: Hmac, c: Endpoint, es: seq<Event>)
    requires EventsOk(es) && TwentyBytes(hmac)
    ensures Accounted(Seen(hmac, c, es), hmac, c)
    ensures Seen(hmac, c, es).world == Run(START, hmac, es) && Seen(hmac, c, es).asked == AskedIn(c, es)
  {
    var t := Trace(START, [], [], []);
    FollowKeeps(t, hmac, c, es);
    FollowRuns(t, hmac, c, es);
    assert [] + AskedIn(c, es) == AskedIn(c, es);
  }

  /**
   The backend answers the client's requests in the order of asking, each once and under its own transaction ID,
   with what has become of the relay socket; the frontend receives the answers in that order. What is not answered
   waits for the socket or is on its way; but of a socket whose address cannot be printed, nothing is heard at all.
   */
  lemma AnsweredInOrder(hmac: Hmac, c: Endpoint, es: seq<Event>)
    requires EventsOk(es) && TwentyBytes(hmac)
    ensures var t := Seen(hmac, c, es);
            var k := t.world.back;
            && t.emitted == t.received + ResponsesIn(c, t.world.toFront)
            && (Unprintable(k, EndpointKey(c)) ==> t.emitted == [])
            && (!Unprintable(k, EndpointKey(c)) ==>
                  AskedIn(c, es) == Ids(t.emitted) + (PendingAt(k, EndpointKey(c)) + IdsInFlight(c, t.world.toBack)))
            && (forall i :: 0 <= i < |t.emitted| ==> Tells(t.emitted[i], k, c))
  {
    SeenAccounted(hmac, c, es);
  }

  /** The first response that the frontend has received, when it is a success. */
  function Decision(hmac: Hmac, c: Endpoint, es: seq<Event>): Option<Message> {
    var received := Seen(hmac, c, es).received;
    if received != [] && received[0].clazz == SUCCESS_RESPONSE then Some(received[0]) else None
  }

  /**
   From the first response on, and whatever comes later, the client has got one success for each request it ever
   had forwarded, made from that response; before it, or if that response was a failure, none.
   */
  lemma OneReplyEach(hmac: Hmac, c: Endpoint, es: seq<Event>)
    requires EventsOk(es) && TwentyBytes(hmac)
    ensures SuccessesTo(c, Run(START, hmac, es).log)
         == if Decision(hmac, c, es).Some? then RepliesFrom(hmac, Decision(hmac, c, es).value, |AskedIn(c, es)|) else []
  {
    SeenAccounted(hmac, c, es);
  }

  lemma PrintedReads(hmac: Hmac, m: Message)
    requires TwentyBytes(hmac) && |m.transactionId| == 12 && m.method_ < 16 && AllFit(m.attributes)
    ensures ParseMessage(Printed(hmac, m)) == Ok(Normal(WithIntegrity(m, hmac(Front(m)))))
  {
    SignedBytes(m, hmac);
    SignedRoundTrip(m, hmac);
    var b := Printed(hmac, m);
    assert b[..|b| - 24] == Front(m);
  }

  /** A success that the client can read: where its relay socket is, where it was seen itself, and for how long. */
  predicate GrantedBy(b: seq<byte>, id: Id, relay: Endpoint, c: Endpoint) {
    && IsAllocateSuccess(b)
    && ParseMessage(b).value.transactionId == id && Grants(ParseMessage(b).value.attributes, relay, c)
  }

  /** A reply carries what the response said, under the response's transaction ID. */
  lemma ReplyGrants(hmac: Hmac, response: Message, j: nat, relay: Endpoint, c: Endpoint)
    requires TwentyBytes(hmac) && Successful(response) && Grants(response.attributes, relay, c)
    ensures GrantedBy(Printed(hmac, F.Reused(response, j)), response.transactionId, relay, c)
  {
    var m := F.Reused(response, j);
    ReusedFits(response, j);
    PrintedReads(hmac, m);
    ReusedGrants(response, j, hmac(Front(m)), relay, c);
  }

  lemma ReusedGrants(response: Message, j: nat, hash: seq<byte>, relay: Endpoint, c: Endpoint)
    requires Grants(response.attributes, relay, c)
    ensures Grants(Normal(WithIntegrity(F.Reused(response, j), hash)).attributes, relay, c)
  {
    var more := F.ZeroIntegrity(j) + [Attribute(MESSAGE_INTEGRITY, Some(hash))];
    assert WithIntegrity(F.Reused(response, j), hash).attributes == response.attributes + more;
    GrantsKept(response.attributes, more, relay, c);
  }

  /** What the frontend holds once the decision is known to be a success. */
  lemma DecidedBy(t: Trace, hmac: Hmac, c: Endpoint, relay: Endpoint)
    requires Accounted(t, hmac, c) && t.received != []
    requires EndpointKey(c) in t.world.back.allocations
    requires t.world.back.allocations[EndpointKey(c)] == B.Bound(relay) && FormatXor(relay).Ok?
    ensures var first := t.received[0];
            && Successful(first) && Grants(first.attributes, relay, c)
            && SuccessesTo(c, t.world.log) == RepliesFrom(hmac, first, |t.asked|)
            && t.asked != [] && first.transactionId == t.asked[0]
  {
    var w, first, tag := t.world, t.received[0], EndpointKey(c);
    assert t.emitted[0] == first && Ids(t.emitted)[0] == first.transactionId;
    assert Tells(t.emitted[0], w.back, c);
    assert PromiseOf(w.front, c).Some? && PromiseOk(tag, w.front.promises[tag], w.back);
  }

  /**
   Once nothing is in flight and the client's socket is bound, every request has its success, and each of them
   names that socket's address and the client. All of them carry the transaction ID of the first request, so
   a request is answered under its own exactly when it has that ID too.
   */
  lemma EveryRequestGranted(hmac: Hmac, c: Endpoint, es: seq<Event>, relay: Endpoint)
    requires EventsOk(es) && TwentyBytes(hmac)
    requires Run(START, hmac, es).toBack == [] && Run(START, hmac, es).toFront == []
    requires EndpointKey(c) in Run(START, hmac, es).back.allocations
    requires Run(START, hmac, es).back.allocations[EndpointKey(c)] == B.Bound(relay) && FormatXor(relay).Ok?
    ensures |SuccessesTo(c, Run(START, hmac, es).log)| == |AskedIn(c, es)|
    ensures forall b :: b in SuccessesTo(c, Run(START, hmac, es).log) ==>
              AskedIn(c, es) != [] && GrantedBy(b, AskedIn(c, es)[0], relay, c)
  {
    SeenAccounted(hmac, c, es);
    var t := Seen(hmac, c, es);
    assert t.emitted == t.received && Ids(t.emitted) == t.asked;
    if t.received == [] {
      assert t.asked == [];
    } else {
      DecidedBy(t, hmac, c, relay);
      AllGranted(hmac, t.received[0], |t.asked|, relay, c);
    }
  }

  lemma AllGranted(hmac: Hmac, response: Message, n: nat, relay: Endpoint, c: Endpoint)
    requires TwentyBytes(hmac) && Successful(response) && Grants(response.attributes, relay, c)
    ensures forall b :: b in RepliesFrom(hmac, response, n) ==> GrantedBy(b, response.transactionId, relay, c)
  {
    forall b | b in RepliesFrom(hmac, response, n)
      ensures GrantedBy(b, response.transactionId, relay, c)
    {
      var j :| 0 <= j < n && b == Printed(hmac, F.Reused(response, j));
      ReplyGrants(hmac, response, j, relay, c);
    }
  }

  /** If the socket could not be bound, there is no success for any request. */
  lemma NoneGranted(hmac: Hmac, c: Endpoint, es: seq<Event>)
    requires EventsOk(es) && TwentyBytes(hmac)
    requires EndpointKey(c) in Run(START, hmac, es).back.allocations
    requires Run(START, hmac, es).back.allocations[EndpointKey(c)].BindFailed?
    ensures SuccessesTo(c, Run(START, hmac, es).log) == []
  {
    SeenAccounted(hmac, c, es);
    var t := Seen(hmac, c, es);
    if t.received != [] {
      assert Tells(t.emitted[0], t.world.back, c);
    }
  }

  // ---------------------------------------------------------------- one request

  /**
   A client's first request, and the backend's success for it: nothing is sent to the client before, and one
   datagram after, with the attributes of that response followed by the hash.
   */
  lemma FirstRequest(f: F.Front, hmac: Hmac, request: Message, c: Endpoint, b: seq<byte>, b': seq<byte>, r: Message)
    requires TwentyBytes(hmac) && EndpointKey(c) !in f.promises
    requires request.method_ == ALLOCATE && FindFirst(request.attributes, USERNAME).Some?
    requires EmitIpc(request, c) == Some(b)
    requires DecodeIpc(b') == Ok(Decoded(r, c)) && Successful(r)
    ensures F.OnRequest(f, hmac, request, c).1 == [F.Ipc(b)]
    ensures F.OnIpc(F.OnRequest(f, hmac, request, c).0, hmac, b').1 == [F.Datagram(c, Printed(hmac, r))]
    ensures ParseMessage(Printed(hmac, r))
         == Ok(r.(attributes := NormAll(r.attributes) + [Attribute(0x08, Some(hmac(Front(r))))]))
  {
    FirstWaits(f, hmac, request, c, b);
    OneWaiting(hmac, r, c);
    SignedBytes(r, hmac);
    PrintedReads(hmac, r);
    NormalSigned(r, hmac(Front(r)));
  }

  lemma FirstWaits(f: F.Front, hmac: Hmac, request: Message, c: Endpoint, b: seq<byte>)
    requires EndpointKey(c) !in f.promises && EmitIpc(request, c) == Some(b)
    requires request.method_ == ALLOCATE && FindFirst(request.attributes, USERNAME).Some?
    ensures var (f', es) := F.OnRequest(f, hmac, request, c);
            es == [F.Ipc(b)] && PromiseOf(f', c) == Some(F.Waiting([c])) && EndpointKey(c) in f'.callbacks
  {
    assert [] + [c] == [c];
    assert [F.Ipc(b)] + [] == [F.Ipc(b)];
  }

  lemma OneWaiting(hmac: Hmac, r: Message, c: Endpoint)
    ensures F.Replies(hmac, r, 0, [c]) == F.Reply(hmac, c, r)
  {
    assert F.Reused(r, 0) == r;
    assert [c][1..] == [];
    assert F.Replies(hmac, r, 1, []) == [];
  }

  lemma NormalSigned(r: Message, hash: seq<byte>)
    requires |hash| == 20
    ensures Normal(WithIntegrity(r, hash))
         == r.(attributes := NormAll(r.attributes) + [Attribute(0x08, Some(hash))])
  {
    var a := Attribute(0x08, Some(hash));
    assert NormAll(r.attributes + [a]) == NormAll(r.attributes) + [a];
  }

  // ---------------------------------------------------------------- the other requests

  const COOKIE: seq<byte> := [0x21, 0x12, 0xa4, 0x42]

  /** A REFRESH request is granted, for 600 seconds. */
  lemma RefreshAnswer(f: F.Front, hmac: Hmac, m: Message, c: Endpoint)
    requires TwentyBytes(hmac) && |m.transactionId| == 12 && m.method_ == 4
    ensures var front := [1, 4, 0, 32] + COOKIE + m.transactionId + [0, 0x0d, 0, 4, 0, 0, 2, 88];
            F.OnRequest(f, hmac, m, c) == (f, [F.Datagram(c, front + [0, 8, 0, 20] + hmac(front))])
  {
    var reply := Message(REFRESH, SUCCESS_RESPONSE, m.transactionId, [Attribute(LIFETIME, Some(TEN_MINUTES))]);
    RefreshFront(reply);
    SignedBytes(reply, hmac);
  }

  lemma RefreshFront(reply: Message)
    requires reply.method_ == 4 && reply.clazz == SUCCESS_RESPONSE && |reply.transactionId| == 12
    requires reply.attributes == [Attribute(LIFETIME, Some(TEN_MINUTES))]
    ensures Front(reply) == [1, 4, 0, 32] + COOKIE + reply.transactionId + [0, 0x0d, 0, 4, 0, 0, 2, 88]
  {
    AttributeBytes(0x0d, [0, 0, 2, 88], 0);
    OneAttribute(reply.attributes[0]);
    assert FormatAttributes(reply.attributes) == [0, 0x0d, 0, 4, 0, 0, 2, 88];
    HeaderBytes(reply, 32);
  }

  lemma OneAttribute(a: Attribute)
    ensures FormatAttributes([a]) == FormatAttribute(a)
  {
    assert [a][1..] == [] && FormatAttributes([]) == [];
  }

  /** So is a CREATE_PERMISSION request, without attributes. */
  lemma PermissionAnswer(f: F.Front, hmac: Hmac, m: Message, c: Endpoint)
    requires TwentyBytes(hmac) && |m.transactionId| == 12 && m.method_ == 8
    ensures var front := [1, 8, 0, 24] + COOKIE + m.transactionId;
            F.OnRequest(f, hmac, m, c) == (f, [F.Datagram(c, front + [0, 8, 0, 20] + hmac(front))])
  {
    var reply := Message(CREATE_PERMISSION, SUCCESS_RESPONSE, m.transactionId, []);
    SignedBytes(reply, hmac);
    HeaderBytes(reply, 24);
    assert Front(reply) == [1, 8, 0, 24] + COOKIE + m.transactionId;
  }

  /** An ALLOCATE request without a user name is refused with error 401, a nonce and a realm. */
  lemma AllocateRefused(f: F.Front, hmac: Hmac, m: Message, c: Endpoint)
    requires TwentyBytes(hmac) && |m.transactionId| == 12 && m.method_ == 3 && FindFirst(m.attributes, 0x06).None?
    ensures var reply := Message(3, FAILURE_RESPONSE, m.transactionId,
                                 [Attribute(0x09, Some([0, 0, 4, 1] + CharBytes("not authorised"))),
                                  Attribute(0x15, Some(CharBytes("nonce"))),
                                  Attribute(0x14, Some(CharBytes("myrealm")))]);
            && F.OnRequest(f, hmac, m, c) == (f, [F.Datagram(c, Printed(hmac, reply))])
            && Front(reply)[..20] == [1, 0x13, 0, 72] + COOKIE + m.transactionId
  {
    var reply := F.Unauthorised(m);
    SignedBytes(reply, hmac);
    var a, b, d := reply.attributes[0], reply.attributes[1], reply.attributes[2];
    ThreeAttributes(a, b, d);
    RefusedFront(reply, a, b, d);
  }

  lemma RefusedFront(reply: Message, a: Attribute, b: Attribute, d: Attribute)
    requires reply.method_ == 3 && reply.clazz == FAILURE_RESPONSE && |reply.transactionId| == 12
    requires reply.attributes == [a, b, d] && |FormatAttributes([a, b, d])| == 48
    ensures Front(reply)[..20] == [1, 0x13, 0, 72] + COOKIE + reply.transactionId
  {
    HeaderBytes(reply, 72);
  }

  lemma ThreeAttributes(a: Attribute, b: Attribute, d: Attribute)
    ensures |FormatAttributes([a, b, d])| == 12 + PaddedSize(a) + PaddedSize(b) + PaddedSize(d)
  {
    assert [a, b, d][1..] == [b, d] && [b, d][1..] == [d];
    OneAttribute(d);
  }

  /** A datagram that is no message, or one of no supported method, gets no answer and changes nothing. */
  lemma StrayData(f: F.Front, hmac: Hmac, b: seq<byte>, c: Endpoint)
    requires ParseMessage(b).Ok? ==> ParseMessage(b).value.method_ !in {3, 4, 6, 8}
    ensures F.OnData(f, hmac, b, c) == (f, [])
  {
  }

  /** The same for what comes over IPC, at either half. */
  lemma StrayIpc(f: F.Front, k: B.Back, hmac: Hmac, b: seq<byte>)
    ensures (DecodeIpc(b).Ok? ==> DecodeIpc(b).value.message.method_ !in {3, 7}) ==> F.OnIpc(f, hmac, b) == (f, [])
    ensures (DecodeIpc(b).Ok? ==> DecodeIpc(b).value.message.method_ !in {3, 6}) ==> B.OnIpc(k, b) == (k, [])
  {
  }
}
