/** The TURN frontend: it answers clients, and delegates relay sockets to the backend over IPC. */
module TurnFrontend {
  import opened Basics
  import opened Text
  import opened StunMessages
  import opened StunAddresses
  import opened StunBuffers
  import opened StunIntegrity
  import opened TurnIpc

  /**
   The promise kept for a client tag: who awaits it, or the response it was fulfilled with and
   the number of replies made from that response so far.
   */
  datatype Promise =
    | Waiting(clients: seq<Endpoint>)
    | Fulfilled(response: Message, replies: nat)
    | Rejected

  /** What the frontend does to the world. CallbackMissing is a call of an undefined callback. */
  datatype Effect =
    | Ipc(bytes: seq<byte>)
    | Datagram(to: Endpoint, bytes: seq<byte>)
    | CallbackMissing

  /** promises_ by tag, and for each tag in callbacks_ the endpoint its callback was made for. */
  datatype Front = Front(promises: map<string, Promise>, callbacks: map<string, Endpoint>)

  // ---------------------------------------------------------------- replies

  function ZeroIntegrity(n: nat): seq<Attribute> {
    seq(n, _ => Attribute(MESSAGE_INTEGRITY, Some(Zeros(20))))
  }

  /**
   The message that the (n+1)-th reply made from one response object is printed from: each
   earlier reply has left its own, still zero, MESSAGE-INTEGRITY attribute in the object.
   */
  function Reused(response: Message, n: nat): Message {
    response.(attributes := response.attributes + ZeroIntegrity(n))
  }

  lemma ReusedAgain(response: Message, n: nat)
    ensures WithIntegrity(Reused(response, n), Zeros(20)) == Reused(response, n + 1)
  {
    assert response.attributes + ZeroIntegrity(n + 1)
        == response.attributes + ZeroIntegrity(n) + [Attribute(MESSAGE_INTEGRITY, Some(Zeros(20)))];
  }

  function Reply(hmac: Hmac, to: Endpoint, m: Message): seq<Effect> {
    match FormatWithIntegrity(m, hmac)
    case Err(_) => []
    case Ok(b) => [Datagram(to, b)]
  }

  /** The replies to all who awaited one response, in order. */
  function Replies(hmac: Hmac, response: Message, n: nat, clients: seq<Endpoint>): seq<Effect>
    decreases |clients|
  {
    if clients == [] then []
    else Reply(hmac, clients[0], Reused(response, n)) + Replies(hmac, response, n + 1, clients[1..])
  }

  lemma NextReply(hmac: Hmac, response: Message, i: nat, clients: seq<Endpoint>, before: seq<Effect>)
    requires i < |clients|
    ensures before + Replies(hmac, response, i, clients[i..])
         == (before + Reply(hmac, clients[i], Reused(response, i))) + Replies(hmac, response, i + 1, clients[i + 1..])
  {
    assert clients[i..][1..] == clients[i + 1..];
  }

  /** formatErrorCodeAttribute(401, reason) */
  function ErrorCode401(reason: string): seq<byte> {
    [0, 0, 4, 1] + CharBytes(reason)
  }

  function Unauthorised(request: Message): Message {
    Message(ALLOCATE, FAILURE_RESPONSE, request.transactionId,
            [Attribute(ERROR_CODE, Some(ErrorCode401("not authorised"))),
             Attribute(NONCE, Some(CharBytes("nonce"))),
             Attribute(REALM, Some(CharBytes("myrealm")))])
  }

  // ---------------------------------------------------------------- handlers

  /** The bookkeeping of an ALLOCATE request with a user name, before the backend is asked. */
  function Register(f: Front, client: Endpoint): Front {
    var tag := EndpointKey(client);
    if tag in f.promises then f
    else Front(f.promises[tag := Waiting([])], f.callbacks[tag := client])
  }

  /** Awaiting the tag's promise: at once when it is settled already. */
  function Await(f: Front, hmac: Hmac, client: Endpoint): (Front, seq<Effect>)
    requires EndpointKey(client) in f.promises
  {
    var tag := EndpointKey(client);
    match f.promises[tag]
    case Waiting(clients) => (f.(promises := f.promises[tag := Waiting(clients + [client])]), [])
    case Fulfilled(response, n) =>
      (f.(promises := f.promises[tag := Fulfilled(response, n + 1)]), Reply(hmac, client, Reused(response, n)))
    case Rejected => (f, [])
  }

  function OnRequest(f: Front, hmac: Hmac, m: Message, client: Endpoint): (Front, seq<Effect>) {
    if m.method_ == ALLOCATE then
      if FindFirst(m.attributes, USERNAME).None? then (f, Reply(hmac, client, Unauthorised(m)))
      else
        var f' := Register(f, client);
        match EmitIpc(m, client)
        case None => (f', [])  // printing the tag threw
        case Some(b) =>
          var (f'', replies) := Await(f', hmac, client);
          (f'', [Ipc(b)] + replies)
    else if m.method_ == CREATE_PERMISSION then
      (f, Reply(hmac, client, Message(CREATE_PERMISSION, SUCCESS_RESPONSE, m.transactionId, [])))
    else if m.method_ == REFRESH then
      (f, Reply(hmac, client, Message(REFRESH, SUCCESS_RESPONSE, m.transactionId,
                                      [Attribute(LIFETIME, Some(TEN_MINUTES))])))
    else if m.method_ == SEND then
      (f, match EmitIpc(m, client) case None => [] case Some(b) => [Ipc(b)])
    else (f, [])
  }

  /** A datagram from a client; what does not parse is ignored. */
  function OnData(f: Front, hmac: Hmac, b: seq<byte>, client: Endpoint): (Front, seq<Effect>) {
    match ParseMessage(b)
    case Err(_) => (f, [])
    case Ok(m) => OnRequest(f, hmac, m, client)
  }

  /** The callback registered for a tag: the first response settles the promise. */
  function Settle(f: Front, hmac: Hmac, tag: string, response: Message): (Front, seq<Effect>)
    requires tag in f.promises
  {
    match f.promises[tag]
    case Waiting(clients) =>
      if response.clazz == SUCCESS_RESPONSE then
        (f.(promises := f.promises[tag := Fulfilled(response, |clients|)]), Replies(hmac, response, 0, clients))
      else
        (f.(promises := f.promises[tag := Rejected]), [])
    case Fulfilled(_, _) => (f, [])
    case Rejected => (f, [])
  }

  function OnIpc(f: Front, hmac: Hmac, b: seq<byte>): (Front, seq<Effect>) {
    match DecodeIpc(b)
    case Err(_) => (f, [])
    case Ok(Decoded(m, client)) =>
      var tag := EndpointKey(client);
      if m.method_ == ALLOCATE then
        if tag in f.callbacks && tag in f.promises then Settle(f, hmac, tag, m) else (f, [CallbackMissing])
      else if m.method_ == DATA then (f, [Datagram(client, AfterDecode(b))])
      else (f, [])
  }

  // ---------------------------------------------------------------- the class

  class Frontend {
    const hmac: Hmac
    var promises_: map<string, Promise>
    var callbacks_: map<string, Endpoint>
    /** What went out on the socket and the IPC channel, in order. */
    var effects: seq<Effect>

    function View(): Front
      reads this
    {
      Front(promises_, callbacks_)
    }

    ghost predicate Valid()
      reads this
    {
      TwentyBytes(hmac) && callbacks_.Keys == promises_.Keys
    }

    constructor (hmac: Hmac)
      requires TwentyBytes(hmac)
      ensures Valid() && View() == Front(map[], map[]) && effects == [] && this.hmac == hmac
    {
      this.hmac := hmac;
      promises_, callbacks_, effects := map[], map[], [];
    }

    /** `after` is the object that the reply was made from, as printing leaves it. */
    method SendReply(to: Endpoint, m: Message) returns (after: Message)
      requires Valid()
      modifies `effects
      ensures effects == old(effects) + Reply(hmac, to, m)
      ensures after == WithIntegrity(m, Zeros(20))
    {
      var bytes;
      bytes, after := FormatStunMessageWithIntegrity(m, hmac);
      if bytes.Ok? {
        effects := effects + [Datagram(to, bytes.value[..])];
      }
    }

    /** emitIpc_; false when it throws. */
    method Emit(m: Message, client: Endpoint) returns (ok: bool)
      modifies `effects
      ensures ok <==> EmitIpc(m, client).Some?
      ensures effects == old(effects) + (match EmitIpc(m, client) case None => [] case Some(b) => [Ipc(b)])
    {
      var v := FormatXor(client);
      if v.Err? {
        return false;
      }
      var bytes := FormatStunMessage(m.(attributes := m.attributes + [TagAttribute(v.value)]));
      if bytes.Err? {
        return false;
      }
      effects := effects + [Ipc(bytes.value[..])];
      return true;
    }

    method OnDataFromClient(data: array<byte>, client: Endpoint)
      requires Valid()
      modifies this
      ensures Valid()
      ensures View() == OnData(old(View()), hmac, data[..], client).0
      ensures effects == old(effects) + OnData(old(View()), hmac, data[..], client).1
    {
      var parsed := ParseStunMessage(data);
      if parsed.Err? {
        return;
      }
      var m := ShowMessage(parsed.value, data[..]);
      if m.method_ == ALLOCATE {
        HandleAllocateRequest(m, client);
      } else if m.method_ == CREATE_PERMISSION {
        var _ := SendReply(client, Message(CREATE_PERMISSION, SUCCESS_RESPONSE, m.transactionId, []));
      } else if m.method_ == REFRESH {
        var lifetime := Attribute(LIFETIME, Some(TEN_MINUTES));
        var _ := SendReply(client, Message(REFRESH, SUCCESS_RESPONSE, m.transactionId, [lifetime]));
      } else if m.method_ == SEND {
        var _ := Emit(m, client);
      }
    }

    method HandleAllocateRequest(request: Message, client: Endpoint)
      requires Valid() && request.method_ == ALLOCATE
      modifies this
      ensures Valid()
      ensures View() == OnRequest(old(View()), hmac, request, client).0
      ensures effects == old(effects) + OnRequest(old(View()), hmac, request, client).1
    {
      if FindFirst(request.attributes, USERNAME).None? {
        var _ := SendReply(client, Unauthorised(request));
        return;
      }
      var tag := EndpointKey(client);
      if tag !in promises_ {
        callbacks_ := callbacks_[tag := client];
        promises_ := promises_[tag := Waiting([])];
      }
      var ok := Emit(request, client);
      if !ok {
        return;
      }
      AwaitPromise(client);
    }

    /** The continuation attached to the shared promise of the client's tag. */
    method AwaitPromise(client: Endpoint)
      requires Valid() && EndpointKey(client) in promises_
      modifies this
      ensures Valid()
      ensures View() == Await(old(View()), hmac, client).0
      ensures effects == old(effects) + Await(old(View()), hmac, client).1
    {
      var tag := EndpointKey(client);
      match promises_[tag] {
        case Waiting(clients) =>
          promises_ := promises_[tag := Waiting(clients + [client])];
        case Fulfilled(response, n) =>
          ReplyAgain(client, response, n);
          promises_ := promises_[tag := Fulfilled(response, n + 1)];
        case Rejected =>
      }
    }

    /** One more reply from a response object that has served for n already, and then for n + 1. */
    method ReplyAgain(client: Endpoint, response: Message, n: nat)
      requires Valid()
      modifies `effects
      ensures effects == old(effects) + Reply(hmac, client, Reused(response, n))
    {
      var after := SendReply(client, Reused(response, n));
      ReusedAgain(response, n);
      assert after == Reused(response, n + 1);
    }

    method HandleIpc(data: array<byte>)
      requires Valid()
      modifies this, data
      ensures Valid()
      ensures View() == OnIpc(old(View()), hmac, old(data[..])).0
      ensures effects == old(effects) + OnIpc(old(View()), hmac, old(data[..])).1
    {
      var decoded := DecodeIpcInPlace(data);
      if decoded.Err? {
        return;
      }
      var Decoded(m, client) := decoded.value;
      var tag := EndpointKey(client);
      if m.method_ == ALLOCATE {
        if tag !in callbacks_ {
          effects := effects + [CallbackMissing];
          return;
        }
        match promises_[tag] {
          case Waiting(clients) =>
            if m.clazz == SUCCESS_RESPONSE {
              promises_ := promises_[tag := Fulfilled(m, |clients|)];
              SendReplies(m, clients);
            } else {
              promises_ := promises_[tag := Rejected];
            }
          case Fulfilled(_, _) =>
          case Rejected =>
        }
      } else if m.method_ == DATA {
        effects := effects + [Datagram(client, data[..])];
      }
    }

    /** Each reply is made from the object as the one before has left it. */
    method SendReplies(response: Message, clients: seq<Endpoint>)
      requires Valid()
      modifies `effects
      ensures effects == old(effects) + Replies(hmac, response, 0, clients)
    {
      var shared := response;
      assert Reused(response, 0) == response;
      for i := 0 to |clients|
        invariant shared == Reused(response, i)
        invariant effects + Replies(hmac, response, i, clients[i..])
               == old(effects) + Replies(hmac, response, 0, clients)
      {
        NextReply(hmac, response, i, clients, effects);
        ReusedAgain(response, i);
        shared := SendReply(clients[i], shared);
      }
      assert effects + [] == effects;
    }
  }
}
