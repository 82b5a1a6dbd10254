/**
 socks-to-rtc's Session: it serves one SOCKS client over a data channel.

 `toPeer` lists what it passed to the channel's send(), and `fromPeer` what its handlers took from
 the channel's dataFromPeerQueue. `read` and `written` list the buffers that it forwarded, after the
 handshake, from and to its socket.
 */
module SocksToRtc {
  import opened Basics
  import opened PoolChannels
  import opened SocksHeaders
  import opened SocksMessages
  import opened ProxyMessages

  datatype Phase = AwaitAuth | AwaitRequest | AwaitReply | Replying(ok: bool) | Linked | Failed

  /**
   `fromSocket` is all that has arrived from the client, `socketQueue` what dataFromSocketQueue holds,
   `toClient` what was sent to the client in the handshake, and `request` the request that was forwarded to
   the peer.
   */
  datatype Socks = Socks(
    phase: Phase,
    fromSocket: seq<seq<byte>>,
    socketQueue: seq<seq<byte>>,
    toClient: seq<seq<byte>>,
    read: seq<seq<byte>>,
    written: seq<seq<byte>>,
    toPeer: seq<Data>,
    fromPeer: seq<Data>,
    request: Option<Request>,
    stopping: bool)

  const FRESH_SOCKS := Socks(AwaitAuth, [], [], [], [], [], [], [], None, false)

  const AUTH_RESPONSE: seq<byte> := [VERSION5, NOAUTH]

  const GENERIC_FAILURE := Response(FAILURE, None)

  function RequestText(env: Env, r: Request): string {
    env.json.print_(RequestJson(r))
  }

  /** The reply that a message of the peer stands for; what cannot be understood is a failure. */
  function ReplyIn(env: Env, d: Data): Response {
    if !d.Str? || d.s == "" then GENERIC_FAILURE
    else
      match env.json.parse(d.s)
      case None => GENERIC_FAILURE
      case Some(j) => if IsValidResponse(j) == Valid then ResponseOf(j) else GENERIC_FAILURE
  }

  function SendReply(env: Env, s: Socks, response: Response): Socks {
    s.(toClient := s.toClient + [ComposeResponse(env.lib, response)], phase := Replying(response.reply == SUCCEEDED))
  }

  /** The client's second buffer. */
  function OnRequest(env: Env, s: Socks, b: seq<byte>, channelOpen: bool): Socks {
    match InterpretRequest(env.lib, b)
    case Err(_) => SendReply(env, s, GENERIC_FAILURE)
    case Ok(r) =>
      var s' := s.(toPeer := s.toPeer + [Str(RequestText(env, r))], request := Some(r));
      if channelOpen then s'.(phase := AwaitReply) else SendReply(env, s', GENERIC_FAILURE)
  }

  /** A buffer arrives from the client; `channelOpen` says whether the channel accepts a message now. */
  function OnClientData(env: Env, s: Socks, b: seq<byte>, channelOpen: bool): Socks {
    var s' := s.(fromSocket := s.fromSocket + [b]);
    match s.phase
    case AwaitAuth =>
      if InterpretAuthHandshake(b).Ok? then s'.(toClient := s.toClient + [AUTH_RESPONSE], phase := AwaitRequest)
      else s'.(phase := Failed, stopping := true)
    case AwaitRequest =>
      OnRequest(env, s', b, channelOpen)
    case Linked => s'.(read := s.read + [b], toPeer := s.toPeer + [Buffer(b)])
    case _ => s'.(socketQueue := s.socketQueue + [b])
  }

  /** The reply has been written to the client, or could not be. */
  function OnReplyWritten(s: Socks, ok: bool): Socks {
    if !s.phase.Replying? then s
    else if ok && s.phase.ok then
      s.(phase := Linked, read := s.socketQueue, toPeer := s.toPeer + Buffers(s.socketQueue), socketQueue := [])
    else s.(phase := Failed, stopping := true)
  }

  /** Whether dataFromPeerQueue has a handler. */
  predicate Handles(s: Socks) {
    s.phase.AwaitReply? || s.phase.Linked?
  }

  function OnReplyData(env: Env, s: Socks, d: Data): Socks
    requires Handles(s)
  {
    var s' := s.(fromPeer := s.fromPeer + [d]);
    if s.phase.AwaitReply? then SendReply(env, s', ReplyIn(env, d))
    else if d.Buffer? then s'.(written := s.written + [d.bytes])
    else s'
  }

  class Session {
    const env: Env
    var phase: Phase
    var fromSocket: seq<seq<byte>>
    var dataFromSocketQueue: seq<seq<byte>>
    var toClient: seq<seq<byte>>
    var read: seq<seq<byte>>
    var written: seq<seq<byte>>
    var toPeer: seq<Data>
    var fromPeer: seq<Data>
    var request: Option<Request>
    var stopping: bool

    function View(): Socks
      reads this
    {
      Socks(phase, fromSocket, dataFromSocketQueue, toClient, read, written, toPeer, fromPeer, request, stopping)
    }

    constructor (env: Env)
      ensures this.env == env && View() == FRESH_SOCKS
    {
      this.env := env;
      phase := AwaitAuth;
      fromSocket, dataFromSocketQueue, toClient, read, written := [], [], [], [], [];
      toPeer, fromPeer, request, stopping := [], [], None, false;
    }

    method Respond(response: Response)
      modifies this
      ensures View() == SendReply(env, old(View()), response)
    {
      toClient := toClient + [ComposeResponse(env.lib, response)];
      phase := Replying(response.reply == SUCCEEDED);
    }

    method HandleRequest(b: seq<byte>, channelOpen: bool)
      modifies this
      ensures View() == OnRequest(env, old(View()), b, channelOpen)
    {
      var interpreted := InterpretRequest(env.lib, b);
      if interpreted.Err? {
        Respond(GENERIC_FAILURE);
        return;
      }
      toPeer := toPeer + [Str(RequestText(env, interpreted.value))];
      request := Some(interpreted.value);
      if channelOpen {
        phase := AwaitReply;
      } else {
        Respond(GENERIC_FAILURE);
      }
    }

    method HandleClientData(b: seq<byte>, channelOpen: bool)
      modifies this
      ensures View() == OnClientData(env, old(View()), b, channelOpen)
    {
      fromSocket := fromSocket + [b];
      match phase {
        case AwaitAuth =>
          if InterpretAuthHandshake(b).Ok? {
            toClient := toClient + [AUTH_RESPONSE];
            phase := AwaitRequest;
          } else {
            phase := Failed;
            stopping := true;
          }
        case AwaitRequest =>
          HandleRequest(b, channelOpen);
        case Linked =>
          read := read + [b];
          toPeer := toPeer + [Buffer(b)];
        case AwaitReply => dataFromSocketQueue := dataFromSocketQueue + [b];
        case Replying(_) => dataFromSocketQueue := dataFromSocketQueue + [b];
        case Failed => dataFromSocketQueue := dataFromSocketQueue + [b];
      }
    }

    method HandleReplyWritten(ok: bool)
      modifies this
      ensures View() == OnReplyWritten(old(View()), ok)
    {
      if phase.Replying? {
        if ok && phase.ok {
          phase := Linked;
          read := dataFromSocketQueue;
          toPeer := toPeer + Buffers(dataFromSocketQueue);
          dataFromSocketQueue := [];
        } else {
          phase := Failed;
          stopping := true;
        }
      }
    }

    method HandleReplyData(d: Data)
      requires Handles(View())
      modifies this
      ensures View() == OnReplyData(env, old(View()), d)
    {
      fromPeer := fromPeer + [d];
      if phase.AwaitReply? {
        Respond(ReplyIn(env, d));
      } else if d.Buffer? {
        written := written + [d.bytes];
      }
    }
  }

  // ---------------------------------------------------------------- what a session keeps

  /** What was passed to the channel: the request, which was the client's second buffer, then the stream. */
  predicate Announced(env: Env, s: Socks) {
    if s.request.None? then s.toPeer == [] && s.read == []
    else
      && |s.fromSocket| >= 2 && InterpretRequest(env.lib, s.fromSocket[1]) == Ok(s.request.value)
      && s.toPeer == [Str(RequestText(env, s.request.value))] + Buffers(s.read)
  }

  /** The answer to the client's request: what the peer replied, or a failure when it was not even asked. */
  function Answer(env: Env, s: Socks): Response {
    if s.fromPeer == [] then GENERIC_FAILURE else ReplyIn(env, s.fromPeer[0])
  }

  /** What the client has been sent: the choice of no authentication, then the answer to its request. */
  predicate Told(env: Env, s: Socks) {
    var all := [[5, 0], ComposeResponse(env.lib, Answer(env, s))];
    match s.phase
    case AwaitAuth => s.toClient == []
    case AwaitRequest => s.toClient == [[5, 0]]
    case AwaitReply => s.toClient == [[5, 0]]
    case Replying(ok) => s.toClient == all && (ok <==> Answer(env, s).reply == SUCCEEDED)
    case Linked => s.toClient == all
    case Failed => s.stopping && (s.toClient == [] || s.toClient == all)
  }

  /** The handshake, then the stream: how the logs of a session relate. */
  predicate SocksOk(env: Env, s: Socks) {
    && Announced(env, s) && Told(env, s)
    && match s.phase
       case AwaitAuth =>
         s.request.None? && s.written == [] && s.fromPeer == s.toPeer && s.fromSocket == s.socketQueue == []
       case AwaitRequest =>
         && s.request.None? && s.written == [] && s.fromPeer == s.toPeer
         && |s.fromSocket| == 1 && s.socketQueue == []
       case AwaitReply =>
         s.request.Some? && s.fromPeer == [] && s.read == s.written == [] && s.fromSocket[2..] == s.socketQueue
       case Replying(ok) =>
         && s.read == s.written == []
         && |s.fromSocket| >= 2 && s.fromSocket[2..] == s.socketQueue
         && (ok ==> s.request.Some? && |s.fromPeer| == 1 && ReplyIn(env, s.fromPeer[0]).reply == SUCCEEDED)
       case Linked =>
         && s.request.Some? && s.fromSocket[2..] == s.read && s.socketQueue == []
         && s.fromPeer != [] && ReplyIn(env, s.fromPeer[0]).reply == SUCCEEDED
         && s.written == BuffersIn(s.fromPeer[1..])
       case Failed => s.read == s.written == []
  }

  lemma RequestKeeps(env: Env, s: Socks, b: seq<byte>, channelOpen: bool)
    requires s.phase.AwaitRequest? && s.request.None? && s.fromPeer == s.toPeer == [] && s.read == s.written == []
    requires |s.fromSocket| == 2 && s.fromSocket[1] == b && s.socketQueue == [] && s.toClient == [[5, 0]]
    ensures SocksOk(env, OnRequest(env, s, b, channelOpen))
  {
    assert s.fromSocket[2..] == [];
    if InterpretRequest(env.lib, b).Ok? {
      var first := [Str(RequestText(env, InterpretRequest(env.lib, b).value))];
      assert [] + first == first == first + Buffers([]);
    }
  }

  lemma ClientDataKeeps(env: Env, s: Socks, b: seq<byte>, channelOpen: bool)
    requires SocksOk(env, s)
    ensures SocksOk(env, OnClientData(env, s, b, channelOpen))
  {
    var s' := s.(fromSocket := s.fromSocket + [b]);
    if s.phase.AwaitRequest? {
      RequestKeeps(env, s', b, channelOpen);
    } else if |s.fromSocket| >= 2 {
      assert s'.fromSocket[1] == s.fromSocket[1];
      assert s'.fromSocket[2..] == s.fromSocket[2..] + [b];
      if s.phase.Linked? {
        BuffersOfConcat(s.read, [b]);
        var first := [Str(RequestText(env, s.request.value))];
        assert s.toPeer + [Buffer(b)] == first + Buffers(s.read + [b]);
      }
    }
  }

  lemma ReplyWrittenKeeps(env: Env, s: Socks, ok: bool)
    requires SocksOk(env, s)
    ensures SocksOk(env, OnReplyWritten(s, ok))
  {
    if s.phase.Replying? && s.phase.ok {
      assert s.toPeer == [Str(RequestText(env, s.request.value))];
    }
  }

  lemma ReplyDataKeeps(env: Env, s: Socks, d: Data)
    requires SocksOk(env, s) && Handles(s)
    ensures SocksOk(env, OnReplyData(env, s, d))
  {
    if s.phase.Linked? {
      BuffersInMore(s.fromPeer[1..], d);
      assert (s.fromPeer + [d])[1..] == s.fromPeer[1..] + [d];
    }
  }

  // ---------------------------------------------------------------- decisions

  /** A request that can be read and sent awaits the peer's reply; any other second buffer is answered at once. */
  lemma RequestDecides(env: Env, s: Socks, b: seq<byte>, channelOpen: bool)
    requires SocksOk(env, s) && s.phase.AwaitRequest?
    ensures var s' := OnClientData(env, s, b, channelOpen);
            if InterpretRequest(env.lib, b).Ok? && channelOpen
            then s'.phase.AwaitReply? && s'.toPeer == [Str(RequestText(env, InterpretRequest(env.lib, b).value))]
            else s'.phase == Replying(false) && s'.toClient == [[5, 0], ComposeResponse(env.lib, Response(1, None))]
  {
    if InterpretRequest(env.lib, b).Ok? {
      var first := [Str(RequestText(env, InterpretRequest(env.lib, b).value))];
      assert [] + first == first;
    }
    var failure := ComposeResponse(env.lib, GENERIC_FAILURE);
    assert [[5, 0]] + [failure] == [[5, 0], failure];
  }

  /** Once the answer has been written, or not, the session is linked if it was a success; otherwise it stops. */
  lemma ReplyWrittenDecides(env: Env, s: Socks, ok: bool)
    requires SocksOk(env, s) && s.phase.Replying?
    ensures var s' := OnReplyWritten(s, ok);
            if ok && Answer(env, s).reply == SUCCEEDED
            then s'.phase.Linked? && s'.toPeer == s.toPeer + Buffers(s.fromSocket[2..])
            else s'.phase.Failed? && s'.stopping && s'.toPeer == s.toPeer
  {
  }

  /** Only a valid success, as JSON, is taken for one; what is not a valid response counts as a general failure. */
  lemma SuccessIsSaid(env: Env, d: Data)
    ensures ReplyIn(env, d).reply == 0 <==>
            && d.Str? && d.s != ""
            && exists e: Endpoint :: e.port < 65536 && env.json.parse(d.s) == Some(ResponseJson(Response(0, Some(e))))
    ensures ReplyIn(env, d) == Response(1, None) ||
            (d.Str? && exists j :: env.json.parse(d.s) == Some(j) && IsValidResponse(j) == Valid
                                   && ResponseOf(j) == ReplyIn(env, d))
  {
    if d.Str? && d.s != "" && env.json.parse(d.s).Some? {
      ValidSuccesses(env.json.parse(d.s).value);
    }
  }
}
