/**
 rtc-to-net's Session: it connects one data channel to a remote endpoint. Its logs are those of
 SocksToRtc: what it passed to the channel and took from it, and what it forwarded.
 */
module RtcToNet {
  import opened Basics
  import opened PoolChannels
  import opened SocksHeaders
  import opened SocksMessages
  import opened ProxyMessages

  datatype Phase =
    | AwaitEndpoint
    | Connecting(endpoint: Endpoint)
    | Linked(endpoint: Endpoint)
    | Failed
    | Stuck

  /** Bytes in one direction: received, forwarded, in sends that have not settled, and in sends that failed. */
  datatype Traffic = Traffic(received: nat, sent: nat, pending: seq<nat>, failed: nat)

  const NO_TRAFFIC := Traffic(0, 0, [], 0)

  function Sum(ns: seq<nat>): nat {
    if ns == [] then 0 else ns[0] + Sum(ns[1..])
  }

  predicate Balanced(t: Traffic) {
    t.received == t.sent + Sum(t.pending) + t.failed
  }

  function Received(t: Traffic, n: nat): Traffic {
    t.(received := t.received + n, pending := t.pending + [n])
  }

  /** One of the pending sends settles; they may do so in any order. */
  function SettledSend(t: Traffic, i: nat, ok: bool): Traffic {
    if i >= |t.pending| then t
    else
      var n := t.pending[i];
      var t' := t.(pending := t.pending[..i] + t.pending[i + 1..]);
      if ok then t'.(sent := t.sent + n) else t'.(failed := t.failed + n)
  }

  lemma {:induction false} SumOfConcat(a: seq<nat>, b: seq<nat>)
    ensures Sum(a + b) == Sum(a) + Sum(b)
  {
    if a == [] {
      assert a + b == b;
    } else {
      assert (a + b)[1..] == a[1..] + b;
      SumOfConcat(a[1..], b);
    }
  }

  lemma ReceivedBalances(t: Traffic, n: nat)
    requires Balanced(t)
    ensures Balanced(Received(t, n))
  {
    SumOfConcat(t.pending, [n]);
    assert [n][1..] == [];
  }

  lemma SettledBalances(t: Traffic, i: nat, ok: bool)
    requires Balanced(t)
    ensures Balanced(SettledSend(t, i, ok))
  {
    if i < |t.pending| {
      var a, b := t.pending[..i], t.pending[i + 1..];
      assert t.pending == a + t.pending[i..];
      SumOfConcat(a, t.pending[i..]);
      SumOfConcat(a, b);
      assert t.pending[i..][1..] == b;
    }
  }

  /**
   `up` counts towards the remote endpoint (channelReceivedBytes_, socketSentBytes_), `down` towards the peer;
   `reply` is the one sent.
   */
  datatype Net = Net(
    phase: Phase,
    fromSocket: seq<seq<byte>>,
    socketQueue: seq<seq<byte>>,
    read: seq<seq<byte>>,
    written: seq<seq<byte>>,
    toPeer: seq<Data>,
    fromPeer: seq<Data>,
    reply: Option<Response>,
    up: Traffic,
    down: Traffic,
    stopping: bool)

  const FRESH_NET := Net(AwaitEndpoint, [], [], [], [], [], [], None, NO_TRAFFIC, NO_TRAFFIC, false)

  function ReplyText(env: Env, r: Response): string {
    env.json.print_(ResponseJson(r))
  }

  function ReplyToPeer(env: Env, n: Net, r: Response): Net {
    n.(toPeer := n.toPeer + [Str(ReplyText(env, r))], reply := Some(r))
  }

  /** A handshake that failed, after the reply with which it failed. */
  function Refuse(env: Env, n: Net, reply: nat): Net {
    ReplyToPeer(env, n, Response(reply, None)).(phase := Failed, stopping := true)
  }

  const NOT_ALLOWED := 2
  const UNSUPPORTED_COMMAND := 7

  /** The first message from the peer. A null that gets past JSON.parse throws in the handler, and nothing follows. */
  function OnRequestData(env: Env, n: Net, d: Data): Net {
    if !d.Str? || d.s == "" then Refuse(env, n, UNSUPPORTED_COMMAND)
    else
      match env.json.parse(d.s)
      case None => Refuse(env, n, UNSUPPORTED_COMMAND)
      case Some(j) =>
        match IsValidRequest(j)
        case Throws => n.(phase := Stuck)
        case Invalid => Refuse(env, n, UNSUPPORTED_COMMAND)
        case Valid =>
          var r := RequestOf(j);
          if r.command != TCP_CONNECT then Refuse(env, n, UNSUPPORTED_COMMAND)
          else if env.refused(r.endpoint.address) then Refuse(env, n, NOT_ALLOWED)
          else n.(phase := Connecting(r.endpoint))
  }

  predicate Handles(n: Net) {
    n.phase.AwaitEndpoint? || n.phase.Linked?
  }

  function OnPeerData(env: Env, n: Net, d: Data): Net
    requires Handles(n)
  {
    var n' := n.(fromPeer := n.fromPeer + [d]);
    if n.phase.AwaitEndpoint? then OnRequestData(env, n', d)
    else if d.Buffer? then n'.(written := n.written + [d.bytes], up := Received(n.up, |d.bytes|))
    else n'
  }

  function Forward(n: Net, b: seq<byte>): Net {
    n.(read := n.read + [b], toPeer := n.toPeer + [Buffer(b)], down := Received(n.down, |b|))
  }

  function ForwardAll(n: Net, bs: seq<seq<byte>>): Net {
    if bs == [] then n else Forward(ForwardAll(n, bs[..|bs| - 1]), bs[|bs| - 1])
  }

  /**
   The socket has connected. A remote address that is not allowed is reported as a failure, and the session
   is stopped once that has been sent, but linked all the same.
   */
  function OnConnectedTo(env: Env, n: Net, bound: Endpoint, allowed: bool, channelOpen: bool): Net {
    if !n.phase.Connecting? then n
    else ForwardAll(Link(env, n, bound, allowed, channelOpen), n.socketQueue)
  }

  function Link(env: Env, n: Net, bound: Endpoint, allowed: bool, channelOpen: bool): Net
    requires n.phase.Connecting?
  {
    ReplyToPeer(env, n, Response(if allowed then SUCCEEDED else FAILURE, Some(bound)))
      .(phase := Linked(n.phase.endpoint), stopping := n.stopping || (!allowed && channelOpen), socketQueue := [])
  }

  function OnConnectFailed(env: Env, n: Net, reply: nat): Net {
    if !n.phase.Connecting? then n else Refuse(env, n, reply)
  }

  function OnRemoteData(n: Net, b: seq<byte>): Net {
    var n' := n.(fromSocket := n.fromSocket + [b]);
    if n.phase.Linked? then Forward(n', b) else n'.(socketQueue := n.socketQueue + [b])
  }

  /** The connection failed; only these codes are reported for that. */
  predicate ConnectError(reply: nat) {
    reply in {1, 3, 5, 6}
  }

  class Session {
    const env: Env
    var phase: Phase
    var fromSocket: seq<seq<byte>>
    var dataFromSocketQueue: seq<seq<byte>>
    var read: seq<seq<byte>>
    var written: seq<seq<byte>>
    var toPeer: seq<Data>
    var fromPeer: seq<Data>
    var reply: Option<Response>
    var stopping: bool
    var socketSentBytes_: nat
    var socketReceivedBytes_: nat
    var channelSentBytes_: nat
    var channelReceivedBytes_: nat
    /**
     The sizes of the sends to the socket and the channel that have not settled, and the bytes of those that
     failed.
     */
    var toSocketPending: seq<nat>
    var toChannelPending: seq<nat>
    var toSocketFailed: nat
    var toChannelFailed: nat

    function View(): Net
      reads this
    {
      Net(phase, fromSocket, dataFromSocketQueue, read, written, toPeer, fromPeer, reply,
          Traffic(channelReceivedBytes_, socketSentBytes_, toSocketPending, toSocketFailed),
          Traffic(socketReceivedBytes_, channelSentBytes_, toChannelPending, toChannelFailed), stopping)
    }

    constructor (env: Env)
      ensures this.env == env && View() == FRESH_NET
    {
      this.env := env;
      phase := AwaitEndpoint;
      fromSocket, dataFromSocketQueue, read, written := [], [], [], [];
      toPeer, fromPeer, reply, stopping := [], [], None, false;
      socketSentBytes_, socketReceivedBytes_, channelSentBytes_, channelReceivedBytes_ := 0, 0, 0, 0;
      toSocketPending, toChannelPending, toSocketFailed, toChannelFailed := [], [], 0, 0;
    }

    method Reply(response: Response)
      modifies `toPeer, `reply
      ensures View() == ReplyToPeer(env, old(View()), response)
    {
      toPeer := toPeer + [Str(ReplyText(env, response))];
      reply := Some(response);
    }

    method Fail(code: nat)
      modifies this
      ensures View() == Refuse(env, old(View()), code)
    {
      Reply(Response(code, None));
      phase := Failed;
      stopping := true;
    }

    method ReceiveEndpoint(d: Data)
      modifies this
      ensures View() == OnRequestData(env, old(View()), d)
    {
      if !d.Str? || d.s == "" {
        Fail(UNSUPPORTED_COMMAND);
        return;
      }
      var parsed := env.json.parse(d.s);
      if parsed.None? {
        Fail(UNSUPPORTED_COMMAND);
        return;
      }
      var verdict := IsValidRequest(parsed.value);
      if verdict == Throws {
        phase := Stuck;
      } else if verdict == Invalid {
        Fail(UNSUPPORTED_COMMAND);
      } else {
        var request := RequestOf(parsed.value);
        if request.command != TCP_CONNECT {
          Fail(UNSUPPORTED_COMMAND);
        } else if env.refused(request.endpoint.address) {
          Fail(NOT_ALLOWED);
        } else {
          phase := Connecting(request.endpoint);
        }
      }
    }

    method HandlePeerData(d: Data)
      requires Handles(View())
      modifies this
      ensures View() == OnPeerData(env, old(View()), d)
    {
      fromPeer := fromPeer + [d];
      if phase.AwaitEndpoint? {
        ReceiveEndpoint(d);
      } else if d.Buffer? {
        channelReceivedBytes_ := channelReceivedBytes_ + |d.bytes|;
        toSocketPending := toSocketPending + [|d.bytes|];
        written := written + [d.bytes];
      }
    }

    method SendOnChannel(b: seq<byte>)
      modifies this
      ensures View() == Forward(old(View()), b)
    {
      socketReceivedBytes_ := socketReceivedBytes_ + |b|;
      toChannelPending := toChannelPending + [|b|];
      read := read + [b];
      toPeer := toPeer + [Buffer(b)];
    }

    method HandleConnected(bound: Endpoint, allowed: bool, channelOpen: bool)
      modifies this
      ensures View() == OnConnectedTo(env, old(View()), bound, allowed, channelOpen)
    {
      if phase.Connecting? {
        Reply(Response(if allowed then SUCCEEDED else FAILURE, Some(bound)));
        if !allowed && channelOpen {
          stopping := true;
        }
        var queue := dataFromSocketQueue;
        phase := Linked(phase.endpoint);
        dataFromSocketQueue := [];
        SendAllOnChannel(queue);
      }
    }

    method SendAllOnChannel(queue: seq<seq<byte>>)
      modifies this
      ensures View() == ForwardAll(old(View()), queue)
    {
      for i := 0 to |queue|
        invariant View() == ForwardAll(old(View()), queue[..i])
      {
        assert queue[..i + 1][..i] == queue[..i];
        SendOnChannel(queue[i]);
      }
      assert queue[..|queue|] == queue;
    }

    method HandleConnectFailed(code: nat)
      modifies this
      ensures View() == OnConnectFailed(env, old(View()), code)
    {
      if phase.Connecting? {
        Fail(code);
      }
    }

    method HandleRemoteData(b: seq<byte>)
      modifies this
      ensures View() == OnRemoteData(old(View()), b)
    {
      fromSocket := fromSocket + [b];
      if phase.Linked? {
        SendOnChannel(b);
      } else {
        dataFromSocketQueue := dataFromSocketQueue + [b];
      }
    }

    /** The i-th unsettled send to the socket settles. */
    method HandleSocketSendSettled(i: nat, ok: bool)
      modifies this
      ensures View() == old(View()).(up := SettledSend(old(View()).up, i, ok))
    {
      if i < |toSocketPending| {
        if ok {
          socketSentBytes_ := socketSentBytes_ + toSocketPending[i];
        } else {
          toSocketFailed := toSocketFailed + toSocketPending[i];
        }
        toSocketPending := toSocketPending[..i] + toSocketPending[i + 1..];
      }
    }

    method HandleChannelSendSettled(i: nat, ok: bool)
      modifies this
      ensures View() == old(View()).(down := SettledSend(old(View()).down, i, ok))
    {
      if i < |toChannelPending| {
        if ok {
          channelSentBytes_ := channelSentBytes_ + toChannelPending[i];
        } else {
          toChannelFailed := toChannelFailed + toChannelPending[i];
        }
        toChannelPending := toChannelPending[..i] + toChannelPending[i + 1..];
      }
    }
  }

  // ---------------------------------------------------------------- what a session keeps

  /** The message asks for a connection to the endpoint, and that is not refused. */
  predicate Requests(env: Env, d: Data, e: Endpoint) {
    && d.Str? && d.s != "" && env.json.parse(d.s).Some?
    && var j := env.json.parse(d.s).value;
       IsValidRequest(j) == Valid && RequestOf(j) == Request(TCP_CONNECT, e) && !env.refused(e.address)
  }

  /** The handler of a first message throws: null, where an object or its endpoint was expected. */
  predicate Sticks(env: Env, d: Data) {
    d.Str? && d.s != "" && env.json.parse(d.s).Some? && NullInRequest(env.json.parse(d.s).value)
  }

  /** What was passed to the channel: the reply if there was one, then the stream. */
  predicate Answered(env: Env, n: Net) {
    if n.reply.None? then n.toPeer == [] && n.read == []
    else n.toPeer == [Str(ReplyText(env, n.reply.value))] + Buffers(n.read)
  }

  /** What was forwarded from the socket is all that has arrived there. */
  predicate SocketOk(n: Net) {
    match n.phase
    case Linked(_) => n.fromSocket == n.read && n.socketQueue == []
    case _ => n.read == [] && n.fromSocket == n.socketQueue
  }

  predicate NetOk(env: Env, n: Net) {
    StreamOk(env, n) && SocketOk(n)
  }

  function Size(bs: seq<seq<byte>>): nat {
    if bs == [] then 0 else Size(bs[..|bs| - 1]) + |bs[|bs| - 1]|
  }

  lemma SizeMore(bs: seq<seq<byte>>, b: seq<byte>)
    ensures Size(bs + [b]) == Size(bs) + |b|
  {
    assert (bs + [b])[..|bs|] == bs;
  }

  /** Each direction's received bytes are those forwarded, and are all sent, pending or failed. */
  predicate Accounted(n: Net) {
    && Balanced(n.up) && n.up.received == Size(n.written)
    && Balanced(n.down) && n.down.received == Size(n.read)
  }

  predicate StreamOk(env: Env, n: Net) {
    && Accounted(n) && Answered(env, n)
    && match n.phase
       case AwaitEndpoint => n.reply.None? && n.written == [] && n.fromPeer == []
       case Connecting(e) => n.reply.None? && n.written == [] && |n.fromPeer| == 1 && Requests(env, n.fromPeer[0], e)
       case Linked(e) =>
         && n.reply.Some? && n.reply.value.reply in {SUCCEEDED, FAILURE} && n.reply.value.endpoint.Some?
         && n.fromPeer != [] && Requests(env, n.fromPeer[0], e)
         && n.written == BuffersIn(n.fromPeer[1..])
       case Failed =>
         n.stopping && n.reply.Some? && n.reply.value.reply != SUCCEEDED && n.read == n.written == []
       case Stuck => n.reply.None? && n.written == [] && |n.fromPeer| == 1 && Sticks(env, n.fromPeer[0])
  }

  lemma PeerDataKeeps(env: Env, n: Net, d: Data)
    requires NetOk(env, n) && Handles(n)
    ensures NetOk(env, OnPeerData(env, n, d))
  {
    if n.phase.Linked? {
      BuffersInMore(n.fromPeer[1..], d);
      assert (n.fromPeer + [d])[1..] == n.fromPeer[1..] + [d];
      if d.Buffer? {
        ReceivedBalances(n.up, |d.bytes|);
        SizeMore(n.written, d.bytes);
      }
    } else {
      assert [] + [d] == [d];
      RequestDataKeeps(env, n.(fromPeer := [d]), d);
    }
  }

  lemma RequestDataKeeps(env: Env, n: Net, d: Data)
    requires n.phase.AwaitEndpoint? && n.reply.None? && n.written == [] && n.fromPeer == [d]
    requires Accounted(n) && Answered(env, n) && SocketOk(n)
    ensures NetOk(env, OnRequestData(env, n, d))
  {
    RefuseKeeps(env, n, UNSUPPORTED_COMMAND);
    RefuseKeeps(env, n, NOT_ALLOWED);
  }

  lemma RefuseKeeps(env: Env, n: Net, reply: nat)
    requires n.reply.None? && n.written == [] && reply != SUCCEEDED
    requires Accounted(n) && Answered(env, n) && SocketOk(n) && !n.phase.Linked?
    ensures NetOk(env, Refuse(env, n, reply))
  {
    var first := [Str(ReplyText(env, Response(reply, None)))];
    assert [] + first == first == first + Buffers([]);
  }

  lemma ForwardKeeps(env: Env, n: Net, b: seq<byte>)
    requires StreamOk(env, n) && n.phase.Linked?
    ensures StreamOk(env, Forward(n, b))
  {
    BuffersOfConcat(n.read, [b]);
    var first := [Str(ReplyText(env, n.reply.value))];
    assert n.toPeer + [Buffer(b)] == first + Buffers(n.read + [b]);
    ReceivedBalances(n.down, |b|);
    SizeMore(n.read, b);
  }

  lemma {:induction false} ForwardAllKeeps(env: Env, n: Net, bs: seq<seq<byte>>)
    requires StreamOk(env, n) && n.phase.Linked?
    ensures var n' := ForwardAll(n, bs);
            && StreamOk(env, n') && n'.phase == n.phase && n'.read == n.read + bs
            && n'.fromSocket == n.fromSocket && n'.socketQueue == n.socketQueue
  {
    if bs != [] {
      ForwardAllKeeps(env, n, bs[..|bs| - 1]);
      ForwardKeeps(env, ForwardAll(n, bs[..|bs| - 1]), bs[|bs| - 1]);
      assert bs == bs[..|bs| - 1] + [bs[|bs| - 1]];
    }
  }

  lemma ConnectedToKeeps(env: Env, n: Net, bound: Endpoint, allowed: bool, channelOpen: bool)
    requires NetOk(env, n)
    ensures NetOk(env, OnConnectedTo(env, n, bound, allowed, channelOpen))
  {
    if n.phase.Connecting? {
      LinkKeeps(env, n, bound, allowed, channelOpen);
      ForwardAllKeeps(env, Link(env, n, bound, allowed, channelOpen), n.socketQueue);
    }
  }

  lemma LinkKeeps(env: Env, n: Net, bound: Endpoint, allowed: bool, channelOpen: bool)
    requires StreamOk(env, n) && n.read == [] && n.phase.Connecting?
    ensures StreamOk(env, Link(env, n, bound, allowed, channelOpen))
  {
    var first := [Str(ReplyText(env, Response(if allowed then SUCCEEDED else FAILURE, Some(bound))))];
    assert [] + first == first == first + Buffers([]);
    assert BuffersIn(n.fromPeer[1..]) == [];
  }

  /** A send of buffered data settles, in either direction. */
  lemma SendSettledKeeps(env: Env, n: Net, i: nat, ok: bool)
    requires NetOk(env, n)
    ensures NetOk(env, n.(up := SettledSend(n.up, i, ok))) && NetOk(env, n.(down := SettledSend(n.down, i, ok)))
  {
    SettledBalances(n.up, i, ok);
    SettledBalances(n.down, i, ok);
  }

  lemma ConnectFailedKeeps(env: Env, n: Net, reply: nat)
    requires NetOk(env, n) && ConnectError(reply)
    ensures NetOk(env, OnConnectFailed(env, n, reply))
  {
    if n.phase.Connecting? {
      RefuseKeeps(env, n, reply);
    }
  }

  lemma RemoteDataKeeps(env: Env, n: Net, b: seq<byte>)
    requires NetOk(env, n)
    ensures NetOk(env, OnRemoteData(n, b))
  {
    if n.phase.Linked? {
      ForwardKeeps(env, n, b);
    }
  }

  // ---------------------------------------------------------------- where the handshake goes wrong

  /** Exactly which first messages leave a session stuck: no reply, no connection, and not even a stop. */
  lemma StuckWhen(env: Env, n: Net, d: Data)
    requires n.phase.AwaitEndpoint?
    ensures var n' := OnPeerData(env, n, d);
            && (n'.phase.Stuck? <==> Sticks(env, d))
            && (Sticks(env, d) ==> n' == n.(fromPeer := n.fromPeer + [d], phase := Stuck))
  {
    if d.Str? && env.json.parse(d.s).Some? {
      RequestThrows(env.json.parse(d.s).value);
    }
  }

  /** The message `null` is one. */
  lemma NullSticks(env: Env, text: string)
    requires text != "" && env.json.parse(text) == Some(Null)
    ensures OnPeerData(env, FRESH_NET, Str(text)).phase.Stuck?
    ensures OnPeerData(env, FRESH_NET, Str(text)).toPeer == [] && !OnPeerData(env, FRESH_NET, Str(text)).stopping
  {
    StuckWhen(env, FRESH_NET, Str(text));
  }

  /** How a first message is answered at once: with 7, 2 or not at all; then the session connects, or is stuck. */
  lemma FirstReply(env: Env, n: Net, d: Data)
    requires n.phase.AwaitEndpoint? && n.reply.None?
    ensures var n' := OnPeerData(env, n, d);
            if exists e: Endpoint :: Requests(env, d, e)
            then n'.phase.Connecting? && n'.reply.None? && Requests(env, d, n'.phase.endpoint)
            else if Sticks(env, d) then n'.phase.Stuck? && n'.reply.None?
            else n'.phase.Failed? && n'.stopping
                 && n'.reply == Some(Response(if Refused(env, d) then 2 else 7, None))
                 && n'.toPeer == n.toPeer + [Str(ReplyText(env, n'.reply.value))]
  {
    if d.Str? && d.s != "" && env.json.parse(d.s).Some? {
      var j := env.json.parse(d.s).value;
      RequestThrows(j);
      if IsValidRequest(j) == Valid {
        var r := RequestOf(j);
        assert r.command == TCP_CONNECT && !env.refused(r.endpoint.address) ==> Requests(env, d, r.endpoint);
      }
    }
  }

  /** A CONNECT to an address that is refused outright. */
  predicate Refused(env: Env, d: Data) {
    && d.Str? && d.s != "" && env.json.parse(d.s).Some?
    && var j := env.json.parse(d.s).value;
       IsValidRequest(j) == Valid && RequestOf(j).command == TCP_CONNECT && env.refused(RequestOf(j).endpoint.address)
  }

  /** A connection that fails is reported with its code, and the session stops. */
  lemma ConnectFailureReported(env: Env, n: Net, code: nat)
    requires n.phase.Connecting?
    ensures var n' := OnConnectFailed(env, n, code);
            && n'.phase.Failed? && n'.stopping && n'.reply == Some(Response(code, None))
            && n'.toPeer == n.toPeer + [Str(env.json.print_(ResponseJson(Response(code, None))))]
  {
  }

  lemma {:induction false} ForwardAllLogs(n: Net, bs: seq<seq<byte>>)
    ensures var n' := ForwardAll(n, bs);
            && n'.toPeer == n.toPeer + Buffers(bs) && n'.phase == n.phase && n'.reply == n.reply
            && n'.stopping == n.stopping && n'.fromPeer == n.fromPeer && n'.written == n.written
  {
    if bs != [] {
      var m := |bs| - 1;
      ForwardAllLogs(n, bs[..m]);
      BuffersOfConcat(bs[..m], [bs[m]]);
      assert bs == bs[..m] + [bs[m]];
      assert Buffers([bs[m]]) == [Buffer(bs[m])];
    }
  }

  /**
   A connection is linked whether or not its remote address is allowed: FAILURE is the reply exactly when it is
   not, but what had arrived from there follows it on the channel, and further data passes in both directions.
   */
  lemma LinkedThoughNotAllowed(env: Env, n: Net, bound: Endpoint, allowed: bool, channelOpen: bool, b: seq<byte>)
    requires n.phase.Connecting?
    ensures var n' := OnConnectedTo(env, n, bound, allowed, channelOpen);
            && n'.phase == Linked(n.phase.endpoint)
            && n'.reply == Some(Response(if allowed then 0 else 1, Some(bound)))
            && n'.toPeer == n.toPeer + [Str(ReplyText(env, n'.reply.value))] + Buffers(n.socketQueue)
            && (n'.stopping <==> n.stopping || (!allowed && channelOpen))
            && OnRemoteData(n', b).toPeer == n'.toPeer + [Buffer(b)]
            && OnPeerData(env, n', Buffer(b)).written == n'.written + [b]
  {
    ForwardAllLogs(Link(env, n, bound, allowed, channelOpen), n.socketQueue);
  }

  /** And such a session arises from any valid CONNECT request for an endpoint that is not refused outright. */
  lemma ConnectsOn(env: Env, r: Request)
    requires JsonOk(env.json)
    ensures var n := OnPeerData(env, FRESH_NET, Str(env.json.print_(RequestJson(r))));
            n.phase.Connecting? <==>
            r.command == TCP_CONNECT && r.endpoint.port < 65536 && !env.refused(r.endpoint.address)
  {
    RequestIsValid(r);
  }
}
