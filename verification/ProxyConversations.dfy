/** That proxied connections get somewhere: a conversation that links a session, and streams that are complete. */
module ProxyConversations {
  import opened Basics
  import opened PoolChannels
  import P = PoolProtocol
  import opened PoolGuarantees
  import opened SocksHeaders
  import opened SocksMessages
  import opened ProxyMessages
  import opened ProxyStreams
  import S = SocksToRtc
  import N = RtcToNet

  // ---------------------------------------------------------------- one message at a time

  const OPEN_CHAN := Chan(Open, [], None, Settled, Pending)

  /** The first session of both ends is open, with nothing queued or under way. */
  predicate Idle(sys: P.Sys) {
    && sys.opener.chan == OPEN_CHAN && sys.opener.inbox == [] && sys.opener.past == []
    && sys.acceptor.chan == OPEN_CHAN && sys.acceptor.inbox == [] && sys.acceptor.past == []
  }

  function Sent(sys: P.Sys, side: P.Side, d: Data): P.Sys {
    P.Next(sys, P.AppSend(side, d))
  }

  function Arrived(sys: P.Sys, side: P.Side, d: Data): P.Sys {
    P.Next(Sent(sys, side, d), P.Deliver(P.Peer(side)))
  }

  /** A message is sent, arrives and is handled, and the channel is idle again. */
  lemma Passes(sys: P.Sys, side: P.Side, d: Data)
    requires Idle(sys)
    ensures Sent(sys, side, d).opener.past == [] == Sent(sys, side, d).acceptor.past
    ensures Sent(sys, side, d).Get(side).chan == OPEN_CHAN == Sent(sys, side, d).Get(P.Peer(side)).chan
    ensures Arrived(sys, side, d).opener.past == [] == Arrived(sys, side, d).acceptor.past
    ensures Arrived(sys, side, d).Get(P.Peer(side)).chan == OPEN_CHAN.(queue := [d])
    ensures Idle(P.Next(Arrived(sys, side, d), P.Handle(P.Peer(side))))
  {
    assert [] + [Frame(d)] == [Frame(d)] && [] + [d] == [d];
  }

  lemma ActsSilently(sys: P.Sys, side: P.Side, l: Log)
    ensures ActedOn(sys, side, l, l) == sys
  {
  }

  lemma ActsBySending(sys: P.Sys, side: P.Side, l: Log, d: Data)
    ensures ActedOn(sys, side, l, l.(toPeer := l.toPeer + [d])) == Sent(sys, side, d)
  {
    assert Rest(l.toPeer + [d], |l.toPeer|) == [d] && [d][1..] == [];
    assert SendAll(Sent(sys, side, d), side, []) == Sent(sys, side, d);
  }

  lemma ActsByTaking(sys: P.Sys, side: P.Side, l: Log, d: Data)
    ensures ActedOn(sys, side, l, l.(fromPeer := l.fromPeer + [d])) == P.Next(sys, P.Handle(side))
  {
    assert Rest(l.toPeer, |l.toPeer|) == [];
  }

  // ---------------------------------------------------------------- a conversation

  lemma RunMore(env: Env, es: seq<Event>, e: Event)
    ensures Run(env, es + [e]) == Step(env, Run(env, es), e)
  {
    assert (es + [e])[..|es|] == es;
  }

  lemma ArrivesStep(env: Env, w: World, sys: P.Sys, side: P.Side, d: Data)
    requires |w.socks| == 1 && |w.net| == 1 && Idle(sys) && w.sys == Sent(sys, side, d)
    ensures Step(env, w, Channel(P.Deliver(P.Peer(side)))) == w.(sys := Arrived(sys, side, d))
  {
    Passes(sys, side, d);
  }

  /** The client's greeting is accepted, and it is told so. */
  lemma GreetingStep(env: Env, w: World, hello: seq<byte>)
    requires Idle(w.sys) && w.socks == [S.FRESH_SOCKS] && w.net == [N.FRESH_NET]
    requires InterpretAuthHandshake(hello).Ok?
    ensures Step(env, w, AtSocks(ClientData(hello)))
         == w.(socks := [S.FRESH_SOCKS.(phase := S.AwaitRequest, fromSocket := [hello], toClient := [[5, 0]])])
  {
    ActsSilently(w.sys, P.Opener, Log([], []));
    assert [] + [hello] == [hello] && [] + [[5, 0]] == [[5, 0]];
  }

  /** Its request goes to the peer. */
  lemma RequestStep(env: Env, w: World, s: S.Socks, ask: seq<byte>, r: Request)
    requires Idle(w.sys) && w.socks == [s] && |w.net| == 1 && s.phase.AwaitRequest?
    requires InterpretRequest(env.lib, ask) == Ok(r)
    ensures var d := Str(env.json.print_(RequestJson(r)));
            Step(env, w, AtSocks(ClientData(ask)))
              == World(Sent(w.sys, P.Opener, d),
                       [s.(phase := S.AwaitReply, fromSocket := s.fromSocket + [ask],
                           toPeer := s.toPeer + [d], request := Some(r))], w.net)
  {
    ActsBySending(w.sys, P.Opener, SocksLog(s), Str(env.json.print_(RequestJson(r))));
  }

  /** rtc-to-net takes it and connects. */
  lemma ConnectStep(env: Env, w: World, r: Request)
    requires JsonOk(env.json) && |w.socks| == 1 && w.net == [N.FRESH_NET]
    requires w.sys.acceptor.chan == OPEN_CHAN.(queue := [Str(env.json.print_(RequestJson(r)))])
    requires r.command == 1 && r.endpoint.port < 65536 && !env.refused(r.endpoint.address)
    ensures var d := Str(env.json.print_(RequestJson(r)));
            Step(env, w, AtNet(PeerData))
              == World(P.Next(w.sys, P.Handle(P.Acceptor)), w.socks,
                       [N.FRESH_NET.(phase := N.Connecting(r.endpoint), fromPeer := [d])])
  {
    var d := Str(env.json.print_(RequestJson(r)));
    RequestIsValid(r);
    ActsByTaking(w.sys, P.Acceptor, Log([], []), d);
    assert [] + [d] == [d];
  }

  /** The connection is made, and reported. */
  lemma ConnectedStep(env: Env, w: World, n: N.Net, e: Endpoint, bound: Endpoint)
    requires Idle(w.sys) && |w.socks| == 1 && w.net == [n]
    requires n.phase == N.Connecting(e) && n.socketQueue == []
    ensures var d := Str(env.json.print_(ResponseJson(Response(0, Some(bound)))));
            Step(env, w, AtNet(Connected(bound, true)))
              == World(Sent(w.sys, P.Acceptor, d), w.socks,
                       [n.(phase := N.Linked(e), toPeer := n.toPeer + [d], reply := Some(Response(0, Some(bound))))])
  {
    ActsBySending(w.sys, P.Acceptor, NetLog(n), Str(env.json.print_(ResponseJson(Response(0, Some(bound))))));
  }

  /** The reply is taken and passed on to the client. */
  lemma ReplyStep(env: Env, w: World, s: S.Socks, r: Response)
    requires JsonOk(env.json) && |w.net| == 1 && w.socks == [s] && s.phase.AwaitReply?
    requires w.sys.opener.chan == OPEN_CHAN.(queue := [Str(env.json.print_(ResponseJson(r)))])
    requires CanBeRead(Some(r))
    ensures var d := Str(env.json.print_(ResponseJson(r)));
            Step(env, w, AtSocks(ReplyData))
              == World(P.Next(w.sys, P.Handle(P.Opener)),
                       [s.(phase := S.Replying(r.reply == 0), fromPeer := s.fromPeer + [d],
                           toClient := s.toClient + [ComposeResponse(env.lib, r)])], w.net)
  {
    ResponseIsValid(r);
    ActsByTaking(w.sys, P.Opener, SocksLog(s), Str(env.json.print_(ResponseJson(r))));
  }

  lemma WrittenStep(env: Env, w: World, s: S.Socks)
    requires Idle(w.sys) && |w.net| == 1 && w.socks == [s] && s.phase == S.Replying(true) && s.socketQueue == []
    ensures Step(env, w, AtSocks(ReplyWritten(true))) == w.(socks := [s.(phase := S.Linked, read := [])])
  {
    assert s.toPeer + Buffers([]) == s.toPeer;
    ActsSilently(w.sys, P.Opener, SocksLog(s));
  }

  lemma RunTwoMore(env: Env, es: seq<Event>, a: Event, b: Event)
    ensures Run(env, es + [a, b]) == Step(env, Step(env, Run(env, es), a), b)
  {
    RunMore(env, es, a);
    RunMore(env, es + [a], b);
    assert es + [a, b] == (es + [a]) + [b];
  }

  /** The pool opens the channel. */
  const OPENING: seq<Event> := [Channel(P.OpenChannel), Channel(P.Deliver(P.Acceptor))]

  /** The client greets and asks. */
  function Asking(hello: seq<byte>, ask: seq<byte>): seq<Event> {
    [AtSocks(ClientData(hello)), AtSocks(ClientData(ask))]
  }

  const REACHING: seq<Event> := [Channel(P.Deliver(P.Acceptor)), AtNet(PeerData)]

  /** The remote socket connects, and the report is under way. */
  function Connecting(bound: Endpoint): seq<Event> {
    [AtNet(Connected(bound, true)), Channel(P.Deliver(P.Opener))]
  }

  const ANSWERING: seq<Event> := [AtSocks(ReplyData), AtSocks(ReplyWritten(true))]

  lemma Opens(env: Env)
    ensures var w := Run(env, OPENING);
            Idle(w.sys) && w.socks == [S.FRESH_SOCKS] && w.net == [N.FRESH_NET]
  {
    RunTwoMore(env, [], OPENING[0], OPENING[1]);
    assert [] + OPENING == OPENING;
    OpensForPeer();
  }

  lemma Asks(env: Env, w: World, hello: seq<byte>, ask: seq<byte>, r: Request)
    requires Idle(w.sys) && w.socks == [S.FRESH_SOCKS] && w.net == [N.FRESH_NET]
    requires InterpretAuthHandshake(hello).Ok? && InterpretRequest(env.lib, ask) == Ok(r)
    ensures var d := Str(env.json.print_(RequestJson(r)));
            var w' := Step(env, Step(env, w, AtSocks(ClientData(hello))), AtSocks(ClientData(ask)));
            w' == World(Sent(w.sys, P.Opener, d), [Asked(hello, ask, r, d)], w.net)
  {
    GreetingStep(env, w, hello);
    var s := S.FRESH_SOCKS.(phase := S.AwaitRequest, fromSocket := [hello], toClient := [[5, 0]]);
    RequestStep(env, w.(socks := [s]), s, ask, r);
    assert [hello] + [ask] == [hello, ask];
  }

  /** socks-to-rtc's session once the request is on its way as the message d. */
  function Asked(hello: seq<byte>, ask: seq<byte>, r: Request, d: Data): S.Socks {
    S.FRESH_SOCKS.(phase := S.AwaitReply, fromSocket := [hello, ask], toClient := [[5, 0]], toPeer := [d],
                   request := Some(r))
  }

  lemma Reaches(env: Env, w: World, sys: P.Sys, r: Request)
    requires JsonOk(env.json) && Idle(sys) && |w.socks| == 1 && w.net == [N.FRESH_NET]
    requires w.sys == Sent(sys, P.Opener, Str(env.json.print_(RequestJson(r))))
    requires r.command == 1 && r.endpoint.port < 65536 && !env.refused(r.endpoint.address)
    ensures var d := Str(env.json.print_(RequestJson(r)));
            var w' := Step(env, Step(env, w, REACHING[0]), REACHING[1]);
            && Idle(w'.sys) && w'.socks == w.socks
            && w'.net == [N.FRESH_NET.(phase := N.Connecting(r.endpoint), fromPeer := [d])]
  {
    var d := Str(env.json.print_(RequestJson(r)));
    Passes(sys, P.Opener, d);
    ArrivesStep(env, w, sys, P.Opener, d);
    ConnectStep(env, w.(sys := Arrived(sys, P.Opener, d)), r);
  }

  lemma Reports(env: Env, w: World, n: N.Net, e: Endpoint, bound: Endpoint)
    requires Idle(w.sys) && |w.socks| == 1 && w.net == [n] && n.phase == N.Connecting(e) && n.socketQueue == []
    ensures var d := Str(env.json.print_(ResponseJson(Response(0, Some(bound)))));
            var w' := Step(env, Step(env, w, AtNet(Connected(bound, true))), Channel(P.Deliver(P.Opener)));
            && w'.sys == Arrived(w.sys, P.Acceptor, d) && w'.socks == w.socks && |w'.net| == 1
            && w'.net[0].phase == N.Linked(e) && w'.net[0].reply == Some(Response(0, Some(bound)))
  {
    var d := Str(env.json.print_(ResponseJson(Response(0, Some(bound)))));
    ConnectedStep(env, w, n, e, bound);
    ArrivesStep(env, Step(env, w, AtNet(Connected(bound, true))), w.sys, P.Acceptor, d);
  }

  lemma Answers(env: Env, w: World, sys: P.Sys, s: S.Socks, bound: Endpoint)
    requires JsonOk(env.json) && Idle(sys) && bound.port < 65536
    requires w.sys == Arrived(sys, P.Acceptor, Str(env.json.print_(ResponseJson(Response(0, Some(bound))))))
    requires w.socks == [s] && |w.net| == 1 && s.phase.AwaitReply? && s.socketQueue == []
    ensures var w' := Step(env, Step(env, w, ANSWERING[0]), ANSWERING[1]);
            && Idle(w'.sys) && w'.net == w.net && |w'.socks| == 1 && w'.socks[0].phase.Linked?
            && w'.socks[0].toClient == s.toClient + [ComposeResponse(env.lib, Response(0, Some(bound)))]
  {
    var r := Response(0, Some(bound));
    var d := Str(env.json.print_(ResponseJson(r)));
    Passes(sys, P.Acceptor, d);
    ReplyStep(env, w, s, r);
    var w1 := Step(env, w, ANSWERING[0]);
    WrittenStep(env, w1, w1.socks[0]);
  }

  /**
   Every client that offers no authentication and asks for a connection to an endpoint that is not refused can be
   served: with the pool opening the channel, messages arriving, and the connection made with the local endpoint
   `bound`, its session is linked at both ends, to the endpoint it asked for, and it has been told of `bound`.
   */
  lemma Conversation(env: Env, hello: seq<byte>, ask: seq<byte>, e: Endpoint, bound: Endpoint)
    requires JsonOk(env.json) && InterpretAuthHandshake(hello).Ok?
    requires InterpretRequest(env.lib, ask) == Ok(Request(1, e)) && !env.refused(e.address) && bound.port < 65536
    ensures var w := Run(env, OPENING + Asking(hello, ask) + REACHING + Connecting(bound) + ANSWERING);
            && Idle(w.sys) && |w.socks| == 1 && |w.net| == 1
            && w.socks[0].phase.Linked? && w.net[0].phase == N.Linked(e)
            && w.socks[0].toClient == [[5, 0], ComposeResponse(env.lib, Response(0, Some(bound)))]
  {
    var es := OPENING + Asking(hello, ask) + REACHING;
    Reached(env, hello, ask, e);
    Reports(env, Run(env, es), Run(env, es).net[0], e, bound);
    RunTwoMore(env, es, Connecting(bound)[0], Connecting(bound)[1]);
    Answers(env, Run(env, es + Connecting(bound)), Run(env, es).sys, Run(env, es).socks[0], bound);
    RunTwoMore(env, es + Connecting(bound), ANSWERING[0], ANSWERING[1]);
  }

  lemma Reached(env: Env, hello: seq<byte>, ask: seq<byte>, e: Endpoint)
    requires JsonOk(env.json) && InterpretAuthHandshake(hello).Ok?
    requires InterpretRequest(env.lib, ask) == Ok(Request(1, e)) && !env.refused(e.address)
    ensures var w := Run(env, OPENING + Asking(hello, ask) + REACHING);
            && Idle(w.sys) && |w.socks| == 1 && |w.net| == 1
            && w.socks[0].phase.AwaitReply? && w.socks[0].socketQueue == [] && w.socks[0].toClient == [[5, 0]]
            && w.net[0].phase == N.Connecting(e) && w.net[0].socketQueue == []
  {
    var asked := OPENING + Asking(hello, ask);
    PortInRange(env, ask, Request(1, e));
    Opens(env);
    Asks(env, Run(env, OPENING), hello, ask, Request(1, e));
    RunTwoMore(env, OPENING, Asking(hello, ask)[0], Asking(hello, ask)[1]);
    Reaches(env, Run(env, asked), Run(env, OPENING).sys, Request(1, e));
    RunTwoMore(env, asked, REACHING[0], REACHING[1]);
  }

  lemma PortInRange(env: Env, ask: seq<byte>, r: Request)
    requires InterpretRequest(env.lib, ask) == Ok(r)
    ensures r.endpoint.port < 65536
  {
    RequestIsValid(r);
  }

  // ---------------------------------------------------------------- streams that are complete

  /**
   Whenever both ends of the channel are open and there is nothing to deliver, to handle or to acknowledge: if the
   session is linked at both ends, all that the client has sent after its handshake has been written to the remote
   socket, and all that has come from there to the client.
   */
  lemma QuietStreamsComplete(env: Env, es: seq<Event>)
    requires var w := Run(env, es);
             && w.sys.opener.chan.state.Open? && w.sys.acceptor.chan.state.Open?
             && (forall a :: Internal(a) ==> !Enabled(w.sys, a))
             && Last(w.socks).phase.Linked? && Last(w.net).phase.Linked?
    ensures var w := Run(env, es);
            && |w.socks| == |w.net|
            && Last(w.net).written == Stream(Last(w.socks))
            && Last(w.socks).written == Last(w.net).fromSocket
  {
    RunOk(env, es);
    var w := Run(env, es);
    AllTaken(w.sys, SocksLogs(w.socks), NetLogs(w.net));
    BothComplete(env, Last(w.socks), Last(w.net));
  }

  lemma AllTaken(sys: P.Sys, ls: seq<Log>, ms: seq<Log>)
    requires BothMatch(sys, ls, ms) && sys.opener.chan.state.Open? && sys.acceptor.chan.state.Open?
    requires forall a :: Internal(a) ==> !Enabled(sys, a)
    ensures |ls| == |ms|
    ensures Last(ls).fromPeer == Last(ms).toPeer && Last(ms).fromPeer == Last(ls).toPeer
  {
    ReachableInv(sys);
    QuiescentAgrees(sys);
  }

  lemma BothComplete(env: Env, s: S.Socks, n: N.Net)
    requires S.SocksOk(env, s) && N.NetOk(env, n) && s.phase.Linked? && n.phase.Linked?
    requires s.fromPeer == n.toPeer && n.fromPeer == s.toPeer
    ensures n.written == Stream(s) && s.written == n.fromSocket
  {
    AllWrittenUp(env, s, n);
    AllWrittenDown(env, s, n);
  }

  // ---------------------------------------------------------------- failures

  /** Its end of the channel has been closed by its owner: a CLOSE goes out, and the end waits for the answer. */
  predicate ClosedBy(x: P.End, x': P.End) {
    && x'.chan.state.Closing? && x'.cur.initiated && x'.cur.closes == x.cur.closes + 1
    && x'.past == x.past && x'.cur.handled == x.cur.handled
  }

  /** A session that has failed, at either end, gives back its channel when resources are freed. */
  lemma FailedGivesBack(env: Env, es: seq<Event>)
    ensures var w := Run(env, es);
            && (Last(w.socks).phase.Failed? && w.sys.opener.chan.state.Open? ==>
                  ClosedBy(w.sys.opener, Step(env, w, FreeSocks).sys.opener))
            && (Last(w.net).phase.Failed? && w.sys.acceptor.chan.state.Open? ==>
                  ClosedBy(w.sys.acceptor, Step(env, w, FreeNet).sys.acceptor))
  {
    RunOk(env, es);
    SocksGivesBack(env, Run(env, es));
    NetGivesBack(env, Run(env, es));
  }

  lemma SocksGivesBack(env: Env, w: World)
    requires w.socks != [] && w.net != [] && S.SocksOk(env, Last(w.socks))
    ensures Last(w.socks).phase.Failed? && w.sys.opener.chan.state.Open? ==>
              ClosedBy(w.sys.opener, Step(env, w, FreeSocks).sys.opener)
  {
  }

  lemma NetGivesBack(env: Env, w: World)
    requires w.socks != [] && w.net != [] && N.NetOk(env, Last(w.net))
    ensures Last(w.net).phase.Failed? && w.sys.acceptor.chan.state.Open? ==>
              ClosedBy(w.sys.acceptor, Step(env, w, FreeNet).sys.acceptor)
  {
  }

  /** And so does one that is asked to stop. */
  lemma StoppedGivesBack(env: Env, w: World)
    requires w.socks != [] && w.net != []
    ensures w.sys.opener.chan.state.Open? ==>
              ClosedBy(w.sys.opener, Step(env, Step(env, w, AtSocks(StopSocks)), FreeSocks).sys.opener)
    ensures w.sys.acceptor.chan.state.Open? ==>
              ClosedBy(w.sys.acceptor, Step(env, Step(env, w, AtNet(StopNet)), FreeNet).sys.acceptor)
  {
    ActsSilently(w.sys, P.Opener, SocksLog(Last(w.socks)));
    ActsSilently(w.sys, P.Acceptor, NetLog(Last(w.net)));
  }
}
