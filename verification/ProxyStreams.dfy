/**
 Proxied connections end to end: any number of SOCKS sessions, one after the other, between a
 socks-to-rtc Session at the opener and an rtc-to-net Session at the acceptor of one PoolChannel.

 Session k of an end acts on the channel only while that is in its k-th session there, as the proxies
 intend. Sockets, timers and the network are events, which may come in any order.
 */
module ProxyStreams {
  import opened Basics
  import opened PoolChannels
  import opened PoolProtocol
  import opened PoolGuarantees
  import opened SocksHeaders
  import opened SocksMessages
  import opened ProxyMessages
  import S = SocksToRtc
  import N = RtcToNet

  datatype World = World(sys: Sys, socks: seq<S.Socks>, net: seq<N.Net>)

  const START := World(INITIAL, [S.FRESH_SOCKS], [N.FRESH_NET])

  datatype SocksEvent =
    | ClientData(bytes: seq<byte>)
    | ReplyWritten(ok: bool)
    | ReplyData
    | StopSocks

  datatype NetEvent =
    | PeerData
    | Connected(bound: Endpoint, allowed: bool)
    | ConnectFailed(reply: nat)
    | RemoteData(bytes: seq<byte>)
    | SocketSendSettled(i: nat, ok: bool)
    | ChannelSendSettled(i: nat, ok: bool)
    | StopNet

  datatype Event =
    | Channel(action: Action)
    | AtSocks(s: SocksEvent)
    | AtNet(n: NetEvent)
    | FreeSocks
    | FreeNet

  /** What the channel does by itself, or because the proxies open it. */
  predicate OfChannel(a: Action) {
    a.OpenChannel? || a.Deliver? || a.SendAck? || a.UnderlyingClose? || a.LoseTail?
  }

  /** The channel's send(), for each message; those sent while it is not open are rejected. */
  function SendAll(sys: Sys, side: Side, ds: seq<Data>): Sys
    decreases |ds|
  {
    if ds == [] then sys else SendAll(Next(sys, AppSend(side, ds[0])), side, ds[1..])
  }

  function WithLast<T>(ts: seq<T>, t: T): seq<T>
    requires ts != []
  {
    ts[..|ts| - 1] + [t]
  }

  function OnSocks(env: Env, s: S.Socks, e: SocksEvent, chan: Chan): S.Socks {
    match e
    case ClientData(b) => S.OnClientData(env, s, b, chan.state.Open?)
    case ReplyWritten(ok) => S.OnReplyWritten(s, ok)
    case ReplyData => if S.Handles(s) && chan.queue != [] then S.OnReplyData(env, s, chan.queue[0]) else s
    case StopSocks => s.(stopping := true)
  }

  function OnNet(env: Env, n: N.Net, e: NetEvent, chan: Chan): N.Net {
    match e
    case PeerData => if N.Handles(n) && chan.queue != [] then N.OnPeerData(env, n, chan.queue[0]) else n
    case Connected(bound, allowed) => N.OnConnectedTo(env, n, bound, allowed, chan.state.Open?)
    case ConnectFailed(reply) => if N.ConnectError(reply) then N.OnConnectFailed(env, n, reply) else n
    case RemoteData(b) => N.OnRemoteData(n, b)
    case SocketSendSettled(i, ok) => n.(up := N.SettledSend(n.up, i, ok))
    case ChannelSendSettled(i, ok) => n.(down := N.SettledSend(n.down, i, ok))
    case StopNet => n.(stopping := true)
  }

  /** What a session passed to the channel, and took from it. */
  datatype Log = Log(toPeer: seq<Data>, fromPeer: seq<Data>)

  function SocksLog(s: S.Socks): Log { Log(s.toPeer, s.fromPeer) }

  function NetLog(n: N.Net): Log { Log(n.toPeer, n.fromPeer) }

  function SocksLogs(ss: seq<S.Socks>): seq<Log> {
    seq(|ss|, i requires 0 <= i < |ss| => SocksLog(ss[i]))
  }

  function NetLogs(ns: seq<N.Net>): seq<Log> {
    seq(|ns|, i requires 0 <= i < |ns| => NetLog(ns[i]))
  }

  function Rest<T>(ts: seq<T>, n: nat): seq<T> {
    if n <= |ts| then ts[n..] else []
  }

  /** The channels, after a session whose log was l and is now l' has handled a message or sent some. */
  function ActedOn(sys: Sys, side: Side, l: Log, l': Log): Sys {
    SendAll(if |l'.fromPeer| > |l.fromPeer| then Next(sys, Handle(side)) else sys, side, Rest(l'.toPeer, |l.toPeer|))
  }

  function Renew<T>(ts: seq<T>, n: nat, fresh_: T): seq<T> {
    if n > |ts| then ts + [fresh_] else ts
  }

  function SocksStep(env: Env, w: World, e: SocksEvent): World
    requires w.socks != []
  {
    var chan := w.sys.opener.chan;
    if chan.state.Closed? then w
    else
      var s := Last(w.socks);
      var s' := OnSocks(env, s, e, chan);
      World(ActedOn(w.sys, Opener, SocksLog(s), SocksLog(s')), WithLast(w.socks, s'), w.net)
  }

  function NetStep(env: Env, w: World, e: NetEvent): World
    requires w.net != []
  {
    var chan := w.sys.acceptor.chan;
    if chan.state.Closed? then w
    else
      var n := Last(w.net);
      var n' := OnNet(env, n, e, chan);
      World(ActedOn(w.sys, Acceptor, NetLog(n), NetLog(n')), w.socks, WithLast(w.net, n'))
  }

  function Step(env: Env, w: World, e: Event): World
    requires w.socks != [] && w.net != []
  {
    match e
    case Channel(a) =>
      if !OfChannel(a) then w
      else
        var sys := Next(w.sys, a);
        World(sys, Renew(w.socks, sys.opener.Epoch() + 1, S.FRESH_SOCKS),
              Renew(w.net, sys.acceptor.Epoch() + 1, N.FRESH_NET))
    case AtSocks(e) => SocksStep(env, w, e)
    case AtNet(e) => NetStep(env, w, e)
    case FreeSocks => if Last(w.socks).stopping then w.(sys := Next(w.sys, AppClose(Opener))) else w
    case FreeNet => if Last(w.net).stopping then w.(sys := Next(w.sys, AppClose(Acceptor))) else w
  }

  // ---------------------------------------------------------------- sessions and the channel's logs

  /** A finished session of the channel, and the proxy's session in it. */
  predicate PastMatches(p: Session, l: Log) {
    p.sent <= l.toPeer && p.handled == l.fromPeer
  }

  /** The session in progress: while the channel is open it has accepted all that was passed to it. */
  predicate CurMatches(x: End, l: Log) {
    && x.cur.sent <= l.toPeer && x.cur.handled == l.fromPeer
    && (x.chan.state.Open? ==> x.cur.sent == l.toPeer)
    && (x.chan.state.Closed? ==> l == Log([], []))
  }

  predicate Matches(x: End, ls: seq<Log>) {
    && |ls| == |x.past| + 1
    && (forall k :: 0 <= k < |x.past| ==> PastMatches(x.past[k], ls[k]))
    && CurMatches(x, Last(ls))
  }

  ghost predicate WorldOk(env: Env, w: World) {
    BothMatch(w.sys, SocksLogs(w.socks), NetLogs(w.net)) && SessionsOk(env, w.socks, w.net)
  }

  /** The same end of the channel, apart from messages on their way to it. */
  predicate SameButInbox(x: End, x': End) {
    x' == x.(inbox := x'.inbox)
  }

  /** Within the session, nothing sent or handled; or the session is over and a new one awaits its OPEN. */
  predicate Moves(x: End, x': End) {
    if x'.past == x.past then
      && x'.cur.sent == x.cur.sent && x'.cur.handled == x.cur.handled
      && (x'.chan.state.Open? ==> x.chan.state.Open? || x.chan.state.Closed?)
      && (x'.chan.state.Closed? ==> x.chan.state.Closed?)
    else
      && |x'.past| == |x.past| + 1 && x'.past[..|x.past|] == x.past
      && x'.past[|x.past|].sent == x.cur.sent && x'.past[|x.past|].handled == x.cur.handled
      && x'.cur == NEW_SESSION
  }

  /** Receiving a datum, the OPEN, or a CLOSE that must be answered. */
  lemma ReceiptMoves(side: Side, x: End, y: End)
    requires EndOk(side, x) && x.Up() && x.inbox != []
    requires x.inbox[0] == CLOSE ==> x.chan.state.Open?
    ensures Moves(x, PoolProtocol.Step(x, y, Deliver(side)).0)
  {
  }

  lemma DeliverMoves(side: Side, x: End, y: End)
    requires Good(side, x, y)
    ensures Moves(x, PoolProtocol.Step(x, y, Deliver(side)).0)
  {
    if x.inbox != [] && x.Up() {
      HeadOfInbox(Peer(side), y, x);
      if x.inbox[0] == CLOSE && x.chan.state.Closing? {
        DeliverLastCloseEffect(side, x);
      } else {
        ReceiptMoves(side, x, y);
      }
    }
  }

  lemma AckMoves(side: Side, x: End, y: End)
    requires Good(side, x, y)
    ensures var (x', y') := PoolProtocol.Step(x, y, SendAck(side)); SameButInbox(y, y') && Moves(x, x')
  {
  }

  /** What the channel's own steps do to the logs of the end that takes them. */
  lemma ChannelEffect(side: Side, x: End, y: End, a: Action)
    requires Good(side, x, y) && OfChannel(a) && Actor(a) == side
    ensures var (x', y') := PoolProtocol.Step(x, y, a); SameButInbox(y, y') && Moves(x, x')
  {
    match a
    case OpenChannel =>
    case Deliver(_) => DeliverMoves(side, x, y);
    case SendAck(_) => AckMoves(side, x, y);
    case UnderlyingClose(_) =>
    case LoseTail(_, _) =>
  }

  lemma InboxMatches(x: End, x': End, ls: seq<Log>)
    requires Matches(x, ls) && SameButInbox(x, x')
    ensures Matches(x', ls)
  {
  }

  lemma MovedMatches(x: End, x': End, ls: seq<Log>)
    requires Matches(x, ls) && Moves(x, x')
    ensures Matches(x', Renew(ls, x'.Epoch() + 1, Log([], [])))
  {
    if x'.past != x.past {
      forall k | 0 <= k < |x'.past|
        ensures PastMatches(x'.past[k], ls[k])
      {
        if k < |x.past| {
          assert x'.past[k] == x'.past[..|x.past|][k] == x.past[k];
        }
      }
    }
  }

  lemma ActedMatches(x: End, x': End, ls: seq<Log>, l: Log)
    requires Matches(x, ls) && x'.past == x.past && CurMatches(x', l)
    ensures Matches(x', WithLast(ls, l))
  {
  }

  lemma LogsRenew(ss: seq<S.Socks>, ns: seq<N.Net>, i: nat, j: nat)
    ensures SocksLogs(Renew(ss, i, S.FRESH_SOCKS)) == Renew(SocksLogs(ss), i, Log([], []))
    ensures NetLogs(Renew(ns, j, N.FRESH_NET)) == Renew(NetLogs(ns), j, Log([], []))
  {
  }

  lemma ReachableStep(sys: Sys, a: Action)
    requires Reachable(sys)
    ensures Reachable(Next(sys, a)) && Inv(sys)
  {
    ReachableNext(sys, a, Next(sys, a));
    ReachableInv(sys);
  }

  /** The two ends match the logs of their sessions. */
  ghost predicate BothMatch(sys: Sys, ls: seq<Log>, ms: seq<Log>) {
    Reachable(sys) && Matches(sys.opener, ls) && Matches(sys.acceptor, ms)
  }

  lemma ChannelMatches(sys: Sys, a: Action, ls: seq<Log>, ms: seq<Log>)
    requires BothMatch(sys, ls, ms) && OfChannel(a)
    ensures var sys' := Next(sys, a);
            BothMatch(sys', Renew(ls, sys'.opener.Epoch() + 1, Log([], [])),
                      Renew(ms, sys'.acceptor.Epoch() + 1, Log([], [])))
  {
    ReachableStep(sys, a);
    var side := Actor(a);
    var x, y := sys.Get(side), sys.Get(Peer(side));
    assert Good(side, x, y);
    ChannelEffect(side, x, y, a);
    var (x', y') := PoolProtocol.Step(x, y, a);
    if side == Opener {
      MovedMatches(x, x', ls);
      InboxMatches(y, y', ms);
    } else {
      MovedMatches(x, x', ms);
      InboxMatches(y, y', ls);
    }
  }

  lemma ChannelKeeps(env: Env, w: World, a: Action)
    requires WorldOk(env, w) && OfChannel(a)
    ensures WorldOk(env, Step(env, w, Channel(a)))
  {
    ChannelMatches(w.sys, a, SocksLogs(w.socks), NetLogs(w.net));
    var sys := Next(w.sys, a);
    LogsRenew(w.socks, w.net, sys.opener.Epoch() + 1, sys.acceptor.Epoch() + 1);
    SessionsRenewed(env, w, sys.opener.Epoch() + 1, sys.acceptor.Epoch() + 1);
  }

  predicate SessionsOk(env: Env, ss: seq<S.Socks>, ns: seq<N.Net>) {
    && (forall k :: 0 <= k < |ss| ==> S.SocksOk(env, ss[k]))
    && (forall k :: 0 <= k < |ns| ==> N.NetOk(env, ns[k]))
  }

  lemma SessionsRenewed(env: Env, w: World, i: nat, j: nat)
    requires SessionsOk(env, w.socks, w.net)
    ensures SessionsOk(env, Renew(w.socks, i, S.FRESH_SOCKS), Renew(w.net, j, N.FRESH_NET))
  {
  }

  lemma SendEffect(sys: Sys, side: Side, d: Data)
    ensures var sys' := Next(sys, AppSend(side, d));
            var x, x' := sys.Get(side), sys'.Get(side);
            && SameButInbox(sys.Get(Peer(side)), sys'.Get(Peer(side)))
            && x' == (if x.chan.state.Open? then x.(cur := x.cur.(sent := x.cur.sent + [d])) else x)
  {
  }

  /** Sends that the channel accepts are added to its log, and the others leave no trace. */
  lemma {:induction false} SendAllEffect(sys: Sys, side: Side, ds: seq<Data>)
    requires Reachable(sys)
    ensures var sys' := SendAll(sys, side, ds);
            var x, x' := sys.Get(side), sys'.Get(side);
            && Reachable(sys') && SameButInbox(sys.Get(Peer(side)), sys'.Get(Peer(side)))
            && x' == (if x.chan.state.Open? then x.(cur := x.cur.(sent := x.cur.sent + ds)) else x)
    decreases |ds|
  {
    if ds == [] {
      assert sys.Get(side).cur.sent + ds == sys.Get(side).cur.sent;
    } else {
      var sys' := Next(sys, AppSend(side, ds[0]));
      ReachableNext(sys, AppSend(side, ds[0]), sys');
      SendEffect(sys, side, ds[0]);
      SendAllEffect(sys', side, ds[1..]);
      assert (sys.Get(side).cur.sent + [ds[0]]) + ds[1..] == sys.Get(side).cur.sent + ds;
    }
  }

  lemma ActedEffect(sys: Sys, side: Side, l: Log, l': Log)
    requires Reachable(sys) && !sys.Get(side).chan.state.Closed?
    requires CurMatches(sys.Get(side), l) && Follows(l, l', sys.Get(side).chan)
    ensures var sys' := ActedOn(sys, side, l, l');
            var x, x' := sys.Get(side), sys'.Get(side);
            && Reachable(sys') && SameButInbox(sys.Get(Peer(side)), sys'.Get(Peer(side)))
            && x'.past == x.past && CurMatches(x', l')
  {
    var took := |l'.fromPeer| > |l.fromPeer|;
    var outs := Rest(l'.toPeer, |l.toPeer|);
    assert l.toPeer + outs == l'.toPeer;
    var sys1 := if took then Next(sys, Handle(side)) else sys;
    if took {
      ReachableStep(sys, Handle(side));
    }
    SendAllEffect(sys1, side, outs);
  }

  /** A session takes at most the head of the queue, and only adds to what it sends. */
  predicate Follows(l: Log, l': Log, chan: Chan) {
    && l.toPeer <= l'.toPeer
    && if |l'.fromPeer| > |l.fromPeer| then chan.queue != [] && l'.fromPeer == l.fromPeer + [chan.queue[0]]
       else l'.fromPeer == l.fromPeer
  }

  lemma SocksKeeps(env: Env, s: S.Socks, e: SocksEvent, chan: Chan)
    requires S.SocksOk(env, s)
    ensures S.SocksOk(env, OnSocks(env, s, e, chan))
  {
    match e
    case ClientData(b) => S.ClientDataKeeps(env, s, b, chan.state.Open?);
    case ReplyWritten(ok) => S.ReplyWrittenKeeps(env, s, ok);
    case ReplyData =>
      if S.Handles(s) && chan.queue != [] {
        S.ReplyDataKeeps(env, s, chan.queue[0]);
      }
    case StopSocks =>
  }

  lemma SocksActs(env: Env, s: S.Socks, e: SocksEvent, chan: Chan)
    ensures var s' := OnSocks(env, s, e, chan);
            Follows(SocksLog(s), SocksLog(s'), chan)
  {
  }

  lemma {:induction false} ForwardAllActs(n: N.Net, bs: seq<seq<byte>>)
    ensures n.toPeer <= N.ForwardAll(n, bs).toPeer && N.ForwardAll(n, bs).fromPeer == n.fromPeer
  {
    if bs != [] {
      ForwardAllActs(n, bs[..|bs| - 1]);
    }
  }

  lemma NetKeeps(env: Env, n: N.Net, e: NetEvent, chan: Chan)
    requires N.NetOk(env, n)
    ensures N.NetOk(env, OnNet(env, n, e, chan))
  {
    match e
    case PeerData =>
      if N.Handles(n) && chan.queue != [] {
        N.PeerDataKeeps(env, n, chan.queue[0]);
      }
    case Connected(bound, allowed) => N.ConnectedToKeeps(env, n, bound, allowed, chan.state.Open?);
    case ConnectFailed(reply) =>
      if N.ConnectError(reply) {
        N.ConnectFailedKeeps(env, n, reply);
      }
    case RemoteData(b) => N.RemoteDataKeeps(env, n, b);
    case SocketSendSettled(i, ok) => N.SendSettledKeeps(env, n, i, ok);
    case ChannelSendSettled(i, ok) => N.SendSettledKeeps(env, n, i, ok);
    case StopNet =>
  }

  lemma NetActs(env: Env, n: N.Net, e: NetEvent, chan: Chan)
    ensures var n' := OnNet(env, n, e, chan);
            Follows(NetLog(n), NetLog(n'), chan)
  {
    match e
    case Connected(bound, allowed) =>
      if n.phase.Connecting? {
        ForwardAllActs(N.Link(env, n, bound, allowed, chan.state.Open?), n.socketQueue);
      }
    case _ =>
  }

  lemma OpenerActs(sys: Sys, ls: seq<Log>, ms: seq<Log>, l': Log)
    requires BothMatch(sys, ls, ms) && !sys.opener.chan.state.Closed?
    requires Follows(Last(ls), l', sys.opener.chan)
    ensures BothMatch(ActedOn(sys, Opener, Last(ls), l'), WithLast(ls, l'), ms)
  {
    var sys' := ActedOn(sys, Opener, Last(ls), l');
    ActedEffect(sys, Opener, Last(ls), l');
    ActedMatches(sys.opener, sys'.opener, ls, l');
    InboxMatches(sys.acceptor, sys'.acceptor, ms);
  }

  lemma AcceptorActs(sys: Sys, ls: seq<Log>, ms: seq<Log>, l': Log)
    requires BothMatch(sys, ls, ms) && !sys.acceptor.chan.state.Closed?
    requires Follows(Last(ms), l', sys.acceptor.chan)
    ensures BothMatch(ActedOn(sys, Acceptor, Last(ms), l'), ls, WithLast(ms, l'))
  {
    var sys' := ActedOn(sys, Acceptor, Last(ms), l');
    ActedEffect(sys, Acceptor, Last(ms), l');
    ActedMatches(sys.acceptor, sys'.acceptor, ms, l');
    InboxMatches(sys.opener, sys'.opener, ls);
  }

  lemma LogsUpdated(ss: seq<S.Socks>, s': S.Socks, ns: seq<N.Net>, n': N.Net)
    requires ss != [] && ns != []
    ensures SocksLogs(WithLast(ss, s')) == WithLast(SocksLogs(ss), SocksLog(s'))
    ensures Last(SocksLogs(ss)) == SocksLog(Last(ss))
    ensures NetLogs(WithLast(ns, n')) == WithLast(NetLogs(ns), NetLog(n')) && Last(NetLogs(ns)) == NetLog(Last(ns))
  {
  }

  lemma SocksUpdated(env: Env, ss: seq<S.Socks>, s': S.Socks, ns: seq<N.Net>)
    requires SessionsOk(env, ss, ns) && ss != [] && S.SocksOk(env, s')
    ensures SessionsOk(env, WithLast(ss, s'), ns)
  {
  }

  lemma NetUpdated(env: Env, ss: seq<S.Socks>, ns: seq<N.Net>, n': N.Net)
    requires SessionsOk(env, ss, ns) && ns != [] && N.NetOk(env, n')
    ensures SessionsOk(env, ss, WithLast(ns, n'))
  {
  }

  lemma SocksStepKeeps(env: Env, w: World, e: SocksEvent)
    requires WorldOk(env, w)
    ensures WorldOk(env, SocksStep(env, w, e))
  {
    var chan := w.sys.opener.chan;
    if !chan.state.Closed? {
      var s := Last(w.socks);
      var s' := OnSocks(env, s, e, chan);
      SocksKeeps(env, s, e, chan);
      SocksActs(env, s, e, chan);
      LogsUpdated(w.socks, s', w.net, Last(w.net));
      OpenerActs(w.sys, SocksLogs(w.socks), NetLogs(w.net), SocksLog(s'));
      SocksUpdated(env, w.socks, s', w.net);
    }
  }

  lemma NetStepKeeps(env: Env, w: World, e: NetEvent)
    requires WorldOk(env, w)
    ensures WorldOk(env, NetStep(env, w, e))
  {
    var chan := w.sys.acceptor.chan;
    if !chan.state.Closed? {
      var n := Last(w.net);
      var n' := OnNet(env, n, e, chan);
      NetKeeps(env, n, e, chan);
      NetActs(env, n, e, chan);
      LogsUpdated(w.socks, Last(w.socks), w.net, n');
      AcceptorActs(w.sys, SocksLogs(w.socks), NetLogs(w.net), NetLog(n'));
      NetUpdated(env, w.socks, w.net, n');
    }
  }

  lemma StepKeeps(env: Env, w: World, e: Event)
    requires WorldOk(env, w)
    ensures WorldOk(env, Step(env, w, e))
  {
    match e
    case Channel(a) => if OfChannel(a) { ChannelKeeps(env, w, a); }
    case AtSocks(e) => SocksStepKeeps(env, w, e);
    case AtNet(e) => NetStepKeeps(env, w, e);
    case FreeSocks => ClosedMatches(w.sys, Opener, SocksLogs(w.socks), NetLogs(w.net));
    case FreeNet => ClosedMatches(w.sys, Acceptor, SocksLogs(w.socks), NetLogs(w.net));
  }

  lemma ClosedMatches(sys: Sys, side: Side, ls: seq<Log>, ms: seq<Log>)
    requires BothMatch(sys, ls, ms)
    ensures BothMatch(Next(sys, AppClose(side)), ls, ms)
  {
    ReachableStep(sys, AppClose(side));
  }

  /** The world after the given events, with the assurance that a step needs. */
  function Run(env: Env, es: seq<Event>): (w: World)
    ensures w.socks != [] && w.net != []
  {
    if es == [] then START else Step(env, Run(env, es[..|es| - 1]), es[|es| - 1])
  }

  lemma {:induction false} RunOk(env: Env, es: seq<Event>)
    ensures WorldOk(env, Run(env, es))
  {
    if es == [] {
      assert PoolProtocol.Run(INITIAL, []) == INITIAL;
    } else {
      RunOk(env, es[..|es| - 1]);
      StepKeeps(env, Run(env, es[..|es| - 1]), es[|es| - 1]);
    }
  }

  // ---------------------------------------------------------------- streams

  lemma {:induction false} BuffersInBuffers(bs: seq<seq<byte>>)
    ensures BuffersIn(Buffers(bs)) == bs
  {
    if bs != [] {
      var n := |bs| - 1;
      assert Buffers(bs)[..n] == Buffers(bs[..n]);
      BuffersInBuffers(bs[..n]);
      assert bs == bs[..n] + [bs[n]];
    }
  }

  /** What was taken from the beginning of a first message and a stream of buffers. */
  lemma StreamPrefix(taken: seq<Data>, first: Data, bs: seq<seq<byte>>)
    requires taken != [] && taken <= [first] + Buffers(bs)
    ensures taken[0] == first && BuffersIn(taken[1..]) == bs[..|taken| - 1]
  {
    assert taken[1..] == Buffers(bs[..|taken| - 1]);
    BuffersInBuffers(bs[..|taken| - 1]);
  }

  /** What either session has taken is the beginning of what the other has passed to the channel. */
  lemma TakenIsSent(env: Env, w: World, k: nat)
    requires WorldOk(env, w) && k < |w.socks| && k < |w.net|
    ensures w.net[k].fromPeer <= w.socks[k].toPeer && w.socks[k].fromPeer <= w.net[k].toPeer
  {
    SessionIsolation(w.sys, Acceptor, k);
    SessionIsolation(w.sys, Opener, k);
    LogMatches(w.sys.opener, SocksLogs(w.socks), k);
    LogMatches(w.sys.acceptor, NetLogs(w.net), k);
  }

  lemma LogMatches(x: End, ls: seq<Log>, k: nat)
    requires Matches(x, ls) && k < |ls|
    ensures x.At(k).sent <= ls[k].toPeer && x.At(k).handled == ls[k].fromPeer
  {
  }

  // ---------------------------------------------------------------- over every run

  /** The client's buffers after the handshake: it starts with two of them. */
  function Stream(s: S.Socks): seq<seq<byte>> {
    if |s.fromSocket| < 2 then [] else s.fromSocket[2..]
  }

  /** What each side wrote is the beginning of what the other read. */
  predicate Relayed(s: S.Socks, n: N.Net) {
    n.written <= s.read <= Stream(s) && s.written <= n.read <= n.fromSocket
  }

  /**
   End to end, in both directions and in every session: what was written to the remote socket is the
   beginning of what the client sent after its handshake, and what was forwarded to the client is the
   beginning of what came from the remote socket, in order, with nothing lost, added or altered.
   */
  lemma StreamsAgree(env: Env, es: seq<Event>)
    ensures var w := Run(env, es);
            forall k :: 0 <= k < |w.socks| && k < |w.net| ==> Relayed(w.socks[k], w.net[k])
  {
    RunOk(env, es);
    var w := Run(env, es);
    forall k | 0 <= k < |w.socks| && k < |w.net|
      ensures Relayed(w.socks[k], w.net[k])
    {
      TakenIsSent(env, w, k);
      WrittenUp(env, w.socks[k], w.net[k]);
      WrittenDown(env, w.socks[k], w.net[k]);
      ReadIsReceived(env, w.socks[k], w.net[k]);
    }
  }

  lemma WrittenUp(env: Env, s: S.Socks, n: N.Net)
    requires S.SocksOk(env, s) && N.NetOk(env, n) && n.fromPeer <= s.toPeer
    ensures n.written <= s.read
  {
    if n.phase.Linked? {
      StreamPrefix(n.fromPeer, Str(S.RequestText(env, s.request.value)), s.read);
    }
  }

  lemma WrittenDown(env: Env, s: S.Socks, n: N.Net)
    requires S.SocksOk(env, s) && N.NetOk(env, n) && s.fromPeer <= n.toPeer
    ensures s.written <= n.read
  {
    if s.phase.Linked? {
      StreamPrefix(s.fromPeer, Str(N.ReplyText(env, n.reply.value)), n.read);
    }
  }

  lemma ReadIsReceived(env: Env, s: S.Socks, n: N.Net)
    requires S.SocksOk(env, s) && N.NetOk(env, n)
    ensures s.read <= Stream(s) && n.read <= n.fromSocket
  {
  }

  /** If the session connects to an endpoint at all, then to the one in the client's CONNECT, unless that is refused. */
  predicate ConnectsAsAsked(env: Env, s: S.Socks, n: N.Net) {
    n.phase.Connecting? || n.phase.Linked? ==>
      && |s.fromSocket| >= 2
      && InterpretRequest(env.lib, s.fromSocket[1]) == Ok(Request(TCP_CONNECT, n.phase.endpoint))
      && !env.refused(n.phase.endpoint.address)
  }

  /**
   The endpoint that rtc-to-net connects to is the one that the client asked for in its second buffer,
   with a CONNECT; other commands never get a connection.
   */
  lemma RightEndpoint(env: Env, es: seq<Event>)
    requires JsonOk(env.json)
    ensures var w := Run(env, es);
            forall k :: 0 <= k < |w.socks| && k < |w.net| ==> ConnectsAsAsked(env, w.socks[k], w.net[k])
  {
    RunOk(env, es);
    var w := Run(env, es);
    forall k | 0 <= k < |w.socks| && k < |w.net|
      ensures ConnectsAsAsked(env, w.socks[k], w.net[k])
    {
      TakenIsSent(env, w, k);
      FirstMessageAsks(env, w.socks[k], w.net[k]);
    }
  }

  lemma FirstMessageAsks(env: Env, s: S.Socks, n: N.Net)
    requires JsonOk(env.json) && S.SocksOk(env, s) && N.NetOk(env, n) && n.fromPeer <= s.toPeer
    ensures ConnectsAsAsked(env, s, n)
  {
    if n.phase.Connecting? || n.phase.Linked? {
      assert n.fromPeer[0] == s.toPeer[0];
      AcceptedRequests(env.lib, s.fromSocket[1]);
      RequestIsValid(s.request.value);
    }
  }

  /** The client is told of success, and its data forwarded, only if the remote socket has connected. */
  lemma LinkedOnlyIfConnected(env: Env, es: seq<Event>, k: nat)
    requires JsonOk(env.json)
    requires k < |Run(env, es).socks| && Run(env, es).socks[k].phase.Linked?
    ensures k < |Run(env, es).net| && Run(env, es).net[k].phase.Linked?
    ensures Run(env, es).net[k].reply.Some? && Run(env, es).net[k].reply.value.reply == SUCCEEDED
  {
    RunOk(env, es);
    var w := Run(env, es);
    var s := w.socks[k];
    assert S.SocksOk(env, s);
    SessionIsolation(w.sys, Opener, k);
    LogMatches(w.sys.opener, SocksLogs(w.socks), k);
    TakenIsSent(env, w, k);
    var n := w.net[k];
    assert N.NetOk(env, n);
    assert s.fromPeer[0] == n.toPeer[0];
    ResponseIsValid(n.reply.value);
  }

  /** rtc-to-net's reply, when that can be read; a failure without an endpoint when not, or when there is none. */
  function AnswerOver(w: World, k: nat): Response {
    if k < |w.socks| && w.socks[k].fromPeer != [] && k < |w.net| && CanBeRead(w.net[k].reply)
    then w.net[k].reply.value else Response(1, None)
  }

  predicate CanBeRead(r: Option<Response>) {
    && r.Some? && r.value.reply <= 9
    && if r.value.endpoint.None? then r.value.reply != 0 else r.value.endpoint.value.port < 65536
  }

  /** The client has been sent nothing, or that no authentication is needed, or that and the answer. */
  predicate ToldSoFar(env: Env, toClient: seq<seq<byte>>, answer: Response) {
    toClient == [] || toClient == [[5, 0]] || toClient == [[5, 0], ComposeResponse(env.lib, answer)]
  }

  /**
   In every session the SOCKS client is sent rtc-to-net's reply and no other, and at most once: it has been sent by
   the time that the session is linked, and says success exactly when the session goes on to be linked if it can
   be written.
   */
  lemma ClientIsTold(env: Env, es: seq<Event>, k: nat)
    requires JsonOk(env.json) && k < |Run(env, es).socks|
    ensures var w := Run(env, es);
            var s := w.socks[k];
            && ToldSoFar(env, s.toClient, AnswerOver(w, k))
            && (s.phase.Linked? || s.phase.Replying? ==> |s.toClient| == 2)
            && (s.phase.Linked? ==> AnswerOver(w, k).reply == 0)
            && (s.phase.Replying? ==> (s.phase.ok <==> AnswerOver(w, k).reply == 0))
            && (s.phase.Failed? ==> s.stopping)
  {
    RunOk(env, es);
    var w := Run(env, es);
    AnswerComesOver(env, w, k);
    assert S.Told(env, w.socks[k]);
  }

  lemma AnswerComesOver(env: Env, w: World, k: nat)
    requires JsonOk(env.json) && WorldOk(env, w) && k < |w.socks|
    ensures S.SocksOk(env, w.socks[k]) && S.Answer(env, w.socks[k]) == AnswerOver(w, k)
  {
    if w.socks[k].fromPeer != [] {
      SessionIsolation(w.sys, Opener, k);
      LogMatches(w.sys.opener, SocksLogs(w.socks), k);
      TakenIsSent(env, w, k);
      AnswerIsReply(env, w.socks[k], w.net[k]);
    }
  }

  lemma AnswerIsReply(env: Env, s: S.Socks, n: N.Net)
    requires JsonOk(env.json) && N.NetOk(env, n) && s.fromPeer != [] && s.fromPeer <= n.toPeer
    ensures n.reply.Some? && S.Answer(env, s) == if CanBeRead(n.reply) then n.reply.value else Response(1, None)
  {
    assert s.fromPeer[0] == n.toPeer[0];
    ResponseIsValid(n.reply.value);
  }

  /** What the client of a linked session reads in the answer is the reply, if and only if that can be carried. */
  lemma SuccessReadsBack(env: Env, es: seq<Event>, k: nat)
    requires JsonOk(env.json) && LibOk(env.lib)
    requires k < |Run(env, es).socks| && Run(env, es).socks[k].phase.Linked?
    ensures var w := Run(env, es);
            && k < |w.net| && |w.socks[k].toClient| == 2 && w.net[k].reply.Some? && w.net[k].reply.value.endpoint.Some?
            && (InterpretResponse(env.lib, w.socks[k].toClient[1]) == Ok(w.net[k].reply.value)
                <==> Carriable(env.lib, w.net[k].reply.value.endpoint.value))
  {
    LinkedOnlyIfConnected(env, es, k);
    ClientIsTold(env, es, k);
    RunOk(env, es);
    AnswerReadsBack(env.lib, AnswerOver(Run(env, es), k));
  }

  lemma AnswerReadsBack(lib: Lib, r: Response)
    requires LibOk(lib) && CanBeRead(Some(r))
    ensures InterpretResponse(lib, ComposeResponse(lib, r)) == Ok(Response(r.reply, Some(EndpointSent(r))))
       <==> Carriable(lib, EndpointSent(r))
  {
    ResponseRoundTrip(lib, r, []);
    assert ComposeResponse(lib, r) + [] == ComposeResponse(lib, r);
  }

  lemma ResponseHead(lib: Lib, r: Response)
    requires r.reply < 256
    ensures ComposeResponse(lib, r)[..3] == [5, r.reply, 0]
  {
  }

  /** And when the session is not to be linked, a reply other than success. */
  lemma FailureReadsBack(env: Env, es: seq<Event>, k: nat)
    requires JsonOk(env.json) && LibOk(env.lib)
    requires k < |Run(env, es).socks| && Run(env, es).socks[k].phase == S.Replying(false)
    ensures var b := Run(env, es).socks[k].toClient;
            && |b| == 2 && |b[1]| >= 3 && b[1][0] == 5 && 0 < b[1][1] <= 9
            && (Carriable(env.lib, EndpointSent(AnswerOver(Run(env, es), k))) ==>
                  InterpretResponse(env.lib, b[1]).Ok? && InterpretResponse(env.lib, b[1]).value.reply == b[1][1])
  {
    ClientIsTold(env, es, k);
    var answer := AnswerOver(Run(env, es), k);
    AnswerReadsBack(env.lib, answer);
    ResponseHead(env.lib, answer);
    var b := ComposeResponse(env.lib, answer);
    assert b[0] == b[..3][0] && b[1] == b[..3][1];
  }

  lemma AllWrittenUp(env: Env, s: S.Socks, n: N.Net)
    requires S.SocksOk(env, s) && N.NetOk(env, n) && n.phase.Linked?
    ensures n.fromPeer != [] && n.written == BuffersIn(n.fromPeer[1..])
    ensures n.fromPeer == s.toPeer ==> n.written == s.read
  {
    if n.fromPeer == s.toPeer {
      StreamPrefix(n.fromPeer, Str(S.RequestText(env, s.request.value)), s.read);
    }
  }

  lemma AllWrittenDown(env: Env, s: S.Socks, n: N.Net)
    requires S.SocksOk(env, s) && N.NetOk(env, n) && s.phase.Linked?
    ensures s.fromPeer != [] && s.written == BuffersIn(s.fromPeer[1..])
    ensures s.fromPeer == n.toPeer ==> s.written == n.read
  {
    if s.fromPeer == n.toPeer {
      StreamPrefix(s.fromPeer, Str(N.ReplyText(env, n.reply.value)), n.read);
    }
  }

  /**
   Nothing is lost when the client's side closes first: once both ends have closed session k, which rtc-to-net
   had linked and did not close itself, it has written all that the client's channel accepted.
   */
  lemma OrderlyCloseDelivers(env: Env, es: seq<Event>, k: nat)
    requires var sys := Run(env, es).sys; k < sys.opener.Epoch() && k < sys.acceptor.Epoch()
    requires var w := Run(env, es); k < |w.net| && w.net[k].phase.Linked? && !w.sys.acceptor.past[k].initiated
    ensures var w := Run(env, es);
            && k < |w.socks|
            && w.net[k].fromPeer == w.sys.opener.past[k].sent
            && w.sys.opener.past[k].sent != []
            && w.net[k].written == BuffersIn(w.sys.opener.past[k].sent[1..])
            && (w.sys.opener.past[k].sent == w.socks[k].toPeer ==> w.net[k].written == w.socks[k].read)
  {
    RunOk(env, es);
    var w := Run(env, es);
    SessionConservation(w.sys, Acceptor, k);
    LogMatches(w.sys.acceptor, NetLogs(w.net), k);
    AllWrittenUp(env, w.socks[k], w.net[k]);
  }

  /**
   And when the server's side closes first: once both ends have closed session k, which socks-to-rtc had linked
   and did not close itself, the client has been sent all that rtc-to-net's channel accepted.
   */
  lemma OrderlyServerCloseDelivers(env: Env, es: seq<Event>, k: nat)
    requires var sys := Run(env, es).sys; k < sys.opener.Epoch() && k < sys.acceptor.Epoch()
    requires var w := Run(env, es); k < |w.socks| && w.socks[k].phase.Linked? && !w.sys.opener.past[k].initiated
    ensures var w := Run(env, es);
            && k < |w.net|
            && w.socks[k].fromPeer == w.sys.acceptor.past[k].sent
            && w.sys.acceptor.past[k].sent != []
            && w.socks[k].written == BuffersIn(w.sys.acceptor.past[k].sent[1..])
            && (w.sys.acceptor.past[k].sent == w.net[k].toPeer ==> w.socks[k].written == w.net[k].read)
  {
    RunOk(env, es);
    var w := Run(env, es);
    SessionConservation(w.sys, Opener, k);
    LogMatches(w.sys.opener, SocksLogs(w.socks), k);
    AllWrittenDown(env, w.socks[k], w.net[k]);
  }

  /**
   rtc-to-net's byte counters, at any time: what was received is what was forwarded, and is sent, pending or
   failed.
   */
  lemma BytesAccounted(env: Env, es: seq<Event>)
    ensures forall k :: 0 <= k < |Run(env, es).net| ==> N.Accounted(Run(env, es).net[k])
  {
    RunOk(env, es);
  }

  // ---------------------------------------------------------------- stuck sessions

  lemma StuckStep(env: Env, n: N.Net, e: NetEvent, chan: Chan)
    requires n.phase.Stuck?
    ensures var n' := OnNet(env, n, e, chan);
            && n'.phase.Stuck? && n'.toPeer == n.toPeer && n'.fromPeer == n.fromPeer
            && n'.written == n.written && n'.reply == n.reply
  {
  }

  /** Whatever happens to a session after it got stuck, on whatever channel. */
  function After(env: Env, n: N.Net, es: seq<(NetEvent, Chan)>): N.Net {
    if es == [] then n
    else
      var (e, chan) := es[|es| - 1];
      OnNet(env, After(env, n, es[..|es| - 1]), e, chan)
  }

  /** A session that a peer's first message has left stuck never replies, connects or handles another message. */
  lemma {:induction false} StuckForGood(env: Env, d: Data, es: seq<(NetEvent, Chan)>)
    requires N.Sticks(env, d)
    ensures var n := After(env, N.OnPeerData(env, N.FRESH_NET, d), es);
            n.phase.Stuck? && n.reply.None? && n.toPeer == [] && n.fromPeer == [d] && n.written == []
  {
    var stuck := N.OnPeerData(env, N.FRESH_NET, d);
    if es == [] {
      N.StuckWhen(env, N.FRESH_NET, d);
    } else {
      var (e, chan) := es[|es| - 1];
      StuckForGood(env, d, es[..|es| - 1]);
      StuckStep(env, After(env, stuck, es[..|es| - 1]), e, chan);
    }
  }

  /**
   rtc-to-net against an arbitrary peer: the opener's end of the channel may send, close and handle messages as it
   likes, and nothing is known of what it sends.
   */
  datatype PeerEvent =
    | AtPeer(action: Action)
    | AtNetAlone(event: NetEvent)
    | FreeNetAlone

  function PeerStep(env: Env, w: World, e: PeerEvent): World
    requires w.net != []
  {
    match e
    case AtPeer(a) =>
      if !OfChannel(a) && Actor(a) != Opener then w
      else
        var sys := Next(w.sys, a);
        w.(sys := sys, net := Renew(w.net, sys.acceptor.Epoch() + 1, N.FRESH_NET))
    case AtNetAlone(e) => NetStep(env, w, e)
    case FreeNetAlone => if Last(w.net).stopping then w.(sys := Next(w.sys, AppClose(Acceptor))) else w
  }

  function PeerRun(env: Env, es: seq<PeerEvent>): (w: World)
    ensures w.net != []
  {
    if es == [] then START else PeerStep(env, PeerRun(env, es[..|es| - 1]), es[|es| - 1])
  }

  predicate NetsOk(env: Env, w: World) {
    forall k :: 0 <= k < |w.net| ==> N.NetOk(env, w.net[k])
  }

  lemma PeerStepOk(env: Env, w: World, e: PeerEvent)
    requires w.net != [] && NetsOk(env, w)
    ensures NetsOk(env, PeerStep(env, w, e))
  {
    match e
    case AtNetAlone(e) => NetKeeps(env, Last(w.net), e, w.sys.acceptor.chan);
    case _ =>
  }

  lemma {:induction false} PeerRunOk(env: Env, es: seq<PeerEvent>)
    ensures NetsOk(env, PeerRun(env, es))
  {
    if es != [] {
      PeerRunOk(env, es[..|es| - 1]);
      PeerStepOk(env, PeerRun(env, es[..|es| - 1]), es[|es| - 1]);
    }
  }

  /** Session k of rtc-to-net got stuck on its first message, and has passed nothing to channel or socket. */
  predicate StuckAt(env: Env, w: World, k: nat) {
    && k < |w.net| && w.net[k].phase.Stuck?
    && |w.net[k].fromPeer| == 1 && N.Sticks(env, w.net[k].fromPeer[0])
    && w.net[k].toPeer == [] && w.net[k].written == []
  }

  lemma StuckHere(env: Env, w: World, k: nat)
    requires NetsOk(env, w) && k < |w.net| && w.net[k].phase.Stuck?
    ensures StuckAt(env, w, k)
  {
    assert N.NetOk(env, w.net[k]);
  }

  lemma StuckAtStep(env: Env, w: World, e: PeerEvent, k: nat)
    requires StuckAt(env, w, k)
    ensures StuckAt(env, PeerStep(env, w, e), k)
  {
    match e
    case AtNetAlone(e) => if k == |w.net| - 1 { StuckStep(env, w.net[k], e, w.sys.acceptor.chan); }
    case _ =>
  }

  /** With an arbitrary peer: once session k is stuck, no continuation of the run changes that. */
  lemma {:induction false} StuckInEveryRun(env: Env, es: seq<PeerEvent>, more: seq<PeerEvent>, k: nat)
    requires k < |PeerRun(env, es).net| && PeerRun(env, es).net[k].phase.Stuck?
    ensures StuckAt(env, PeerRun(env, es + more), k)
    decreases |more|
  {
    if more == [] {
      assert es + more == es;
      PeerRunOk(env, es);
      StuckHere(env, PeerRun(env, es), k);
    } else {
      var m := |more| - 1;
      StuckInEveryRun(env, es, more[..m], k);
      assert es + more == (es + more[..m]) + [more[m]];
      PeerRunMore(env, es + more[..m], more[m]);
      StuckAtStep(env, PeerRun(env, es + more[..m]), more[m], k);
    }
  }

  lemma PeerRunMore(env: Env, es: seq<PeerEvent>, e: PeerEvent)
    ensures PeerRun(env, es + [e]) == PeerStep(env, PeerRun(env, es), e)
  {
    assert (es + [e])[..|es|] == es;
  }

  /** Any message that sticks brings such a run about: the peer opens the channel and sends it. */
  lemma StuckReached(env: Env, text: string)
    requires N.Sticks(env, Str(text))
    ensures var es := [AtPeer(OpenChannel)] + [AtPeer(Deliver(Acceptor))] + [AtPeer(AppSend(Opener, Str(text)))]
                        + [AtPeer(Deliver(Acceptor))] + [AtNetAlone(PeerData)];
            StuckAt(env, PeerRun(env, es), 0)
  {
    var d := Str(text);
    var start := [AtPeer(OpenChannel)] + [AtPeer(Deliver(Acceptor))];
    var arrived := start + [AtPeer(AppSend(Opener, d))] + [AtPeer(Deliver(Acceptor))];
    PeerOpens(env);
    PeerSends(env, start, d);
    PeerRunMore(env, arrived, AtNetAlone(PeerData));
    N.StuckWhen(env, N.FRESH_NET, d);
  }

  lemma PeerOpens(env: Env)
    ensures var w := PeerRun(env, [AtPeer(OpenChannel)] + [AtPeer(Deliver(Acceptor))]);
            w.net == [N.FRESH_NET] && w.sys == OpenPair()
  {
    PeerRunMore(env, [], AtPeer(OpenChannel));
    assert [] + [AtPeer(OpenChannel)] == [AtPeer(OpenChannel)];
    OpensForPeer();
    PeerRunMore(env, [AtPeer(OpenChannel)], AtPeer(Deliver(Acceptor)));
  }

  lemma PeerSends(env: Env, es: seq<PeerEvent>, d: Data)
    requires PeerRun(env, es).net == [N.FRESH_NET] && PeerRun(env, es).sys == OpenPair()
    ensures var w := PeerRun(env, es + [AtPeer(AppSend(Opener, d))] + [AtPeer(Deliver(Acceptor))]);
            w.net == [N.FRESH_NET] && w.sys.acceptor.chan == Chan(Open, [d], None, Settled, Pending)
  {
    SendsToPeer(d);
    PeerRunMore(env, es, AtPeer(AppSend(Opener, d)));
    PeerRunMore(env, es + [AtPeer(AppSend(Opener, d))], AtPeer(Deliver(Acceptor)));
  }

  function OpenPair(): Sys {
    var open := Chan(Open, [], None, Settled, Pending);
    Sys(End(open, [], [], NEW_SESSION.(openSent := true)), End(open, [], [], NEW_SESSION.(openSeen := true)))
  }

  lemma OpensForPeer()
    ensures Next(Next(INITIAL, OpenChannel), Deliver(Acceptor)) == OpenPair()
    ensures Next(INITIAL, OpenChannel).acceptor.Epoch() == 0
  {
    assert FRESH_END.inbox + [OPEN] == [OPEN] && [OPEN][1..] == [];
  }

  lemma SendsToPeer(d: Data)
    ensures var sys := Next(OpenPair(), AppSend(Opener, d));
            && sys.acceptor.Epoch() == 0 && Next(sys, Deliver(Acceptor)).acceptor.Epoch() == 0
            && Next(sys, Deliver(Acceptor)).acceptor.chan == Chan(Open, [d], None, Settled, Pending)
  {
    assert [] + [Frame(d)] == [Frame(d)] && [] + [d] == [d];
  }

  /** A conforming socks-to-rtc peer never causes it. */
  lemma NeverStuck(env: Env, es: seq<Event>)
    requires JsonOk(env.json)
    ensures var w := Run(env, es);
            forall k :: 0 <= k < |w.net| ==> !w.net[k].phase.Stuck?
  {
    RunOk(env, es);
    var w := Run(env, es);
    forall k | 0 <= k < |w.net|
      ensures !w.net[k].phase.Stuck?
    {
      if k < |w.socks| {
        TakenIsSent(env, w, k);
        FirstMessageFits(env, w.socks[k], w.net[k]);
      } else {
        SessionIsolation(w.sys, Acceptor, k);
        LogMatches(w.sys.acceptor, NetLogs(w.net), k);
        assert N.NetOk(env, w.net[k]);
      }
    }
  }

  lemma FirstMessageFits(env: Env, s: S.Socks, n: N.Net)
    requires JsonOk(env.json) && S.SocksOk(env, s) && N.NetOk(env, n) && n.fromPeer <= s.toPeer
    ensures !n.phase.Stuck?
  {
    if n.phase.Stuck? {
      assert n.fromPeer[0] == s.toPeer[0];
      AcceptedRequests(env.lib, s.fromSocket[1]);
      RequestIsValid(s.request.value);
      RequestThrows(RequestJson(s.request.value));
      assert false;
    }
  }
}
