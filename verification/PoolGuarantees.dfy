/** What the channel-reuse protocol promises, over every run from two fresh channels. */
module PoolGuarantees {
  import opened Basics
  import opened PoolChannels
  import opened PoolProtocol

  ghost predicate Reachable(s: Sys) {
    exists actions :: s == Run(INITIAL, actions)
  }

  lemma ReachableInv(s: Sys)
    requires Reachable(s)
    ensures Inv(s)
  {
    var actions :| s == Run(INITIAL, actions);
    RunKeeps(INITIAL, actions);
  }

  lemma {:induction false} RunSnoc(s: Sys, actions: seq<Action>, a: Action)
    ensures Run(s, actions + [a]) == Next(Run(s, actions), a)
    decreases |actions|
  {
    if actions == [] {
      assert Run(s, [a]) == Run(Next(s, a), [a][1..]);
    } else {
      assert (actions + [a])[1..] == actions[1..] + [a];
      RunSnoc(Next(s, actions[0]), actions[1..], a);
    }
  }

  lemma ReachableNext(s: Sys, a: Action, s': Sys)
    requires s == INITIAL || Reachable(s)
    requires Next(s, a) == s'
    ensures Reachable(s')
  {
    assert Run(INITIAL, []) == INITIAL;
    var actions :| s == Run(INITIAL, actions);
    RunSnoc(INITIAL, actions, a);
  }

  /**
   Session isolation: what enters the k-th dataFromPeerQueue is always the beginning of
   what the peer sent in its own k-th session, and all of it once both have closed it.
   */
  lemma SessionIsolation(s: Sys, side: Side, k: nat)
    requires Reachable(s)
    requires k <= s.Get(side).Epoch()
    ensures var y, x := s.Get(side), s.Get(Peer(side));
            && y.At(k).handled <= y.At(k).rcvd
            && (k <= x.Epoch() ==> y.At(k).rcvd <= x.At(k).sent)
            && (k > x.Epoch() ==> y.At(k).rcvd == [])
            && (k < x.Epoch() && k < y.Epoch() ==> y.At(k).rcvd == x.At(k).sent)
  {
    ReachableInv(s);
  }

  /**
   Conservation: of a session both ends have closed, every message the peer sent was
   handled, in order, except those left in the queue of an end that called close() itself.
   */
  lemma SessionConservation(s: Sys, side: Side, k: nat)
    requires Reachable(s)
    requires k < s.Get(side).Epoch() && k < s.Get(Peer(side)).Epoch()
    ensures var y, x := s.Get(side), s.Get(Peer(side));
            && y.past[k].handled + y.past[k].dropped == x.past[k].sent
            && (y.past[k].dropped != [] ==> y.past[k].initiated)
  {
    ReachableInv(s);
  }

  /**
   When an end that called close() is told that its peer has closed too, its session ends, and what its handlers
   had not taken is lost: it has handled all that the peer sent if and only if its queue was empty then.
   */
  lemma LastCloseDrops(s: Sys, side: Side)
    requires Reachable(s)
    requires var y := s.Get(side); y.Up() && y.chan.state.Closing? && y.inbox != [] && y.inbox[0] == CLOSE
    ensures var y, y' := s.Get(side), Next(s, Deliver(side)).Get(side);
            var k := y.Epoch();
            && y'.Epoch() == k + 1 && k <= s.Get(Peer(side)).Epoch()
            && y'.past[k].initiated && y'.past[k].dropped == y.chan.queue
            && y'.past[k].handled + y.chan.queue == s.Get(Peer(side)).At(k).sent
            && (y'.past[k].handled == s.Get(Peer(side)).At(k).sent <==> y.chan.queue == [])
  {
    ReachableInv(s);
    var y, x := s.Get(side), s.Get(Peer(side));
    HeadOfInbox(Peer(side), x, y);
    DeliverLastCloseEffect(side, y);
  }

  /** Over whole runs: of a session closed at both ends, everything was handled if and only if nothing was left. */
  lemma AllHandledUnlessDropped(s: Sys, side: Side, k: nat)
    requires Reachable(s)
    requires k < s.Get(side).Epoch() && k < s.Get(Peer(side)).Epoch()
    ensures var y, x := s.Get(side), s.Get(Peer(side));
            && (y.past[k].handled == x.past[k].sent <==> y.past[k].dropped == [])
            && (!y.past[k].initiated ==> y.past[k].handled == x.past[k].sent)
  {
    SessionConservation(s, side, k);
  }

  /**
   Drain before ack: once x's close() of session k has fulfilled and the peer y did not
   call close() in that session, y has closed it too and has handled all that x sent in it.
   */
  lemma CloseWaitsForDrain(s: Sys, side: Side, k: nat)
    requires Reachable(s)
    requires k < s.Get(side).Epoch() && k <= s.Get(Peer(side)).Epoch()
    requires !s.Get(Peer(side)).At(k).initiated
    ensures k < s.Get(Peer(side)).Epoch()
    ensures s.Get(Peer(side)).At(k).handled == s.Get(side).At(k).sent
  {
    ReachableInv(s);
  }

  /** The acknowledgement itself: when it is sent, nothing of the session is unhandled or on its way. */
  lemma AckMeansConsumed(s: Sys, side: Side)
    requires Reachable(s)
    requires AckReady(s.Get(side).chan)
    ensures var y, x := s.Get(side), s.Get(Peer(side));
            x.Epoch() == y.Epoch() && y.inbox == [] && y.cur.handled == x.cur.sent
  {
    ReachableInv(s);
    var y := s.Get(side);
    assert y.cur.handled + [] == y.cur.handled;
  }

  /**
   The handshake: session numbers differ by at most one, every finished session saw exactly
   one CLOSE from each end, and no message reaches a state in which it would be redundant.
   */
  lemma Handshake(s: Sys, side: Side)
    requires Reachable(s)
    ensures var y, x := s.Get(side), s.Get(Peer(side));
            && x.Epoch() <= y.Epoch() + 1
            && (forall k :: 0 <= k < y.Epoch() ==> y.past[k].closes == 1 && y.past[k].closeSeen)
            && y.cur.closes <= 1
            && (y.Up() && y.inbox != [] ==>
                  match y.inbox[0]
                  case ControlFrame(name) =>
                    || (name == OPEN_NAME && side.Acceptor? && y.chan.state.Closed?)
                    || (name == CLOSE_NAME &&
                        (y.chan.state.Open? || (y.chan.state.Closing? && y.cur.initiated)))
                  case DataFrame(_) => !y.chan.state.Closed?
                  case Raw(_) => !y.chan.state.Closed?
                  case _ => false)
  {
    ReachableInv(s);
    var y, x := s.Get(side), s.Get(Peer(side));
    if y.Up() && y.inbox != [] {
      HeadOfInbox(Peer(side), x, y);
    }
  }

  // ---------------------------------------------------------------- Quiescence

  /** The actions that need no application: messages arrive, handlers run, acknowledgements go out. */
  predicate Internal(a: Action) {
    a.Deliver? || a.Handle? || a.SendAck?
  }

  predicate Enabled(s: Sys, a: Action)
    requires Internal(a)
  {
    var x := s.Get(a.side);
    match a
    case Deliver(_) => x.Up() && x.inbox != []
    case Handle(_) => x.chan.queue != []
    case SendAck(_) => AckReady(x.chan)
  }

  function Opens(ws: seq<Wire>): nat {
    if ws == [] then 0 else (if ws[0] == OPEN then 1 else 0) + Opens(ws[1..])
  }

  lemma {:induction false} OpensOfConcat(a: seq<Wire>, b: seq<Wire>)
    ensures Opens(a + b) == Opens(a) + Opens(b)
  {
    if a == [] {
      assert a + b == b;
    } else {
      assert (a + b)[1..] == a[1..] + b;
      OpensOfConcat(a[1..], b);
    }
  }

  /** Work left at one end; an end that may still have to acknowledge counts for four. */
  function Work(x: End): nat {
    2 * |x.inbox| + |x.chan.queue| + 4 * Opens(x.inbox) +
    (if x.chan.state.Open? || x.chan.ackAfter.Some? then 4 else 0)
  }

  function Measure(s: Sys): nat {
    Work(s.opener) + Work(s.acceptor)
  }

  lemma HandleDecreases(x: End, y: End, side: Side)
    requires x.chan.queue != []
    ensures Work(Step(x, y, Handle(side)).0) < Work(x)
  {
  }

  lemma DeliverDecreases(side: Side, x: End, y: End)
    requires Good(side, x, y)
    requires y.Up() && y.inbox != []
    ensures Work(Step(y, x, Deliver(Peer(side))).0) < Work(y)
    ensures Step(y, x, Deliver(Peer(side))).0.Up()
  {
    HeadOfInbox(side, x, y);
  }

  lemma AckDecreases(side: Side, x: End, y: End)
    requires Good(side, x, y)
    requires AckReady(x.chan)
    ensures var (x', y') := Step(x, y, SendAck(side));
            Work(x') + Work(y') < Work(x) + Work(y) && x'.Up() && (y.Up() ==> y'.Up())
  {
    OpensOfConcat(y.inbox, [CLOSE]);
    assert Opens([CLOSE]) == 0;
  }

  /** However internal actions are scheduled, each one leaves less to do. */
  lemma InternalDecreases(s: Sys, a: Action)
    requires Inv(s) && s.opener.Up() && s.acceptor.Up()
    requires Internal(a) && Enabled(s, a)
    ensures Measure(Next(s, a)) < Measure(s)
    ensures Next(s, a).opener.Up() && Next(s, a).acceptor.Up()
  {
    StepDecreases(s.Get(a.side), s.Get(Peer(a.side)), a);
  }

  lemma StepDecreases(x: End, y: End, a: Action)
    requires Internal(a) && Good(a.side, x, y) && x.Up() && y.Up() && Enabled(Sys.Make(a.side, x, y), a)
    ensures var (x', y') := Step(x, y, a);
            Work(x') + Work(y') < Work(x) + Work(y) && x'.Up() && y'.Up()
  {
    match a
    case Deliver(side) => DeliverDecreases(Peer(side), y, x);
    case Handle(side) => HandleDecreases(x, y, side);
    case SendAck(side) => AckDecreases(side, x, y);
  }

  /** When no internal action is left the two ends agree: same session, nothing in flight, both open or both closed. */
  lemma QuiescentAgrees(s: Sys)
    requires Inv(s) && s.opener.Up() && s.acceptor.Up()
    requires forall a :: Internal(a) ==> !Enabled(s, a)
    ensures s.opener.Epoch() == s.acceptor.Epoch()
    ensures s.opener.inbox == [] && s.acceptor.inbox == []
    ensures s.opener.chan.state == s.acceptor.chan.state
    ensures s.opener.chan.state.Open? || s.opener.chan.state.Closed?
    ensures s.opener.cur.handled == s.acceptor.cur.sent && s.acceptor.cur.handled == s.opener.cur.sent
  {
    assert !Enabled(s, Deliver(Opener)) && !Enabled(s, Deliver(Acceptor));
    assert !Enabled(s, Handle(Opener)) && !Enabled(s, Handle(Acceptor));
    assert !Enabled(s, SendAck(Opener)) && !Enabled(s, SendAck(Acceptor));
  }

  predicate AllInternal(actions: seq<Action>) {
    forall i :: 0 <= i < |actions| ==> Internal(actions[i])
  }

  ghost predicate Quiescent(s: Sys) {
    forall a :: Internal(a) ==> !Enabled(s, a)
  }

  /** An internal action that is not enabled changes nothing. */
  lemma DisabledIsIdle(s: Sys, a: Action)
    requires Internal(a) && !Enabled(s, a)
    ensures Next(s, a) == s
  {
  }

  /** Some schedule of internal actions reaches quiescence; by InternalDecreases every one that keeps acting does. */
  lemma {:induction false} ReachesQuiescence(s: Sys) returns (actions: seq<Action>)
    requires Inv(s) && s.opener.Up() && s.acceptor.Up()
    ensures AllInternal(actions) && Quiescent(Run(s, actions))
    ensures |actions| <= Measure(s)
    decreases Measure(s)
  {
    if Quiescent(s) {
      return [];
    }
    var a :| Internal(a) && Enabled(s, a);
    InternalDecreases(s, a);
    NextKeeps(s, a);
    var rest := ReachesQuiescence(Next(s, a));
    return [a] + rest;
  }

  /** A closing end stays closing until its session is over, and sessions only go forward. */
  predicate GoesForward(x: End, x': End) {
    && x'.Epoch() >= x.Epoch()
    && (x.chan.state.Closing? && x'.Epoch() == x.Epoch() ==> x'.chan.state.Closing?)
  }

  lemma DeliverGoesForward(side: Side, x: End, y: End)
    requires Good(side, x, y) && y.Up()
    ensures GoesForward(y, Step(y, x, Deliver(Peer(side))).0)
  {
    if y.inbox != [] {
      HeadOfInbox(side, x, y);
    }
  }

  lemma ActorGoesForward(side: Side, x: End, y: End, a: Action)
    requires EndOk(side, x) && (a.Handle? || a.SendAck?)
    ensures GoesForward(x, Step(x, y, a).0)
  {
  }

  lemma PeerStays(x: End, y: End, a: Action)
    ensures Step(x, y, a).1.chan == y.chan && Step(x, y, a).1.past == y.past
  {
  }

  lemma ClosingUntilOver(s: Sys, a: Action, side: Side)
    requires Inv(s) && Internal(a)
    requires s.Get(side).Up()
    ensures GoesForward(s.Get(side), Next(s, a).Get(side))
  {
    var x, y := s.Get(a.side), s.Get(Peer(a.side));
    if a.side != side {
      PeerStays(x, y, a);
    } else if a.Deliver? {
      DeliverGoesForward(Peer(side), y, x);
    } else {
      ActorGoesForward(side, x, y, a);
    }
  }

  lemma {:induction false} ClosingRun(s: Sys, actions: seq<Action>, side: Side)
    requires Inv(s) && s.opener.Up() && s.acceptor.Up() && AllInternal(actions)
    ensures var s' := Run(s, actions);
            && Inv(s') && s'.opener.Up() && s'.acceptor.Up()
            && GoesForward(s.Get(side), s'.Get(side))
    decreases |actions|
  {
    if actions != [] {
      var a := actions[0];
      ClosingUntilOver(s, a, side);
      NextKeeps(s, a);
      if Enabled(s, a) {
        InternalDecreases(s, a);
      } else {
        DisabledIsIdle(s, a);
      }
      ClosingRun(Next(s, a), actions[1..], side);
    }
  }

  /**
   No end is stuck in CLOSING: whichever internal schedule is run to its end, a closing session is over at both
   ends.
   */
  lemma CloseCompletes(s: Sys, actions: seq<Action>, side: Side)
    requires Reachable(s) && s.opener.Up() && s.acceptor.Up()
    requires s.Get(side).chan.state.Closing?
    requires AllInternal(actions) && Quiescent(Run(s, actions))
    ensures Run(s, actions).opener.Epoch() > s.Get(side).Epoch()
    ensures Run(s, actions).acceptor.Epoch() > s.Get(side).Epoch()
  {
    ReachableInv(s);
    ClosingRun(s, actions, side);
    QuiescentAgrees(Run(s, actions));
  }

  /** The onceClosed of the session in progress has settled if and only if the real channel is gone. */
  lemma DeadIsClosed(s: Sys, side: Side)
    requires Reachable(s)
    ensures s.Get(side).chan.state.PermanentlyClosed? <==> s.Get(side).chan.onceClosed.Settled?
    ensures s.Get(side).chan.state.PermanentlyClosed? ==> s.Get(side).inbox == []
  {
    ReachableInv(s);
  }

  /** Once an end's real channel is gone, no run revives it: it sends nothing more and starts no session. */
  lemma {:induction false} GoneForGood(s: Sys, actions: seq<Action>, side: Side)
    requires !s.Get(side).Up()
    ensures var x, x' := s.Get(side), Run(s, actions).Get(side);
            !x'.Up() && x'.past == x.past && x'.cur.sent == x.cur.sent && x'.cur.closes == x.cur.closes
    decreases |actions|
  {
    if actions != [] {
      GoneStep(s, actions[0], side);
      GoneForGood(Next(s, actions[0]), actions[1..], side);
    }
  }

  lemma GoneStep(s: Sys, a: Action, side: Side)
    requires !s.Get(side).Up()
    ensures var x, x' := s.Get(side), Next(s, a).Get(side);
            !x'.Up() && x'.past == x.past && x'.cur.sent == x.cur.sent && x'.cur.closes == x.cur.closes
  {
    if Actor(a) != side {
      PeerStays(s.Get(Actor(a)), s.Get(Peer(Actor(a))), a);
    }
  }

  // ---------------------------------------------------------------- Where the promises end

  /** Each message settled before the next, as the protocol above assumes. */
  function Stepwise(c: Chan, ws: seq<Wire>): Chan
    decreases |ws|
  {
    if ws == [] then c else Stepwise(Settle(OnDataFromPeer(c, ws[0])), ws[1..])
  }

  /** All messages handled in one synchronous flush, the callbacks only afterwards. */
  function Unsettled(c: Chan, ws: seq<Wire>): Chan
    decreases |ws|
  {
    if ws == [] then c else Unsettled(OnDataFromPeer(c, ws[0]), ws[1..])
  }

  function Flush(c: Chan, ws: seq<Wire>): Chan {
    Settle(Unsettled(c, ws))
  }

  lemma {:induction false} UnsettledConcat(c: Chan, a: seq<Wire>, b: seq<Wire>)
    ensures Unsettled(c, a + b) == Unsettled(Unsettled(c, a), b)
    ensures Stepwise(c, a + b) == Stepwise(Stepwise(c, a), b)
    decreases |a|
  {
    if a == [] {
      assert a + b == b;
    } else {
      assert (a + b)[1..] == a[1..] + b;
      UnsettledConcat(OnDataFromPeer(c, a[0]), a[1..], b);
      UnsettledConcat(Settle(OnDataFromPeer(c, a[0])), a[1..], b);
    }
  }

  lemma {:induction false} DataOnly(c: Chan, ds: seq<Data>)
    ensures Unsettled(c, Frames(ds)) == c.(queue := c.queue + ds)
    ensures !c.onceOpened.Fulfilled? && !c.onceClosed.Fulfilled? ==>
              Stepwise(c, Frames(ds)) == c.(queue := c.queue + ds)
    decreases |ds|
  {
    if ds != [] {
      assert Frames(ds)[1..] == Frames(ds[1..]);
      var c' := c.(queue := c.queue + [ds[0]]);
      assert OnDataFromPeer(c, Frame(ds[0])) == c';
      DataOnly(c', ds[1..]);
      assert c.queue + [ds[0]] + ds[1..] == c.queue + ds;
    } else {
      assert c.queue + ds == c.queue;
    }
  }

  /** A flush of the beginning of a session by an acceptor that awaits one. */
  lemma FlushFromFresh(ds: seq<Data>, close: bool)
    ensures var ws := Script(Opener, ds, true, close);
            && (Flush(FRESH_CHAN, ws) == Stepwise(FRESH_CHAN, ws) <==> !close)
            && Flush(FRESH_CHAN, ws).state.Open? && Flush(FRESH_CHAN, ws).ackAfter == None
            && (if close then Stepwise(FRESH_CHAN, ws).state.Closing? else Stepwise(FRESH_CHAN, ws).state.Open?)
  {
    var tail := if close then [CLOSE] else [];
    var opening := OnDataFromPeer(FRESH_CHAN, OPEN);
    var open := Settle(opening);
    assert Script(Opener, ds, true, close) == [OPEN] + (Frames(ds) + tail);
    UnsettledConcat(FRESH_CHAN, [OPEN], Frames(ds) + tail);
    UnsettledConcat(opening, Frames(ds), tail);
    UnsettledConcat(open, Frames(ds), tail);
    DataOnly(opening, ds);
    DataOnly(open, ds);
    assert Unsettled(FRESH_CHAN, [OPEN]) == opening && Stepwise(FRESH_CHAN, [OPEN]) == open;
    var flushed := opening.(queue := ds);
    var stepped := open.(queue := ds);
    assert opening.queue + ds == ds && open.queue + ds == ds;
    if close {
      assert Unsettled(flushed, [CLOSE]) == flushed;
      assert Stepwise(stepped, [CLOSE]) == Settle(OnDataFromPeer(stepped, CLOSE));
    }
  }

  /** A flush by an open end: at most the CLOSE of the session is in it. */
  lemma FlushWhileOpen(c: Chan, ds: seq<Data>, close: bool)
    requires c.state.Open? && c.ackAfter == None && c.onceOpened.Settled? && c.onceClosed.Pending?
    ensures var ws := Script(Acceptor, ds, false, close);
            Flush(c, ws) == Stepwise(c, ws)
  {
    var tail := if close then [CLOSE] else [];
    assert Script(Acceptor, ds, false, close) == Frames(ds) + tail;
    UnsettledConcat(c, Frames(ds), tail);
    DataOnly(c, ds);
    if close {
      var c' := c.(queue := c.queue + ds);
      assert Unsettled(c', [CLOSE]) == OnDataFromPeer(c', CLOSE);
      assert Stepwise(c', [CLOSE]) == Settle(OnDataFromPeer(c', CLOSE));
    }
  }

  /** A flush, by an end that has called close(), that stops short of the CLOSE or ends with it. */
  lemma FlushWhileClosing(c: Chan, ds: seq<Data>, close: bool)
    requires c.state.Closing? && c.ackAfter == None && c.onceOpened.Settled? && c.onceClosed.Pending?
    ensures var ws := Script(Acceptor, ds, false, close);
            && Flush(c, ws) == Stepwise(c, ws)
            && Unsettled(c, ws) == c.(queue := c.queue + ds, onceClosed := if close then Fulfilled else Pending)
            && (close ==> Stepwise(c, ws) == FRESH_CHAN)
  {
    var tail := if close then [CLOSE] else [];
    assert Script(Acceptor, ds, false, close) == Frames(ds) + tail;
    UnsettledConcat(c, Frames(ds), tail);
    DataOnly(c, ds);
    if close {
      var c' := c.(queue := c.queue + ds);
      assert Unsettled(c', [CLOSE]) == OnDataFromPeer(c', CLOSE);
      assert Stepwise(c', [CLOSE]) == Settle(OnDataFromPeer(c', CLOSE));
    }
  }

  /** And one that goes on into the next session, whose OPEN and data are then lost. */
  lemma FlushBeyondClose(c: Chan, ds: seq<Data>, more: seq<Data>, close: bool)
    requires c.state.Closing? && c.ackAfter == None && c.onceOpened.Settled? && c.onceClosed.Pending?
    ensures var ws := Script(Acceptor, ds, false, true) + Script(Opener, more, true, close);
            && Flush(c, ws) == FRESH_CHAN && !Stepwise(c, ws).state.Closed?
  {
    var first, second := Script(Acceptor, ds, false, true), Script(Opener, more, true, close);
    var tail := if close then [CLOSE] else [];
    UnsettledConcat(c, first, second);
    FlushWhileClosing(c, ds, true);
    FlushFromFresh(more, close);
    var c1 := c.(queue := c.queue + ds, onceClosed := Fulfilled);
    assert second == [OPEN] + (Frames(more) + tail);
    UnsettledConcat(c1, [OPEN], Frames(more) + tail);
    UnsettledConcat(c1, Frames(more), tail);
    assert Unsettled(c1, [OPEN]) == c1;
    DataOnly(c1, more);
    var c2 := c1.(queue := c1.queue + more);
    assert close ==> Unsettled(c2, [CLOSE]) == c2;
  }

  /** The number of control messages. */
  function Controls(ws: seq<Wire>): nat {
    if ws == [] then 0 else (if ws[0].ControlFrame? then 1 else 0) + Controls(ws[1..])
  }

  lemma {:induction false} ControlsOfConcat(a: seq<Wire>, b: seq<Wire>)
    ensures Controls(a + b) == Controls(a) + Controls(b)
  {
    if a == [] {
      assert a + b == b;
    } else {
      assert (a + b)[1..] == a[1..] + b;
      ControlsOfConcat(a[1..], b);
    }
  }

  lemma {:induction false} ControlsOfFrames(ds: seq<Data>)
    ensures Controls(Frames(ds)) == 0
  {
    if ds != [] {
      assert Frames(ds)[1..] == Frames(ds[1..]);
      ControlsOfFrames(ds[1..]);
    }
  }

  lemma ControlsOfScript(side: Side, ds: seq<Data>, open: bool, close: bool)
    ensures Controls(Script(side, ds, open, close))
         == (if side.Opener? && open then 1 else 0) + (if close then 1 else 0)
  {
    var head := if side.Opener? && open then [OPEN] else [];
    var tail := if close then [CLOSE] else [];
    ControlsOfConcat(head + Frames(ds), tail);
    ControlsOfConcat(head, Frames(ds));
    ControlsOfFrames(ds);
    assert [OPEN][1..] == [] && [CLOSE][1..] == [];
  }

  /** What comes first in a script is a script. */
  lemma ScriptPrefix(side: Side, ds: seq<Data>, open: bool, close: bool, n: nat)
    returns (ds': seq<Data>, open': bool, close': bool)
    requires n <= |Script(side, ds, open, close)| && (ds != [] || close ==> side.Acceptor? || open)
    ensures Script(side, ds, open, close)[..n] == Script(side, ds', open', close')
    ensures (close' ==> n == |Script(side, ds, open, close)|) && (ds' != [] || close' ==> side.Acceptor? || open')
    ensures n > 0 && side.Opener? ==> open'
    ensures n == 0 ==> ds' == [] && !open' && !close'
  {
    var h := if side.Opener? && open then 1 else 0;
    if n < h || n == 0 {
      return [], false, false;
    }
    if n - h <= |ds| {
      assert Frames(ds)[..n - h] == Frames(ds[..n - h]);
      return ds[..n - h], open, false;
    }
    return ds, open, close;
  }

  /** What is still to be heard of a script of which a part without its CLOSE has been heard. */
  lemma AfterHeard(
    side: Side, r: seq<Data>, o: bool, ds: seq<Data>, open: bool, close: bool, inbox: seq<Wire>, tail: seq<Wire>)
    requires Script(side, r, o, false) + inbox <= Script(side, ds, open, close) + tail
    requires r <= ds && (side.Opener? ==> o == open) && (close || tail == [])
    ensures inbox <= Script(Acceptor, ds[|r|..], false, close) + tail
  {
    var got, rest := Script(side, r, o, false), Script(Acceptor, ds[|r|..], false, close);
    assert Frames(ds) == Frames(r) + Frames(ds[|r|..]);
    assert Script(side, ds, open, close) == got + rest;
    Cancelled(got, inbox, rest, tail);
  }

  lemma Cancelled(got: seq<Wire>, inbox: seq<Wire>, rest: seq<Wire>, tail: seq<Wire>)
    requires got + inbox <= (got + rest) + tail
    ensures inbox <= rest + tail
  {
    assert (got + rest) + tail == got + (rest + tail);
    assert inbox == (got + inbox)[|got|..];
    assert (got + (rest + tail))[|got|..] == rest + tail;
  }

  /** Whether a flush of these messages ends as it would have, had they come one by one. */
  predicate FlushFaithful(c: Chan, ws: seq<Wire>) {
    Flush(c, ws) == Stepwise(c, ws)
  }

  /** An end that awaits its next session. */
  lemma ClosedFlush(side: Side, x: End, y: End, n: nat)
    requires Good(side, x, y) && y.Up() && y.chan.state.Closed? && n <= |y.inbox|
    ensures FlushFaithful(y.chan, y.inbox[..n]) <==> Controls(y.inbox[..n]) <= 1
  {
    var ws := y.inbox[..n];
    if n > 0 {
      assert Heard(side, y) + y.inbox == y.inbox;
      assert ws == Said(side, x)[..n];
      var ds, open, close := ScriptPrefix(side, x.cur.sent, x.cur.openSent, x.cur.closes > 0, n);
      FlushFromFresh(ds, close);
      ControlsOfScript(side, ds, open, close);
    }
  }

  lemma OpenFlush(side: Side, x: End, y: End, n: nat)
    requires Good(side, x, y) && y.Up() && y.chan.state.Open? && n <= |y.inbox|
    ensures FlushFaithful(y.chan, y.inbox[..n]) && Controls(y.inbox[..n]) <= 1
  {
    if n > 0 {
      var left := x.cur.sent[|y.cur.rcvd|..];
      assert Said(side, x) + [] == Said(side, x);
      AfterHeard(side, y.cur.rcvd, y.cur.openSeen, x.cur.sent, x.cur.openSent, x.cur.closes > 0, y.inbox, []);
      var all := Script(Acceptor, left, false, x.cur.closes > 0);
      assert all + [] == all && y.inbox[..n] == all[..n];
      var ds, _, close := ScriptPrefix(Acceptor, left, false, x.cur.closes > 0, n);
      ScriptWithoutOpen(ds, close);
      FlushWhileOpen(y.chan, ds, close);
      ControlsOfScript(Acceptor, ds, false, close);
    }
  }

  lemma ScriptWithoutOpen(ds: seq<Data>, close: bool)
    ensures Script(Acceptor, ds, true, close) == Script(Acceptor, ds, false, close)
  {
  }

  /** What an end that called close() still has to receive: the rest of this session, then the peer's next one. */
  lemma ClosingInbox(side: Side, x: End, y: End) returns (left: seq<Data>, close: bool, next: seq<Wire>)
    requires Good(side, x, y) && y.Up() && y.chan.state.Closing? && y.chan.ackAfter.None?
    ensures y.inbox <= Script(Acceptor, left, false, close) + next
    ensures close || next == []
    ensures next != [] ==>
              side.Opener? && x.cur.openSent && next == Script(Opener, x.cur.sent, true, x.cur.closes > 0)
  {
    if y.inbox == [] {
      return [], false, [];
    }
    var r, o := y.cur.rcvd, y.cur.openSeen;
    if x.Epoch() == y.Epoch() {
      left, close, next := x.cur.sent[|r|..], x.cur.closes > 0, [];
      assert Said(side, x) + [] == Said(side, x);
      AfterHeard(side, r, o, x.cur.sent, x.cur.openSent, close, y.inbox, []);
    } else {
      var sent := x.past[y.Epoch()].sent;
      left, close, next := sent[|r|..], true, Said(side, x);
      AfterHeard(side, r, o, sent, true, true, y.inbox, next);
    }
  }

  lemma TakePrefix(a: seq<Wire>, b: seq<Wire>, inbox: seq<Wire>, n: nat)
    requires inbox <= a + b && n <= |inbox|
    ensures inbox[..n] == if n <= |a| then a[..n] else a + b[..n - |a|]
  {
  }

  lemma ClosingFlush(side: Side, x: End, y: End, n: nat)
    requires Good(side, x, y) && y.Up() && y.chan.state.Closing? && y.chan.ackAfter.None? && n <= |y.inbox|
    ensures FlushFaithful(y.chan, y.inbox[..n]) <==> Controls(y.inbox[..n]) <= 1
  {
    var left, close, next := ClosingInbox(side, x, y);
    var first := Script(Acceptor, left, false, close);
    TakePrefix(first, next, y.inbox, n);
    if n <= |first| {
      var ds, _, close' := ScriptPrefix(Acceptor, left, false, close, n);
      ScriptWithoutOpen(ds, close');
      FlushWhileClosing(y.chan, ds, close');
      ControlsOfScript(Acceptor, ds, false, close');
    } else {
      var more, _, close' := ScriptPrefix(Opener, x.cur.sent, true, x.cur.closes > 0, n - |first|);
      FlushBeyondClose(y.chan, left, more, close');
      ControlsOfConcat(first, Script(Opener, more, true, close'));
      ControlsOfScript(Acceptor, left, false, true);
      ControlsOfScript(Opener, more, true, close');
    }
  }

  /**
   The step assumption is needed exactly where two control messages meet: whatever an end finds in one flush, in
   any reachable state, it ends as if the messages had come one by one if and only if at most one of them is a
   control message. Otherwise the later one is lost: the CLOSE after an OPEN, or the OPEN after a CLOSE.
   */
  lemma FlushIsStepwise(s: Sys, side: Side, n: nat)
    requires Reachable(s) && s.Get(side).Up() && n <= |s.Get(side).inbox|
    ensures var y := s.Get(side);
            FlushFaithful(y.chan, y.inbox[..n]) <==> Controls(y.inbox[..n]) <= 1
  {
    ReachableInv(s);
    var y, x := s.Get(side), s.Get(Peer(side));
    match y.chan.state
    case Closed => ClosedFlush(Peer(side), x, y, n);
    case Open => OpenFlush(Peer(side), x, y, n);
    case Closing =>
      if y.chan.ackAfter.None? {
        ClosingFlush(Peer(side), x, y, n);
      } else {
        assert y.inbox[..n] == [];
      }
  }

  /** Both ends open, nothing sent yet. */
  lemma BothOpen(s2: Sys)
    requires s2 == Sys(End(Chan(Open, [], None, Settled, Pending), [], [], NEW_SESSION.(openSent := true)),
                       End(Chan(Open, [], None, Settled, Pending), [], [], NEW_SESSION.(openSeen := true)))
    ensures Reachable(s2)
  {
    assert FRESH_END.inbox + [OPEN] == [OPEN] && [OPEN][1..] == [];
    var s1 := Sys(s2.opener, FRESH_END.(inbox := [OPEN]));
    ReachableNext(INITIAL, OpenChannel, s1);
    ReachableNext(s1, Deliver(Acceptor), s2);
  }

  /** One datum delivered to the acceptor, not handled yet. */
  lemma OneDatumDelivered(d: Data, s4: Sys)
    requires s4 == Sys(End(Chan(Open, [], None, Settled, Pending), [], [], NEW_SESSION.(openSent := true, sent := [d])),
                       End(Chan(Open, [d], None, Settled, Pending), [], [],
                           NEW_SESSION.(openSeen := true, rcvd := [d])))
    ensures Reachable(s4)
  {
    var w := Frame(d);
    var open := Chan(Open, [], None, Settled, Pending);
    var s2 := Sys(End(open, [], [], NEW_SESSION.(openSent := true)), End(open, [], [], NEW_SESSION.(openSeen := true)));
    BothOpen(s2);
    assert [] + [d] == [d] && [] + [w] == [w] && [w][1..] == [];
    var s3 := Sys(s4.opener, s2.acceptor.(inbox := [w]));
    ReachableNext(s2, AppSend(Opener, d), s3);
    ReachableNext(s3, Deliver(Acceptor), s4);
  }

  /**
   An end that calls close() itself may drop what it has not handled: both ends close, and the
   opener's datum, delivered but not handled, is left in the acceptor's old queue.
   */
  lemma CrossingCloseDrops(d: Data)
    ensures exists s ::
              && Reachable(s) && s.opener.Epoch() == 1 && s.acceptor.Epoch() == 1
              && s.opener.past[0].sent == [d] && s.acceptor.past[0].handled == []
              && s.acceptor.past[0].dropped == [d]
  {
    var open := Chan(Open, [], None, Settled, Pending);
    var s4 := Sys(End(open, [], [], NEW_SESSION.(openSent := true, sent := [d])),
                  End(open.(queue := [d]), [], [], NEW_SESSION.(openSeen := true, rcvd := [d])));
    OneDatumDelivered(d, s4);
    assert [] + [CLOSE] == [CLOSE] && [CLOSE][1..] == [];
    var closing := open.(state := Closing);
    var s5 := Sys(End(closing, [], [], s4.opener.cur.(closes := 1, initiated := true)), s4.acceptor.(inbox := [CLOSE]));
    ReachableNext(s4, AppClose(Opener), s5);
    var s6 := Sys(s5.opener.(inbox := [CLOSE]),
                  End(closing.(queue := [d]), [CLOSE], [], s5.acceptor.cur.(closes := 1, initiated := true)));
    ReachableNext(s5, AppClose(Acceptor), s6);
    var s7 := Sys(s6.opener, End(FRESH_CHAN, [], [s6.acceptor.cur.(closeSeen := true, dropped := [d])], NEW_SESSION));
    ReachableNext(s6, Deliver(Acceptor), s7);
    var s8 := Sys(End(FRESH_CHAN, [], [s7.opener.cur.(closeSeen := true, dropped := [])], NEW_SESSION), s7.acceptor);
    ReachableNext(s7, Deliver(Opener), s8);
  }
}
