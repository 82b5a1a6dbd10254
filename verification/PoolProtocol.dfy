/**
 The channel-reuse protocol: two PoolChannels, an opener and an acceptor, run any
 number of sessions over one real channel.

 Assumptions: each direction of the real channel is reliable and in order while
 both ends of it are up; the callbacks of one received message run before the next
 message is received; sending an acknowledgement and fulfilling onceClosed are one step.
 Applications may send, close and handle messages at any time, in any order.
 */
module PoolProtocol {
  import opened Basics
  import opened PoolChannels

  datatype Side = Opener | Acceptor

  function Peer(side: Side): Side {
    if side.Opener? then Acceptor else Opener
  }

  /**
   What one end did in one session, kept for the proofs only: what it sent, what
   entered its dataFromPeerQueue, what its handlers took from it and what was left in
   that queue when the session ended; the control messages sent and seen; and whether
   its application called close().
   */
  datatype Session = Session(
    sent: seq<Data>,
    rcvd: seq<Data>,
    handled: seq<Data>,
    dropped: seq<Data>,
    openSent: bool,
    openSeen: bool,
    closes: nat,
    closeSeen: bool,
    initiated: bool)

  const NEW_SESSION := Session([], [], [], [], false, false, 0, false, false)

  /** One end: its channel, the messages on their way to it, and its sessions so far. */
  datatype End = End(chan: Chan, inbox: seq<Wire>, past: seq<Session>, cur: Session)
  {
    predicate Up() { !chan.state.PermanentlyClosed? }

    function Epoch(): nat { |past| }

    /** Session k, where 0 <= k <= Epoch(). */
    function At(k: nat): Session
      requires k <= Epoch()
    {
      if k < |past| then past[k] else cur
    }
  }

  datatype Sys = Sys(opener: End, acceptor: End)
  {
    function Get(side: Side): End {
      if side.Opener? then opener else acceptor
    }

    /** The system with the given end at `side` and the other one at its peer. */
    static function Make(side: Side, x: End, y: End): Sys {
      if side.Opener? then Sys(x, y) else Sys(y, x)
    }
  }

  const FRESH_END := End(FRESH_CHAN, [], [], NEW_SESSION)
  const INITIAL := Sys(FRESH_END, FRESH_END)

  datatype Action =
    | OpenChannel
    | AppSend(side: Side, data: Data)
    | AppClose(side: Side)
    | Deliver(side: Side)
    | Handle(side: Side)
    | SendAck(side: Side)
    | UnderlyingClose(side: Side)
    | LoseTail(side: Side, keep: nat)

  /** A message reaches the peer's inbox unless the peer's end of the real channel is gone. */
  function Transmit(y: End, ws: seq<Wire>): End {
    if y.Up() then y.(inbox := y.inbox + ws) else y
  }

  /** Runs the callbacks and, when they renew the channel, starts the next session. */
  function SettleEnd(x: End): End {
    if Renews(x.chan) then
      End(Settle(x.chan), x.inbox, x.past + [x.cur.(dropped := x.chan.queue)], NEW_SESSION)
    else
      x.(chan := Settle(x.chan))
  }

  /** The logs after one message has been received. */
  function Received(cur: Session, w: Wire): Session {
    match w
    case DataFrame(s) => cur.(rcvd := cur.rcvd + [Str(s)])
    case Raw(d) => cur.(rcvd := cur.rcvd + [d])
    case ControlFrame(name) =>
      if name == OPEN_NAME then cur.(openSeen := true)
      else if name == CLOSE_NAME then cur.(closeSeen := true)
      else cur
    case _ => cur
  }

  /** The two ends after the end x, whose peer is y, has taken the action. */
  function Step(x: End, y: End, a: Action): (End, End) {
    match a
    case OpenChannel =>
      // LocalPool opens only the channels of its pool, which are closed.
      if !x.chan.state.Closed? then (x, y)
      else
        var (c, ws) := OpenChan(x.chan);
        (SettleEnd(x.(chan := c, cur := x.cur.(openSent := true))), Transmit(y, ws))
    case AppSend(_, d) =>
      if !x.chan.state.Open? then (x, y)
      else (x.(cur := x.cur.(sent := x.cur.sent + [d])), Transmit(y, SendData(x.chan, d)))
    case AppClose(_) =>
      if !x.chan.state.Open? then (x, y)
      else
        var (c, ws) := CloseChan(x.chan);
        (x.(chan := c, cur := x.cur.(closes := x.cur.closes + 1, initiated := true)), Transmit(y, ws))
    case Deliver(_) =>
      if x.inbox == [] || !x.Up() then (x, y)
      else
        (SettleEnd(End(OnDataFromPeer(x.chan, x.inbox[0]), x.inbox[1..], x.past, Received(x.cur, x.inbox[0]))), y)
    case Handle(_) =>
      if x.chan.queue == [] then (x, y)
      else (x.(chan := HandleHead(x.chan), cur := x.cur.(handled := x.cur.handled + [x.chan.queue[0]])), y)
    case SendAck(_) =>
      if !AckReady(x.chan) then (x, y)
      else (SettleEnd(x.(chan := Ack(x.chan), cur := x.cur.(closes := x.cur.closes + 1))), Transmit(y, [CLOSE]))
    case UnderlyingClose(_) =>
      (SettleEnd(x.(chan := UnderlyingClosed(x.chan), inbox := [])), y)
    case LoseTail(_, keep) =>
      // Only what a dead end had sent can be lost.
      if y.Up() || keep > |x.inbox| then (x, y) else (x.(inbox := x.inbox[..keep]), y)
  }

  function Actor(a: Action): Side {
    match a
    case OpenChannel => Opener
    case _ => a.side
  }

  function Next(s: Sys, a: Action): Sys {
    var side := Actor(a);
    var (x, y) := Step(s.Get(side), s.Get(Peer(side)), a);
    Sys.Make(side, x, y)
  }

  /** The state after a run. Every sequence of actions is a run: one that is not enabled does nothing. */
  function Run(s: Sys, actions: seq<Action>): Sys
    decreases |actions|
  {
    if actions == [] then s else Run(Next(s, actions[0]), actions[1..])
  }

  // ---------------------------------------------------------------- What is on the wire

  function Frames(ds: seq<Data>): seq<Wire> {
    seq(|ds|, i requires 0 <= i < |ds| => Frame(ds[i]))
  }

  /** Everything that an end says in one session. Only the opener says OPEN. */
  function Script(side: Side, ds: seq<Data>, open: bool, close: bool): seq<Wire> {
    (if side.Opener? && open then [OPEN] else []) + Frames(ds) + (if close then [CLOSE] else [])
  }

  /** What x has said in its current session. */
  function Said(side: Side, x: End): seq<Wire> {
    Script(side, x.cur.sent, x.cur.openSent, x.cur.closes > 0)
  }

  /** What y has heard of its peer `side` in y's current session. */
  function Heard(side: Side, y: End): seq<Wire> {
    Script(side, y.cur.rcvd, y.cur.openSeen, y.cur.closeSeen)
  }

  /** `got` is all of `all`, or a part of it that comes first when the sender is gone. */
  predicate Accounts(got: seq<Wire>, all: seq<Wire>, whole: bool) {
    if whole then got == all else got <= all
  }

  // ---------------------------------------------------------------- Invariant

  predicate PastOk(side: Side, p: Session) {
    && p.closes == 1
    && p.closeSeen
    && (side.Opener? ==> p.openSent)
    && p.handled + p.dropped == p.rcvd
    && (!p.initiated ==> p.dropped == [])
  }

  predicate EndOk(side: Side, x: End) {
    && !x.chan.onceOpened.Fulfilled?
    && (if x.Up() then x.chan.onceClosed.Pending? else x.chan.onceClosed.Settled?)
    && x.cur.handled + x.chan.queue == x.cur.rcvd
    && (x.Up() ==>
          match x.chan.state
          case Closed =>
            x.chan.onceOpened.Pending? && x.chan.ackAfter == None && x.cur == NEW_SESSION
          case Open =>
            x.chan.onceOpened.Settled? && x.chan.ackAfter == None && !x.cur.initiated &&
            x.cur.closes == 0 && !x.cur.closeSeen
          case Closing =>
            x.chan.onceOpened.Settled? &&
            (if x.chan.ackAfter.None? then x.cur.initiated && x.cur.closes == 1 && !x.cur.closeSeen
             else x.chan.ackAfter == Some(|x.chan.queue|) && !x.cur.initiated && x.cur.closes == 0 && x.cur.closeSeen))
    && (x.Up() ==>
          if side.Opener? then x.cur.openSent == !x.chan.state.Closed?
          else x.cur.openSeen == !x.chan.state.Closed?)
    && (if side.Opener? then !x.cur.openSeen else !x.cur.openSent)
    && x.cur.closes <= 1
    && (x.cur.closes == 1 ==> x.cur.initiated)
    && (x.cur.sent != [] || x.cur.closes > 0 ==> x.cur.openSent || x.cur.openSeen)
    && (forall k :: 0 <= k < |x.past| ==> PastOk(side, x.past[k]))
    && (!x.Up() ==> x.inbox == [])
  }

  /** The direction from x, which is at `side`, to y. */
  predicate LinkOk(side: Side, x: End, y: End) {
    && x.Epoch() <= y.Epoch() + 1
    && y.Epoch() <= x.Epoch() + 1
    && (forall k :: 0 <= k < |x.past| && k < |y.past| ==> x.past[k].sent == y.past[k].rcvd)
    && (if x.Epoch() == y.Epoch() then
          && y.cur.rcvd <= x.cur.sent
          && (y.cur.openSeen ==> x.cur.openSent)
          && (y.cur.closeSeen ==> x.cur.closes == 1 && y.cur.rcvd == x.cur.sent && y.inbox == [])
          && (y.Up() ==> Accounts(Heard(side, y) + y.inbox, Said(side, x), x.Up()))
        else if x.Epoch() == y.Epoch() + 1 then
          && y.cur.rcvd <= x.past[y.Epoch()].sent
          && y.cur.initiated
          && (y.Up() ==>
                && y.chan.state.Closing? && y.chan.ackAfter.None?
                && Accounts(Heard(side, y) + y.inbox,
                            Script(side, x.past[y.Epoch()].sent, true, true) + Said(side, x), x.Up()))
        else
          && x.cur.sent == y.past[x.Epoch()].rcvd
          && x.cur.closes == 1
          && y.inbox == [] && y.cur.rcvd == [] && !y.cur.openSeen && !y.cur.closeSeen)
  }

  predicate Good(side: Side, x: End, y: End) {
    && EndOk(side, x) && EndOk(Peer(side), y)
    && LinkOk(side, x, y) && LinkOk(Peer(side), y, x)
  }

  predicate Inv(s: Sys) {
    Good(Opener, s.opener, s.acceptor)
  }

  // ---------------------------------------------------------------- Reading a script

  lemma ScriptGrows(side: Side, ds: seq<Data>, d: Data, open: bool)
    ensures Script(side, ds + [d], open, false) == Script(side, ds, open, false) + [Frame(d)]
    ensures Script(side, ds, open, true) == Script(side, ds, open, false) + [CLOSE]
  {
    assert Frames(ds + [d]) == Frames(ds) + [Frame(d)];
  }

  /**
   What can come next: with `got` heard, a message w that agrees with the script is the
   OPEN, the next datum, or the CLOSE after the last datum.
   */
  lemma NextHeard(side: Side, r: seq<Data>, o: bool, c: bool, w: Wire, rest: seq<Wire>,
                  ds: seq<Data>, open: bool, close: bool, tail: seq<Wire>)
    requires Script(side, r, o, c) + [w] + rest <= Script(side, ds, open, close) + tail
    requires r <= ds
    requires o ==> open
    requires close || tail == []
    requires c ==> r == ds && tail == []
    ensures !c
    ensures w == OPEN || w == CLOSE || (|r| < |ds| && w == Frame(ds[|r|]))
    ensures w == OPEN ==> side.Opener? && open && !o && r == []
    ensures w != OPEN ==> side.Opener? && open ==> o
    ensures w == CLOSE ==> close && r == ds && rest <= tail
    ensures w == CLOSE && Script(side, r, o, c) + [w] + rest == Script(side, ds, open, close) + tail ==> rest == tail
  {
    var got := Script(side, r, o, c);
    var all := Script(side, ds, open, close) + tail;
    var h := if side.Opener? && o then 1 else 0;
    var H := if side.Opener? && open then 1 else 0;
    assert |got| == h + |r| + (if c then 1 else 0);
    assert (got + [w] + rest)[|got|] == w == all[|got|];
    if h < H {
      assert all[0] == OPEN;
    } else {
      assert !c;
      if |r| < |ds| {
        assert all[|got|] == Frame(ds[|r|]);
      } else {
        assert close;
        assert all[|got|] == CLOSE;
        assert Script(side, ds, open, close) == got + [w];
        assert (got + [w] + rest)[|got| + 1..] == rest;
        assert all[|got| + 1..] == tail;
      }
    }
  }

  // ---------------------------------------------------------------- Every action keeps the invariant

  /** Appending w to what is on its way to y and to what x has said. */
  lemma SaysMore(side: Side, x: End, y: End, w: Wire)
    ensures Heard(side, y) + (y.inbox + [w]) == (Heard(side, y) + y.inbox) + [w]
    ensures x.Epoch() == y.Epoch() + 1 ==>
              var before := Script(side, x.past[y.Epoch()].sent, true, true);
              before + (Said(side, x) + [w]) == (before + Said(side, x)) + [w]
  {
  }

  lemma OpenKeeps(x: End, y: End)
    requires Good(Opener, x, y)
    ensures var (x', y') := Step(x, y, OpenChannel); Good(Opener, x', y')
  {
    SaysMore(Opener, x, y, OPEN);
  }

  lemma SendKeeps(side: Side, x: End, y: End, d: Data)
    requires Good(side, x, y)
    ensures var (x', y') := Step(x, y, AppSend(side, d)); Good(side, x', y')
  {
    ScriptGrows(side, x.cur.sent, d, x.cur.openSent);
    SaysMore(side, x, y, Frame(d));
  }

  lemma CloseKeeps(side: Side, x: End, y: End)
    requires Good(side, x, y)
    ensures var (x', y') := Step(x, y, AppClose(side)); Good(side, x', y')
  {
    ScriptGrows(side, x.cur.sent, Str(""), x.cur.openSent);
    SaysMore(side, x, y, CLOSE);
  }

  lemma HandleKeeps(side: Side, x: End, y: End)
    requires Good(side, x, y)
    ensures var (x', y') := Step(x, y, Handle(side)); Good(side, x', y')
  {
  }

  lemma UnderlyingCloseKeeps(side: Side, x: End, y: End)
    requires Good(side, x, y)
    ensures var (x', y') := Step(x, y, UnderlyingClose(side)); Good(side, x', y')
  {
  }

  lemma LoseKeeps(side: Side, x: End, y: End, keep: nat)
    requires Good(side, x, y)
    ensures var (x', y') := Step(x, y, LoseTail(side, keep)); Good(side, x', y')
  {
  }

  lemma AckKeeps(side: Side, x: End, y: End)
    requires Good(side, x, y)
    ensures var (x', y') := Step(x, y, SendAck(side)); Good(side, x', y')
  {
    if AckReady(x.chan) {
      assert x.Epoch() == y.Epoch();
      ScriptGrows(side, x.cur.sent, Str(""), x.cur.openSent);
    }
  }

  /** What a message on its way to y can be. */
  lemma HeadOfInbox(side: Side, x: End, y: End)
    requires Good(side, x, y)
    requires y.Up() && y.inbox != []
    ensures y.inbox[0] == OPEN ==> side.Opener? && y.chan.state.Closed? && x.Epoch() == y.Epoch()
    ensures y.inbox[0] == CLOSE ==> y.chan.state.Open? || (y.chan.state.Closing? && y.chan.ackAfter.None?)
    ensures y.inbox[0] == CLOSE ==> y.cur.rcvd == x.At(y.Epoch()).sent
    ensures y.inbox[0] != OPEN && y.inbox[0] != CLOSE ==>
              && !y.chan.state.Closed? && !y.cur.closeSeen
              && |y.cur.rcvd| < |x.At(y.Epoch()).sent|
              && y.inbox[0] == Frame(x.At(y.Epoch()).sent[|y.cur.rcvd|])
  {
    var w, rest := y.inbox[0], y.inbox[1..];
    assert Heard(side, y) + y.inbox == Heard(side, y) + [w] + rest;
    if x.Epoch() == y.Epoch() {
      NextHeard(side, y.cur.rcvd, y.cur.openSeen, y.cur.closeSeen, w, rest,
                x.cur.sent, x.cur.openSent, x.cur.closes > 0, []);
    } else {
      NextHeard(side, y.cur.rcvd, y.cur.openSeen, y.cur.closeSeen, w, rest,
                x.past[y.Epoch()].sent, true, true, Said(side, x));
    }
  }

  lemma DeliverOpenKeeps(x: End, y: End)
    requires Good(Opener, x, y)
    requires y.Up() && y.inbox != [] && y.inbox[0] == OPEN
    ensures Good(Opener, x, Step(y, x, Deliver(Acceptor)).0)
  {
    HeadOfInbox(Opener, x, y);
    var y' := Step(y, x, Deliver(Acceptor)).0;
    assert Heard(Opener, y') + y'.inbox == y.inbox;
    assert Heard(Opener, y) == [];
  }

  /** Receiving d: it joins the queue, and nothing else changes. */
  lemma DeliverDataEffect(side: Side, y: End, d: Data)
    requires EndOk(side, y)
    requires y.Up() && y.inbox != [] && y.inbox[0] == Frame(d)
    ensures Step(y, y, Deliver(side)).0 ==
            End(y.chan.(queue := y.chan.queue + [d]), y.inbox[1..], y.past, y.cur.(rcvd := y.cur.rcvd + [d]))
  {
  }

  /** What y has heard grows by what it has received. */
  lemma DatumHeard(side: Side, y: End, d: Data)
    requires !y.cur.closeSeen && y.inbox != [] && y.inbox[0] == Frame(d)
    ensures Script(side, y.cur.rcvd + [d], y.cur.openSeen, false) + y.inbox[1..] == Heard(side, y) + y.inbox
  {
    ScriptGrows(side, y.cur.rcvd, d, y.cur.openSeen);
    assert y.inbox == [Frame(d)] + y.inbox[1..];
  }

  lemma DeliverDataKeeps(side: Side, x: End, y: End)
    requires Good(side, x, y)
    requires y.Up() && y.inbox != [] && y.inbox[0] != OPEN && y.inbox[0] != CLOSE
    ensures Good(side, x, Step(y, x, Deliver(Peer(side))).0)
  {
    HeadOfInbox(side, x, y);
    var d := x.At(y.Epoch()).sent[|y.cur.rcvd|];
    DeliverDataEffect(Peer(side), y, d);
    var y' := End(y.chan.(queue := y.chan.queue + [d]), y.inbox[1..], y.past, y.cur.(rcvd := y.cur.rcvd + [d]));
    assert Step(y, x, Deliver(Peer(side))).0 == y';
    DatumHeard(side, y, d);
    assert EndOk(Peer(side), y');
    assert LinkOk(side, x, y');
  }

  /** A CLOSE that meets an open channel: the receiver now owes an acknowledgement. */
  lemma DeliverFirstCloseKeeps(side: Side, x: End, y: End)
    requires Good(side, x, y)
    requires y.Up() && y.inbox != [] && y.inbox[0] == CLOSE && y.chan.state.Open?
    ensures Good(side, x, Step(y, x, Deliver(Peer(side))).0)
  {
    HeadOfInbox(side, x, y);
    var y' := Step(y, x, Deliver(Peer(side))).0;
    ScriptGrows(side, y.cur.rcvd, Str(""), y.cur.openSeen);
    assert x.Epoch() == y.Epoch();
    assert Heard(side, y) + y.inbox == Heard(side, y) + [CLOSE] + y'.inbox;
    NextHeard(side, y.cur.rcvd, y.cur.openSeen, y.cur.closeSeen, CLOSE, y'.inbox,
              x.cur.sent, x.cur.openSent, x.cur.closes > 0, []);
    assert Heard(side, y') + y'.inbox == Heard(side, y) + y.inbox;
  }

  /** Receiving the CLOSE that answers, or crosses, y's own: y starts a new session. */
  lemma DeliverLastCloseEffect(side: Side, y: End)
    requires EndOk(side, y)
    requires y.Up() && y.inbox != [] && y.inbox[0] == CLOSE && y.chan.state.Closing?
    requires y.chan.ackAfter.None?
    ensures Step(y, y, Deliver(side)).0 ==
            End(FRESH_CHAN, y.inbox[1..],
                y.past + [y.cur.(closeSeen := true, dropped := y.chan.queue)], NEW_SESSION)
  {
  }

  lemma DeliverLastCloseKeeps(side: Side, x: End, y: End)
    requires Good(side, x, y)
    requires y.Up() && y.inbox != [] && y.inbox[0] == CLOSE && y.chan.state.Closing?
    ensures Good(side, x, Step(y, x, Deliver(Peer(side))).0)
  {
    HeadOfInbox(side, x, y);
    DeliverLastCloseEffect(Peer(side), y);
    var y' := End(FRESH_CHAN, y.inbox[1..],
                  y.past + [y.cur.(closeSeen := true, dropped := y.chan.queue)], NEW_SESSION);
    assert Step(y, x, Deliver(Peer(side))).0 == y';
    LastCloseRest(side, x, y);
    assert Heard(side, y') + y'.inbox == y'.inbox;
    assert EndOk(Peer(side), y');
    assert LinkOk(side, x, y');
  }

  /** After y's last CLOSE, what is on its way is what x has said in the next session, if anything. */
  lemma LastCloseRest(side: Side, x: End, y: End)
    requires Good(side, x, y)
    requires y.Up() && y.inbox != [] && y.inbox[0] == CLOSE && y.chan.state.Closing?
    ensures if x.Epoch() == y.Epoch() then y.inbox[1..] == [] else Accounts(y.inbox[1..], Said(side, x), x.Up())
  {
    HeadOfInbox(side, x, y);
    var rest := y.inbox[1..];
    assert Heard(side, y) + y.inbox == Heard(side, y) + [CLOSE] + rest;
    if x.Epoch() == y.Epoch() {
      NextHeard(side, y.cur.rcvd, y.cur.openSeen, y.cur.closeSeen, CLOSE, rest,
                x.cur.sent, x.cur.openSent, x.cur.closes > 0, []);
    } else {
      NextHeard(side, y.cur.rcvd, y.cur.openSeen, y.cur.closeSeen, CLOSE, rest,
                x.past[y.Epoch()].sent, true, true, Said(side, x));
    }
  }

  lemma DeliverKeeps(side: Side, x: End, y: End)
    requires Good(side, x, y)
    ensures Good(side, x, Step(y, x, Deliver(Peer(side))).0)
  {
    if y.inbox != [] && y.Up() {
      HeadOfInbox(side, x, y);
      if y.inbox[0] == OPEN {
        DeliverOpenKeeps(x, y);
      } else if y.inbox[0] != CLOSE {
        DeliverDataKeeps(side, x, y);
      } else if y.chan.state.Open? {
        DeliverFirstCloseKeeps(side, x, y);
      } else {
        DeliverLastCloseKeeps(side, x, y);
      }
    }
  }

  lemma StepKeeps(side: Side, x: End, y: End, a: Action)
    requires Good(side, x, y)
    requires side == Actor(a)
    ensures Good(side, Step(x, y, a).0, Step(x, y, a).1)
  {
    match a
    case OpenChannel => OpenKeeps(x, y);
    case AppSend(_, d) => SendKeeps(side, x, y, d);
    case AppClose(_) => CloseKeeps(side, x, y);
    case Deliver(_) => DeliverKeeps(Peer(side), y, x);
    case Handle(_) => HandleKeeps(side, x, y);
    case SendAck(_) => AckKeeps(side, x, y);
    case UnderlyingClose(_) => UnderlyingCloseKeeps(side, x, y);
    case LoseTail(_, keep) => LoseKeeps(side, x, y, keep);
  }

  lemma NextKeeps(s: Sys, a: Action)
    requires Inv(s)
    ensures Inv(Next(s, a))
  {
    StepKeeps(Actor(a), s.Get(Actor(a)), s.Get(Peer(Actor(a))), a);
  }

  lemma {:induction false} RunKeeps(s: Sys, actions: seq<Action>)
    requires Inv(s)
    ensures Inv(Run(s, actions))
    decreases |actions|
  {
    if actions != [] {
      NextKeeps(s, actions[0]);
      RunKeeps(Next(s, actions[0]), actions[1..]);
    }
  }
}
