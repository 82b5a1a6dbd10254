/** tcp.Connection as a client of Counter: which calls it wraps, and when its socket is destroyed. */
module TcpConnections {
  import opened Basics
  import opened Counters

  datatype CloseKind = WeClosedIt | RemotelyClosed | NeverConnected | Unknown

  datatype State = Connecting | Connected | Closed

  /** The reason in a disconnect notification, which may be missing. */
  datatype Info = NoInfo | Errcode(code: string)

  function KindOf(info: Info): CloseKind {
    if info == Errcode("SUCCESS") then WeClosedIt
    else if info == Errcode("CONNECTION_CLOSED") then RemotelyClosed
    else Unknown
  }

  /**
   `connecting` while the call that onceConnected awaits is outstanding; `handling` while
   dataToSocketQueue has its handler; `queue` is what it holds, `written` what it gave to the socket.
   */
  datatype Conn = Conn(
    state: State,
    connecting: bool,
    handling: bool,
    queue: seq<seq<byte>>,
    written: seq<seq<byte>>,
    count: Count,
    info: Info,
    onceClosed: Option<CloseKind>)

  /** A connection to an endpoint, or one to a socket that is connected already. */
  function Begun(existing: bool): Conn {
    Conn(if existing then Connected else Connecting, true, false, [], [], Count(1, 0, Unsettled), NoInfo, None)
  }

  datatype Event =
    | ConnectDone(ok: bool)
    | CallDone
    | Send(bytes: seq<byte>)
    | PauseOrResume
    | Close
    | Disconnect(info: Info)

  function Starts(n: nat): seq<Call> {
    if n == 0 then [] else Starts(n - 1) + [Start]
  }

  /** The calls of the counter that an event leads to, in order. */
  function Calls(c: Conn, e: Event): seq<Call> {
    match e
    case ConnectDone(ok) => [Finish] + if ok then Starts(|c.queue|) else []
    case CallDone => [Finish]
    case Send(_) => if c.handling then [Start] else []
    case PauseOrResume => [Start]
    case Close => if c.state.Closed? then [] else [Start]
    case Disconnect(_) => if c.state.Closed? then [] else [Discard]
  }

  function Counted(c: Count, calls: seq<Call>): Count
    decreases |calls|
  {
    if calls == [] then c else Counted(Apply(c, calls[0], false), calls[1..])
  }

  function FulfilClosed(c: Conn, kind: CloseKind): Conn {
    if c.onceClosed.Some? then c else c.(onceClosed := Some(kind))
  }

  /** The callback that a disconnect attaches to onceDestroyed. */
  function RunDestroyed(c: Conn): Conn {
    if c.state.Closed? && c.count.onceDestroyed.Fulfilled? then FulfilClosed(c, KindOf(c.info)) else c
  }

  function OnConnected(c: Conn): Conn {
    c.(state := if c.state.Closed? then Closed else Connected,
       connecting := false, handling := true, queue := [], written := c.written + c.queue)
  }

  /** What an event does apart from the calls it makes. */
  function Update(c: Conn, e: Event): Conn {
    match e
    case ConnectDone(ok) =>
      if ok then OnConnected(c) else c.(connecting := false)
    case CallDone => c
    case Send(b) => if c.handling then c.(written := c.written + [b]) else c.(queue := c.queue + [b])
    case PauseOrResume => c
    case Close => c
    case Disconnect(info) =>
      if c.state.Closed? then c else c.(state := Closed, handling := false, queue := [], info := info)
  }

  function Step(c: Conn, e: Event): Conn {
    var c' := RunDestroyed(Update(c, e).(count := Counted(c.count, Calls(c, e))));
    if e == ConnectDone(false) then FulfilClosed(c', NeverConnected) else c'
  }

  class Connection {
    const counter_: Counter
    var state_: State
    var connecting: bool
    var handling: bool
    var dataToSocketQueue: seq<seq<byte>>
    var written: seq<seq<byte>>
    var info: Info
    var onceClosed: Option<CloseKind>

    predicate Valid()
      reads this
    {
      !counter_.throws
    }

    function View(): Conn
      reads this, counter_
    {
      Conn(state_, connecting, handling, dataToSocketQueue, written, counter_.View(), info, onceClosed)
    }

    constructor (existing: bool)
      ensures Valid() && fresh(counter_) && View() == Begun(existing)
    {
      var counter := new Counter(false);
      counter.Before();
      counter_ := counter;
      state_ := if existing then Connected else Connecting;
      connecting, handling, dataToSocketQueue, written := true, false, [], [];
      info, onceClosed := NoInfo, None;
    }

    method FulfilClosed_(kind: CloseKind)
      modifies `onceClosed
      ensures View() == FulfilClosed(old(View()), kind)
    {
      if onceClosed.None? {
        onceClosed := Some(kind);
      }
    }

    method RunOnceDestroyed()
      modifies `onceClosed
      ensures View() == RunDestroyed(old(View()))
    {
      if state_ == Closed && counter_.onceDestroyed == Fulfilled {
        FulfilClosed_(KindOf(info));
      }
    }

    method BeforeAll(n: nat)
      requires Valid()
      modifies counter_
      ensures counter_.View() == Counted(old(counter_.View()), Starts(n))
    {
      for i := 0 to n
        invariant counter_.View() == Counted(old(counter_.View()), Starts(i))
      {
        StartedOnce(old(counter_.View()), i);
        counter_.Before();
      }
    }

    /** The call that onceConnected awaits has settled. */
    method OnConnectDone(ok: bool)
      requires Valid()
      modifies this, counter_
      ensures Valid() && View() == Step(old(View()), ConnectDone(ok))
    {
      counter_.AfterCall();
      connecting := false;
      CountedOne(old(counter_.View()), Finish);
      if ok {
        state_ := if state_ == Closed then Closed else Connected;
        handling := true;
        var n := |dataToSocketQueue|;
        BeforeAll(n);
        written := written + dataToSocketQueue;
        dataToSocketQueue := [];
        FinishedThenStarts(old(counter_.View()), n);
      } else {
        assert [Finish] + [] == [Finish];
      }
      RunOnceDestroyed();
      if !ok {
        FulfilClosed_(NeverConnected);
      }
    }

    /** Another call has settled. */
    method OnCallDone()
      requires Valid()
      modifies this, counter_
      ensures Valid() && View() == Step(old(View()), CallDone)
    {
      counter_.AfterCall();
      CountedOne(old(counter_.View()), Finish);
      RunOnceDestroyed();
    }

    method SendBytes(bytes: seq<byte>)
      requires Valid()
      modifies this, counter_
      ensures Valid() && View() == Step(old(View()), Send(bytes))
    {
      if handling {
        counter_.Before();
        CountedOne(old(counter_.View()), Start);
        written := written + [bytes];
      } else {
        dataToSocketQueue := dataToSocketQueue + [bytes];
      }
      RunOnceDestroyed();
    }

    method WrapPauseOrResume()
      requires Valid()
      modifies this, counter_
      ensures Valid() && View() == Step(old(View()), PauseOrResume)
    {
      counter_.Before();
      CountedOne(old(counter_.View()), Start);
      RunOnceDestroyed();
    }

    method CloseSocket()
      requires Valid()
      modifies this, counter_
      ensures Valid() && View() == Step(old(View()), Close)
    {
      if state_ != Closed {
        counter_.Before();
        CountedOne(old(counter_.View()), Start);
      }
      RunOnceDestroyed();
    }

    method OnDisconnect(reason: Info)
      requires Valid()
      modifies this, counter_
      ensures Valid() && View() == Step(old(View()), Disconnect(reason))
    {
      if state_ != Closed {
        counter_.AfterCall();
        CountedOne(old(counter_.View()), Discard);
        state_ := Closed;
        handling := false;
        dataToSocketQueue := [];
        info := reason;
      }
      RunOnceDestroyed();
    }
  }

  lemma CountedOne(c: Count, call: Call)
    ensures Counted(c, [call]) == Apply(c, call, false)
  {
    assert [call][1..] == [];
  }

  lemma FinishedThenStarts(c: Count, n: nat)
    ensures Counted(c, [Finish] + Starts(n)) == Counted(Apply(c, Finish, false), Starts(n))
  {
    assert ([Finish] + Starts(n))[1..] == Starts(n);
  }

  lemma {:induction false} StartedOnce(c: Count, n: nat)
    ensures Counted(c, Starts(n + 1)) == Apply(Counted(c, Starts(n)), Start, false)
  {
    CountedMore(c, Starts(n), Start);
  }

  lemma {:induction false} CountedMore(c: Count, calls: seq<Call>, call: Call)
    ensures Counted(c, calls + [call]) == Apply(Counted(c, calls), call, false)
    decreases |calls|
  {
    if calls != [] {
      assert (calls + [call])[1..] == calls[1..] + [call];
      CountedMore(Apply(c, calls[0], false), calls[1..], call);
    }
  }

  // ---------------------------------------------------------------- runs

  function Run(existing: bool, es: seq<Event>): Conn {
    if es == [] then Begun(existing) else Step(Run(existing, Init(es)), es[|es| - 1])
  }

  /** The calls of the counter in a whole run. */
  function History(existing: bool, es: seq<Event>): seq<Call> {
    if es == [] then [Start]
    else History(existing, Init(es)) + Calls(Run(existing, Init(es)), es[|es| - 1])
  }

  function OutstandingCalls(c: Conn): int {
    c.count.counter + if c.state.Closed? then 1 else 0
  }

  /** Only a call that is outstanding settles. */
  predicate Possible(c: Conn, e: Event) {
    match e
    case ConnectDone(_) => c.connecting
    case CallDone => OutstandingCalls(c) > if c.connecting then 1 else 0
    case _ => true
  }

  predicate AllPossible(existing: bool, es: seq<Event>) {
    es == [] || (AllPossible(existing, Init(es)) && Possible(Run(existing, Init(es)), es[|es| - 1]))
  }

  /** An event that calls a socket which is destroyed, or is destroyed just before. */
  predicate Misuses(c: Conn, e: Event) {
    match e
    case PauseOrResume => c.count.destructions > 0
    case Send(_) => c.count.destructions > 0 && c.handling
    case ConnectDone(ok) => ok && c.state.Closed? && OutstandingCalls(c) == 1 && c.queue != []
    case _ => false
  }

  predicate NeverMisused(existing: bool, es: seq<Event>) {
    es == [] || (NeverMisused(existing, Init(es)) && !Misuses(Run(existing, Init(es)), es[|es| - 1]))
  }

  /** How a connection stands to the history of its counter. */
  ghost predicate Follows(c: Conn, h: seq<Call>, quiet: bool) {
    && Proper(h) && c.count == ApplyAll(h, false)
    && Discards(h) == (if c.state.Closed? then 1 else 0)
    && Outstanding(h) >= (if c.connecting then 1 else 0)
    && (Quiet(h) <==> quiet)
  }

  lemma {:induction false} MoreStarts(h: seq<Call>, n: nat)
    requires Proper(h)
    ensures var h' := h + Starts(n);
            && Proper(h') && ApplyAll(h', false) == Counted(ApplyAll(h, false), Starts(n))
            && Discards(h') == Discards(h) && Outstanding(h') == Outstanding(h) + n
            && ApplyAll(h', false).destructions == ApplyAll(h, false).destructions
            && (Quiet(h') <==> Quiet(h) && (n > 0 ==> ApplyAll(h, false).destructions == 0))
    decreases n
  {
    if n == 0 {
      assert h + Starts(n) == h;
    } else {
      MoreStarts(h, n - 1);
      var h' := h + Starts(n);
      assert Init(h') == h + Starts(n - 1);
      StartedOnce(ApplyAll(h, false), n - 1);
      assert Proper(Init(h')) && Outstanding(Init(h')) >= 0;
    }
  }

  lemma OneMore(h: seq<Call>, call: Call)
    requires Proper(h)
    ensures var h' := h + [call];
            && ApplyAll(h', false) == Apply(ApplyAll(h, false), call, false)
            && Discards(h') == Discards(h) + (if call.Discard? then 1 else 0)
            && Outstanding(h') == Outstanding(h) + (match call case Start => 1 case Finish => -1 case Discard => 0)
            && (Proper(h') <==> Outstanding(h') >= 0 && Discards(h') <= 1)
            && (Quiet(h') <==> Quiet(h) && (call.Start? ==> ApplyAll(h, false).destructions == 0))
  {
    var h' := h + [call];
    assert Init(h') == h;
  }

  lemma ConnectedFollows(c: Conn, h: seq<Call>, quiet: bool)
    requires Follows(c, h, quiet) && c.connecting
    ensures var e := ConnectDone(true);
            Follows(Step(c, e), h + Calls(c, e), quiet && !Misuses(c, e))
  {
    var n := |c.queue|;
    DestroyedOnce(h);
    CounterIs(h, false);
    OneMore(h, Finish);
    DestroyedOnce(h + [Finish]);
    MoreStarts(h + [Finish], n);
    assert h + ([Finish] + Starts(n)) == h + [Finish] + Starts(n);
    FinishedThenStarts(c.count, n);
  }

  lemma ConnectFailedFollows(c: Conn, h: seq<Call>, quiet: bool)
    requires Follows(c, h, quiet) && c.connecting
    ensures var e := ConnectDone(false);
            Follows(Step(c, e), h + Calls(c, e), quiet && !Misuses(c, e))
  {
    assert [Finish] + [] == [Finish];
    CountedOne(c.count, Finish);
    OneMore(h, Finish);
  }

  lemma ConnectFollows(c: Conn, h: seq<Call>, quiet: bool, ok: bool)
    requires Follows(c, h, quiet) && c.connecting
    ensures Follows(Step(c, ConnectDone(ok)), h + Calls(c, ConnectDone(ok)), quiet && !Misuses(c, ConnectDone(ok)))
  {
    if ok {
      ConnectedFollows(c, h, quiet);
    } else {
      ConnectFailedFollows(c, h, quiet);
    }
  }

  lemma OneCallFollows(c: Conn, h: seq<Call>, quiet: bool, e: Event, call: Call)
    requires Follows(c, h, quiet) && Possible(c, e) && !e.ConnectDone? && Calls(c, e) == [call]
    ensures Follows(Step(c, e), h + [call], quiet && !Misuses(c, e))
  {
    DestroyedOnce(h);
    CounterIs(h, false);
    CountedOne(c.count, call);
    OneMore(h, call);
  }

  lemma StepFollows(c: Conn, h: seq<Call>, quiet: bool, e: Event)
    requires Follows(c, h, quiet) && Possible(c, e)
    ensures Follows(Step(c, e), h + Calls(c, e), quiet && !Misuses(c, e))
  {
    if e.ConnectDone? {
      ConnectFollows(c, h, quiet, e.ok);
    } else if Calls(c, e) == [] {
      assert h + [] == h;
    } else {
      OneCallFollows(c, h, quiet, e, Calls(c, e)[0]);
    }
  }

  lemma {:induction false} RunFollows(existing: bool, es: seq<Event>)
    requires AllPossible(existing, es)
    ensures Follows(Run(existing, es), History(existing, es), NeverMisused(existing, es))
  {
    if es == [] {
      OneMore([], Start);
      assert [] + [Start] == [Start];
    } else {
      RunFollows(existing, Init(es));
      StepFollows(Run(existing, Init(es)), History(existing, Init(es)), NeverMisused(existing, Init(es)), es[|es| - 1]);
    }
  }

  // ---------------------------------------------------------------- over every run

  /**
   The socket is never destroyed while a call on it is outstanding: an event destroys it only if it
   leaves none. Hence, short of misuse, a connection with calls outstanding still has its socket.
   */
  lemma NotWhileOutstanding(existing: bool, es: seq<Event>)
    requires AllPossible(existing, es) && NeverMisused(existing, es)
    requires OutstandingCalls(Run(existing, es)) > 0
    ensures Run(existing, es).count.destructions == 0
  {
    RunFollows(existing, es);
    CounterIs(History(existing, es), false);
    NotTooEarly(History(existing, es), false);
  }

  /**
   Once a connection is closed and its calls have settled, its socket has been destroyed; and exactly
   once if and only if the connection was not misused.
   */
  lemma DestroyedExactlyOnce(existing: bool, es: seq<Event>)
    requires AllPossible(existing, es) && OutstandingCalls(Run(existing, es)) == 0
    ensures var c := Run(existing, es);
            && (c.count.destructions > 0 <==> c.state.Closed?)
            && (c.state.Closed? ==> (c.count.destructions == 1 <==> NeverMisused(existing, es)))
  {
    RunFollows(existing, es);
    CounterIs(History(existing, es), false);
    DestructorTiming(History(existing, es), false);
  }

  /** After every run that leaves the socket destroyed and no call outstanding, a pause destroys it once more. */
  lemma PauseDestroysAgain(existing: bool, es: seq<Event>)
    requires AllPossible(existing, es)
    requires Run(existing, es).state.Closed? && OutstandingCalls(Run(existing, es)) == 0
    ensures var more := es + [PauseOrResume] + [CallDone];
            && AllPossible(existing, more)
            && Run(existing, more).count.destructions == Run(existing, es).count.destructions + 1 >= 2
  {
    var c := Run(existing, es);
    RunFollows(existing, es);
    CounterIs(History(existing, es), false);
    DestroyedMeans(existing, es);
    RunMore(existing, es, PauseOrResume);
    CountedOne(c.count, Start);
    var c' := Run(existing, es + [PauseOrResume]);
    assert c'.count == Apply(c.count, Start, false) && c'.state.Closed? && c'.connecting == c.connecting;
    RunMore(existing, es + [PauseOrResume], CallDone);
    CountedOne(c'.count, Finish);
  }

  predicate Failed(es: seq<Event>) {
    exists i :: 0 <= i < |es| && es[i] == ConnectDone(false)
  }

  /** When onceClosed has fulfilled, and with what. */
  predicate OnceClosedOk(c: Conn, failed: bool) {
    && (c.onceClosed.Some? <==> failed || c.count.destructions > 0)
    && (c.onceClosed == Some(NeverConnected) ==> failed)
    && (c.onceClosed.Some? && c.onceClosed != Some(NeverConnected) ==>
          c.state.Closed? && c.onceClosed == Some(KindOf(c.info)))
  }

  /** The destructor has run only for a closed connection, and fulfils onceDestroyed. */
  predicate DestroyedOk(c: Conn) {
    if c.count.destructions > 0 then c.state.Closed? && c.count.onceDestroyed.Fulfilled?
    else c.count.onceDestroyed.Unsettled?
  }

  lemma StepOnceClosedOk(c: Conn, e: Event, failed: bool)
    requires OnceClosedOk(c, failed) && DestroyedOk(c) && DestroyedOk(Step(c, e))
    ensures OnceClosedOk(Step(c, e), failed || e == ConnectDone(false))
  {
    CountedGrows(c.count, Calls(c, e));
  }

  lemma RunDestroyedOk(existing: bool, es: seq<Event>)
    requires AllPossible(existing, es)
    ensures DestroyedOk(Run(existing, es))
  {
    RunFollows(existing, es);
    CounterIs(History(existing, es), false);
    DestroyedOnce(History(existing, es));
  }

  /** onceClosed fulfils when connecting fails or the socket has been destroyed, and in no other case. */
  lemma {:induction false} OnceClosedMeans(existing: bool, es: seq<Event>)
    requires AllPossible(existing, es)
    ensures OnceClosedOk(Run(existing, es), Failed(es))
  {
    if es != [] {
      OnceClosedMeans(existing, Init(es));
      RunDestroyedOk(existing, Init(es));
      RunDestroyedOk(existing, es);
      var e := es[|es| - 1];
      StepOnceClosedOk(Run(existing, Init(es)), e, Failed(Init(es)));
      assert es == Init(es) + [e];
      assert Failed(es) <==> Failed(Init(es)) || e == ConnectDone(false);
    }
  }

  /**
   The socket has been destroyed exactly when a closed connection has no call left, or had none when it was
   misused.
   */
  lemma DestroyedMeans(existing: bool, es: seq<Event>)
    requires AllPossible(existing, es)
    ensures var c := Run(existing, es);
            c.count.destructions > 0 <==> c.state.Closed? && (OutstandingCalls(c) == 0 || !NeverMisused(existing, es))
  {
    RunFollows(existing, es);
    CounterIs(History(existing, es), false);
    DestroyedOnce(History(existing, es));
  }

  /** Whether state CLOSED and the settling of onceClosed coincide. */
  predicate ClosedIsSettled(c: Conn) {
    c.state.Closed? <==> c.onceClosed.Some?
  }

  /**
   They coincide after exactly these runs: those that end in CLOSED with connecting failed, with no call left,
   or with the connection misused; and those that end elsewhere without connecting having failed.
   */
  lemma ClosedIsSettledWhen(existing: bool, es: seq<Event>)
    requires AllPossible(existing, es)
    ensures var c := Run(existing, es);
            ClosedIsSettled(c) <==>
            if c.state.Closed? then Failed(es) || OutstandingCalls(c) == 0 || !NeverMisused(existing, es)
            else !Failed(es)
  {
    OnceClosedMeans(existing, es);
    DestroyedMeans(existing, es);
  }

  /** Without misuse, a closed connection whose connecting did not fail is settled exactly when its calls are. */
  lemma ClosedIsSettledUnlessMisused(existing: bool, es: seq<Event>)
    requires AllPossible(existing, es) && NeverMisused(existing, es)
    ensures var c := Run(existing, es);
            ClosedIsSettled(c) <==> if c.state.Closed? then Failed(es) || OutstandingCalls(c) == 0 else !Failed(es)
  {
    ClosedIsSettledWhen(existing, es);
  }

  lemma RunOne(existing: bool, e: Event)
    ensures Run(existing, [e]) == Step(Begun(existing), e)
    ensures AllPossible(existing, [e]) <==> Possible(Begun(existing), e)
  {
    assert Init([e]) == [];
  }

  lemma RunMore(existing: bool, es: seq<Event>, e: Event)
    ensures Run(existing, es + [e]) == Step(Run(existing, es), e)
    ensures AllPossible(existing, es + [e]) <==> AllPossible(existing, es) && Possible(Run(existing, es), e)
  {
    assert Init(es + [e]) == es;
  }

  /** onceClosed fulfils without state CLOSED: connecting to an endpoint fails. */
  lemma SettledNotClosed()
    ensures var es := [ConnectDone(false)];
            AllPossible(false, es) && Run(false, es).onceClosed.Some? && !Run(false, es).state.Closed?
  {
    RunOne(false, ConnectDone(false));
    CountedOne(Count(1, 0, Unsettled), Finish);
    assert [Finish] + [] == [Finish];
  }

  /** State CLOSED without onceClosed: a connected socket is disconnected while a write is outstanding. */
  lemma ClosedNotSettled(b: seq<byte>)
    ensures var es := [ConnectDone(true), Send(b), Disconnect(NoInfo)];
            && AllPossible(true, es) && NeverMisused(true, es)
            && Run(true, es).state.Closed? && Run(true, es).onceClosed.None?
  {
    var e1, e2, e3 := ConnectDone(true), Send(b), Disconnect(NoInfo);
    OnceConnectedRun();
    RunMore(true, [e1], e2);
    CountedOne(ZERO, Start);
    assert [e1] + [e2] == [e1, e2] && [e1, e2] + [e3] == [e1, e2, e3];
    assert Run(true, [e1, e2]) == Conn(Connected, false, true, [], [b], Count(1, 0, Unsettled), NoInfo, None);
    RunMore(true, [e1, e2], e3);
    CountedOne(Count(1, 0, Unsettled), Discard);
    DestroyedMeans(true, [e1, e2, e3]);
  }

  lemma OnceConnectedRun()
    ensures Run(true, [ConnectDone(true)]) == Conn(Connected, false, true, [], [], ZERO, NoInfo, None)
    ensures AllPossible(true, [ConnectDone(true)])
  {
    RunOne(true, ConnectDone(true));
    CountedOne(Count(1, 0, Unsettled), Finish);
    assert [Finish] + Starts(0) == [Finish];
  }

  lemma {:induction false} CountedGrows(c: Count, calls: seq<Call>)
    ensures Counted(c, calls).destructions >= c.destructions
    decreases |calls|
  {
    if calls != [] {
      CountedGrows(Apply(c, calls[0], false), calls[1..]);
    }
  }

  /** All that was passed to send, in order. */
  function Sent(es: seq<Event>): seq<seq<byte>> {
    if es == [] then []
    else
      var e := es[|es| - 1];
      Sent(Init(es)) + if e.Send? then [e.bytes] else []
  }

  /** While a connection is not closed: what is written and queued, and that a handler leaves nothing queued. */
  predicate Holds(c: Conn, sent: seq<seq<byte>>) {
    !c.state.Closed? ==> c.written + c.queue == sent && (c.handling ==> c.queue == [])
  }

  lemma StepHolds(c: Conn, e: Event, sent: seq<seq<byte>>)
    requires Holds(c, sent)
    ensures Holds(Step(c, e), sent + if e.Send? then [e.bytes] else [])
  {
    var u := Update(c, e);
    assert Step(c, e).state == u.state && Step(c, e).written == u.written;
    assert Step(c, e).queue == u.queue && Step(c, e).handling == u.handling;
    if !u.state.Closed? {
      match e
      case Send(b) => assert c.written + (c.queue + [b]) == (c.written + c.queue) + [b];
      case ConnectDone(_) => assert (c.written + c.queue) + [] == c.written + c.queue;
      case _ => assert sent + [] == sent;
    }
  }

  /** Until the connection closes, what was written to the socket and what still waits are what was sent. */
  lemma {:induction false} WrittenThenQueued(existing: bool, es: seq<Event>)
    ensures var c := Run(existing, es);
            && (!c.state.Closed? ==> c.written + c.queue == Sent(es))
            && (!c.state.Closed? && c.handling ==> c.queue == [])
  {
    if es != [] {
      WrittenThenQueued(existing, Init(es));
      StepHolds(Run(existing, Init(es)), es[|es| - 1], Sent(Init(es)));
    }
  }

  // ---------------------------------------------------------------- which calls are counted, and the reason given

  /** How many calls the last event begins: a pause, and a close of a connection that is not closed. */
  function Asked(c: Conn, e: Event): int {
    if e.PauseOrResume? || (e.Close? && !c.state.Closed?) then 1 else 0
  }

  function Settles(e: Event): int {
    if e.ConnectDone? || e.CallDone? then 1 else 0
  }

  /** The pauses and closes of a run. */
  function AskedIn(existing: bool, es: seq<Event>): int {
    if es == [] then 0 else AskedIn(existing, Init(es)) + Asked(Run(existing, Init(es)), es[|es| - 1])
  }

  function SettledIn(es: seq<Event>): int {
    if es == [] then 0 else SettledIn(Init(es)) + Settles(es[|es| - 1])
  }

  lemma {:induction false} StartsCount(c: Count, n: nat)
    ensures Counted(c, Starts(n)).counter == c.counter + n
  {
    if n > 0 {
      StartsCount(c, n - 1);
      StartedOnce(c, n - 1);
    }
  }

  lemma StepCounts(c: Conn, e: Event)
    ensures OutstandingCalls(Step(c, e)) - OutstandingCalls(c)
         == |Step(c, e).written| - |c.written| + Asked(c, e) - Settles(e)
  {
    CountedOne(c.count, Start);
    CountedOne(c.count, Finish);
    CountedOne(c.count, Discard);
    if e.ConnectDone? {
      FinishedThenStarts(c.count, |c.queue|);
      StartsCount(Apply(c.count, Finish, false), |c.queue|);
      assert [Finish] + [] == [Finish];
    }
  }

  /** The calls outstanding are the connecting, every write, every pause and close, less those that have settled. */
  lemma {:induction false} OutstandingMeans(existing: bool, es: seq<Event>)
    ensures OutstandingCalls(Run(existing, es))
         == 1 + |Run(existing, es).written| + AskedIn(existing, es) - SettledIn(es)
  {
    if es != [] {
      OutstandingMeans(existing, Init(es));
      StepCounts(Run(existing, Init(es)), es[|es| - 1]);
    }
  }

  /** The reason in the first disconnect notification. */
  function FirstReason(es: seq<Event>): Info {
    if es == [] then NoInfo
    else if es[0].Disconnect? then es[0].info
    else FirstReason(es[1..])
  }

  predicate Disconnected(es: seq<Event>) {
    exists i :: 0 <= i < |es| && es[i].Disconnect?
  }

  lemma {:induction false} FirstReasonOfMore(es: seq<Event>, e: Event)
    ensures FirstReason(es + [e])
         == if Disconnected(es) then FirstReason(es) else if e.Disconnect? then e.info else NoInfo
    ensures !Disconnected(es) ==> FirstReason(es) == NoInfo
  {
    if es == [] {
      assert ([] + [e])[1..] == [];
    } else {
      assert (es + [e])[1..] == es[1..] + [e];
      FirstReasonOfMore(es[1..], e);
      assert forall i :: 0 <= i < |es[1..]| ==> es[1..][i] == es[i + 1];
      assert Disconnected(es) <==> es[0].Disconnect? || Disconnected(es[1..]);
    }
  }

  lemma StepReason(c: Conn, e: Event)
    ensures Step(c, e).info == if e.Disconnect? && !c.state.Closed? then e.info else c.info
    ensures Step(c, e).state.Closed? <==> c.state.Closed? || e.Disconnect?
  {
  }

  lemma {:induction false} ReasonKept(existing: bool, es: seq<Event>)
    ensures Run(existing, es).info == FirstReason(es)
    ensures Run(existing, es).state.Closed? <==> Disconnected(es)
  {
    if es != [] {
      var e := es[|es| - 1];
      ReasonKept(existing, Init(es));
      StepReason(Run(existing, Init(es)), e);
      assert es == Init(es) + [e];
      FirstReasonOfMore(Init(es), e);
      assert Disconnected(es) <==> Disconnected(Init(es)) || e.Disconnect?;
    }
  }

  /**
   The kind with which onceClosed fulfils, unless connecting failed: by us if the first disconnect notification
   says SUCCESS, remotely if it says CONNECTION_CLOSED, and otherwise unknown.
   */
  lemma ClosedAs(existing: bool, es: seq<Event>)
    requires AllPossible(existing, es) && !Failed(es) && Run(existing, es).onceClosed.Some?
    ensures var kind := Run(existing, es).onceClosed.value;
            && kind != NeverConnected && Disconnected(es)
            && (kind == WeClosedIt <==> FirstReason(es) == Errcode("SUCCESS"))
            && (kind == RemotelyClosed <==> FirstReason(es) == Errcode("CONNECTION_CLOSED"))
  {
    OnceClosedMeans(existing, es);
    ReasonKept(existing, es);
  }

  /** After a disconnect notification nothing is written, and what had been queued is gone. */
  lemma DisconnectStops(c: Conn, info: Info, b: seq<byte>)
    requires !c.state.Closed?
    ensures var c' := Step(Step(c, Disconnect(info)), Send(b));
            c'.state.Closed? && c'.written == c.written && c'.queue == [b] && !c'.handling
  {
  }
}
