/**
 A PoolChannel: a virtual data channel that wraps a real one and opens and
 closes in band, so that the real channel can be used again.

 The functions below give the effect of each handler on the fields of one
 channel; the class holds those fields and its methods are proved against them.
 */
module PoolChannels {
  import opened Basics

  /** Application data: a string or a binary buffer. */
  datatype Data = Str(s: string) | Buffer(bytes: seq<byte>)

  /**
   What the underlying channel carries. A non-empty string is always sent and
   read as JSON: `{"data": s}`, `{"control": name}`, or something else.
   */
  datatype Wire =
    | DataFrame(s: string)
    | ControlFrame(name: string)
    | OtherJson
    | NotJson(text: string)
    | Raw(data: Data)

  const OPEN_NAME := "OPEN"
  const CLOSE_NAME := "CLOSE"
  const OPEN := ControlFrame(OPEN_NAME)
  const CLOSE := ControlFrame(CLOSE_NAME)

  datatype State = Open | Closing | Closed | PermanentlyClosed

  /** A one-shot promise: fulfilled first, its callbacks run later. */
  datatype Once = Pending | Fulfilled | Settled

  /**
   `queue` is what dataFromPeerQueue holds and no handler has taken yet.
   `ackAfter` is the promise chain that a CLOSE starts: the number of queued
   messages still to be handled before the CLOSE is acknowledged.
   */
  datatype Chan = Chan(
    state: State,
    queue: seq<Data>,
    ackAfter: Option<nat>,
    onceOpened: Once,
    onceClosed: Once)

  const FRESH_CHAN := Chan(Closed, [], None, Pending, Pending)

  /** The JSON layer of send(): strings are wrapped, the empty string and buffers are not. */
  function Frame(d: Data): Wire {
    if d.Str? && d.s != "" then DataFrame(d.s) else Raw(d)
  }

  function Fulfil(p: Once): Once {
    if p.Pending? then Fulfilled else p
  }

  /** The fields that a successful reset() replaces. */
  function Renewed(c: Chan): Chan {
    c.(queue := [], onceOpened := Pending, onceClosed := Pending)
  }

  function OnControlMessage(c: Chan, name: string): Chan {
    if name == OPEN_NAME then
      c.(onceOpened := Fulfil(c.onceOpened))
    else if name == CLOSE_NAME then
      match c.state
      case Open => c.(state := Closing, ackAfter := Some(|c.queue|))
      case Closing => c.(onceClosed := Fulfil(c.onceClosed))
      case Closed => c
      case PermanentlyClosed => c
    else
      c
  }

  function OnDataFromPeer(c: Chan, w: Wire): Chan {
    match w
    case DataFrame(s) => c.(queue := c.queue + [Str(s)])
    case ControlFrame(name) => OnControlMessage(c, name)
    case OtherJson => c
    case NotJson(_) => c
    case Raw(d) => c.(queue := c.queue + [d])
  }

  /** The callback that reset() attaches to onceOpened. */
  function RunOpened(c: Chan): Chan {
    if !c.onceOpened.Fulfilled? then c
    else c.(onceOpened := Settled, state := if c.state.Closed? then Open else c.state)
  }

  /** The callback that reset() attaches to onceClosed. */
  function RunClosed(c: Chan): Chan {
    if !c.onceClosed.Fulfilled? then c
    else c.(onceClosed := Settled, state := if c.state.PermanentlyClosed? then c.state else Closed)
  }

  /** Whether running the callbacks ends with the owner's reset() replacing the session. */
  predicate Renews(c: Chan) {
    c.onceClosed.Fulfilled? && !c.state.PermanentlyClosed?
  }

  /** All pending callbacks: onceOpened's, onceClosed's, and the owner's, which calls reset(). */
  function Settle(c: Chan): Chan {
    var c' := RunClosed(RunOpened(c));
    if Renews(c) then Renewed(c') else c'
  }

  /** open(): refused when already open, otherwise OPEN is sent and onceOpened fulfilled. */
  function OpenChan(c: Chan): (Chan, seq<Wire>) {
    if c.state.Open? then (c, []) else (c.(onceOpened := Fulfil(c.onceOpened)), [OPEN])
  }

  function SendData(c: Chan, d: Data): seq<Wire> {
    if c.state.Open? then [Frame(d)] else []
  }

  function CloseChan(c: Chan): (Chan, seq<Wire>) {
    if c.state.Open? then (c.(state := Closing), [CLOSE]) else (c, [])
  }

  /** A handler takes the oldest queued message. */
  function HandleHead(c: Chan): Chan
    requires c.queue != []
  {
    c.(queue := c.queue[1..],
       ackAfter := if c.ackAfter.Some? && c.ackAfter.value > 0 then Some(c.ackAfter.value - 1) else c.ackAfter)
  }

  predicate AckReady(c: Chan) {
    c.ackAfter == Some(0) && !c.state.PermanentlyClosed?
  }

  /** The chain that a CLOSE started has drained: send the acknowledgement, fulfil onceClosed. */
  function Ack(c: Chan): Chan {
    c.(ackAfter := None, onceClosed := Fulfil(c.onceClosed))
  }

  /** The real channel has closed. */
  function UnderlyingClosed(c: Chan): Chan {
    c.(state := PermanentlyClosed, onceClosed := Fulfil(c.onceClosed))
  }

  /** What is neither data nor one of the two control messages changes nothing, and neither do redundant ones. */
  lemma Ignored(c: Chan, name: string, text: string)
    ensures name != "OPEN" && name != "CLOSE" ==> OnDataFromPeer(c, ControlFrame(name)) == c
    ensures OnDataFromPeer(c, OtherJson) == c == OnDataFromPeer(c, NotJson(text))
    ensures !c.onceOpened.Pending? ==> OnDataFromPeer(c, ControlFrame("OPEN")) == c
    ensures c.state.Closed? || c.state.PermanentlyClosed? ==> OnDataFromPeer(c, ControlFrame("CLOSE")) == c
  {
  }

  class PoolChannel {
    const number: nat
    var state_: State
    var dataFromPeerQueue: seq<Data>
    var ackAfter: Option<nat>
    var onceOpened: Once
    var onceClosed: Once
    /** The messages given to dc_.send(), in order. */
    var dcSent: seq<Wire>

    function View(): Chan
      reads this
    {
      Chan(state_, dataFromPeerQueue, ackAfter, onceOpened, onceClosed)
    }

    /** `number` is the one in the label that the real channel was created with. */
    constructor (number: nat)
      ensures View() == FRESH_CHAN && dcSent == [] && this.number == number
    {
      this.number := number;
      state_, dataFromPeerQueue, ackAfter := Closed, [], None;
      onceOpened, onceClosed, dcSent := Pending, Pending, [];
    }

    method Reset() returns (ok: bool)
      modifies this
      ensures ok <==> old(state_) == Closed
      ensures View() == if ok then Renewed(old(View())) else old(View())
      ensures dcSent == old(dcSent)
    {
      if state_ != Closed {
        return false;
      }
      dataFromPeerQueue := [];
      onceOpened := Pending;
      onceClosed := Pending;
      return true;
    }

    method Send(data: Data) returns (accepted: bool)
      modifies `dcSent
      ensures accepted <==> state_ == Open
      ensures dcSent == old(dcSent) + SendData(View(), data)
      ensures SendData(View(), data) == if !accepted then [] else
                match data
                case Str(s) => if s == "" then [Raw(data)] else [DataFrame(s)]
                case Buffer(_) => [Raw(data)]
    {
      if state_ != Open {
        return false;
      }
      match data {
        case Str(s) =>
          if s != "" {
            dcSent := dcSent + [DataFrame(s)];
          } else {
            dcSent := dcSent + [Raw(data)];
          }
        case Buffer(_) =>
          dcSent := dcSent + [Raw(data)];
      }
      return true;
    }

    method SendControlMessage(name: string)
      modifies `dcSent
      ensures dcSent == old(dcSent) + [ControlFrame(name)]
    {
      dcSent := dcSent + [ControlFrame(name)];
    }

    method ReceiveFromPeer(w: Wire)
      modifies this
      ensures View() == OnDataFromPeer(old(View()), w)
      ensures dcSent == old(dcSent)
    {
      match w {
        case DataFrame(s) => dataFromPeerQueue := dataFromPeerQueue + [Str(s)];
        case ControlFrame(name) => ReceiveControlMessage(name);
        case OtherJson => // logged only
        case NotJson(_) => // logged only
        case Raw(d) => dataFromPeerQueue := dataFromPeerQueue + [d];
      }
    }

    method ReceiveControlMessage(name: string)
      modifies this
      ensures View() == OnControlMessage(old(View()), name)
      ensures dcSent == old(dcSent)
    {
      if name == OPEN_NAME {
        FulfilOpened();
      } else if name == CLOSE_NAME {
        if state_ == Open {
          state_ := Closing;
          ackAfter := Some(|dataFromPeerQueue|);
        } else if state_ == Closing {
          FulfilClosed();
        }
      }
    }

    method FulfilOpened()
      modifies `onceOpened
      ensures onceOpened == Fulfil(old(onceOpened))
    {
      if onceOpened == Pending {
        onceOpened := Fulfilled;
      }
    }

    method FulfilClosed()
      modifies `onceClosed
      ensures onceClosed == Fulfil(old(onceClosed))
    {
      if onceClosed == Pending {
        onceClosed := Fulfilled;
      }
    }

    /** The callbacks that reset() attached; `isClosed` says that the owner's onceClosed callback runs too. */
    method RunCallbacks() returns (isClosed: bool)
      modifies this
      ensures View() == RunClosed(RunOpened(old(View())))
      ensures isClosed <==> old(onceClosed) == Fulfilled
      ensures dcSent == old(dcSent)
    {
      isClosed := false;
      if onceOpened == Fulfilled {
        onceOpened := Settled;
        if state_ == Closed {
          state_ := Open;
        }
      }
      if onceClosed == Fulfilled {
        onceClosed := Settled;
        if state_ != PermanentlyClosed {
          state_ := Closed;
        }
        isClosed := true;
      }
    }

    method OpenForUse() returns (accepted: bool)
      modifies this
      ensures accepted <==> old(state_) != Open
      ensures View() == OpenChan(old(View())).0
      ensures dcSent == old(dcSent) + OpenChan(old(View())).1
      ensures OpenChan(old(View())).1 == if old(state_) == Open then [] else [ControlFrame("OPEN")]
    {
      if state_ == Open {
        return false;
      }
      SendControlMessage(OPEN_NAME);
      FulfilOpened();
      return true;
    }

    method Close()
      modifies this
      ensures View() == CloseChan(old(View())).0
      ensures dcSent == old(dcSent) + CloseChan(old(View())).1
      ensures CloseChan(old(View())).1 == if old(state_) == Open then [ControlFrame("CLOSE")] else []
    {
      if state_ != Open {
        return;
      }
      state_ := Closing;
      SendControlMessage(CLOSE_NAME);
    }

    method HandleNext() returns (d: Data)
      requires dataFromPeerQueue != []
      modifies this
      ensures d == old(dataFromPeerQueue)[0]
      ensures View() == HandleHead(old(View()))
      ensures dcSent == old(dcSent)
    {
      d := dataFromPeerQueue[0];
      dataFromPeerQueue := dataFromPeerQueue[1..];
      if ackAfter.Some? && ackAfter.value > 0 {
        ackAfter := Some(ackAfter.value - 1);
      }
    }

    method SendAck()
      requires AckReady(View())
      modifies this
      ensures View() == Ack(old(View()))
      ensures dcSent == old(dcSent) + [ControlFrame("CLOSE")]
    {
      SendControlMessage(CLOSE_NAME);
      FulfilClosed();
      ackAfter := None;
    }

    method OnUnderlyingClosed()
      modifies this
      ensures View() == UnderlyingClosed(old(View()))
      ensures state_ == PermanentlyClosed && onceClosed != Pending
      ensures dcSent == old(dcSent)
    {
      state_ := PermanentlyClosed;
      FulfilClosed();
    }
  }
}
