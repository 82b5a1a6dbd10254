/**
 The two owners of PoolChannels: LocalPool lends out the channels it has opened and takes
 them back when they close; RemotePool hands out those that the peer opens.
 */
module Pools {
  import opened Basics
  import opened PoolChannels

  /**
   LocalPool's bookkeeping by channel number: how many numbers were given out, the pool in
   its order, the channels lent out, those that closed for good and left, the numbers whose
   channel never opened, the channels whose real channel is gone, and the largest number of
   channels ever lent at once.
   */
  datatype Alloc = Alloc(
    made: nat,
    pool: seq<nat>,
    lent: set<nat>,
    gone: set<nat>,
    failed: set<nat>,
    dead: set<nat>,
    high: nat)

  const NO_CHANNELS := Alloc(0, [], {}, {}, {}, {}, 0)

  datatype Event =
    | Request(createOk: bool)  // openDataChannel(); createOk: whether a new real channel would open
    | ChannelClosed(number: nat)  // onceClosed's callback for a lent channel
    | RealChannelDied(number: nat)

  function Lend(a: Alloc, number: nat): Alloc {
    var lent := a.lent + {number};
    a.(lent := lent, high := if |lent| > a.high then |lent| else a.high)
  }

  function OnRequest(a: Alloc, createOk: bool): Alloc {
    if a.pool != [] then
      Lend(a.(pool := a.pool[1..]), a.pool[0])
    else if createOk then
      Lend(a.(made := a.made + 1), a.made)
    else
      a.(made := a.made + 1, failed := a.failed + {a.made})
  }

  function OnClosed(a: Alloc, number: nat): Alloc {
    if number !in a.lent then a
    else if number in a.dead then a.(lent := a.lent - {number}, gone := a.gone + {number})
    else a.(lent := a.lent - {number}, pool := a.pool + [number])
  }

  function OnEvent(a: Alloc, e: Event): Alloc {
    match e
    case Request(createOk) => OnRequest(a, createOk)
    case ChannelClosed(number) => OnClosed(a, number)
    case RealChannelDied(number) =>
      if number in a.lent || number in a.pool then a.(dead := a.dead + {number}) else a
  }

  function OnEvents(a: Alloc, es: seq<Event>): Alloc
    decreases |es|
  {
    if es == [] then a else OnEvents(OnEvent(a, es[0]), es[1..])
  }

  predicate Distinct(s: seq<nat>) {
    forall i, j :: 0 <= i < j < |s| ==> s[i] != s[j]
  }

  /** Every number given out is in exactly one place. */
  ghost predicate AllocOk(a: Alloc) {
    && Distinct(a.pool)
    && (forall n :: n in a.pool ==> n < a.made)
    && (forall n :: n in a.lent ==> n < a.made && n !in a.pool && n !in a.gone && n !in a.failed)
    && (forall n :: n in a.gone ==> n < a.made && n !in a.pool && n !in a.failed)
    && (forall n :: n in a.failed ==> n < a.made && n !in a.pool)
    && |a.pool| + |a.lent| + |a.gone| + |a.failed| == a.made
    && a.gone <= a.dead
    && (forall n :: n in a.dead ==> n < a.made)
    && |a.lent| <= a.high <= a.made
    && (a.gone == {} && a.failed == {} ==> a.high == a.made)
  }

  lemma ReuseKeeps(a: Alloc)
    requires AllocOk(a) && a.pool != []
    ensures AllocOk(Lend(a.(pool := a.pool[1..]), a.pool[0]))
  {
    var rest := a.pool[1..];
    assert forall n :: n in rest ==> n in a.pool;
    assert a.pool[0] in a.pool && a.pool[0] !in rest;
    assert forall i :: 0 <= i < |rest| ==> rest[i] == a.pool[i + 1];
  }

  lemma CreateKeeps(a: Alloc, createOk: bool)
    requires AllocOk(a) && a.pool == []
    ensures AllocOk(OnRequest(a, createOk))
  {
    assert a.made !in a.lent && a.made !in a.failed;
  }

  lemma ClosedKeeps(a: Alloc, number: nat)
    requires AllocOk(a)
    ensures AllocOk(OnClosed(a, number))
  {
    if number in a.lent && number !in a.dead {
      var pool := a.pool + [number];
      assert forall n :: n in pool <==> n in a.pool || n == number;
    }
  }

  lemma OnEventKeeps(a: Alloc, e: Event)
    requires AllocOk(a)
    ensures AllocOk(OnEvent(a, e))
    ensures a.gone <= OnEvent(a, e).gone && a.dead <= OnEvent(a, e).dead
  {
    match e
    case Request(createOk) => if a.pool != [] { ReuseKeeps(a); } else { CreateKeeps(a, createOk); }
    case ChannelClosed(number) => ClosedKeeps(a, number);
    case RealChannelDied(_) =>
  }

  /**
   Pool accounting over every run: a channel is never pooled twice nor pooled while lent; a
   channel that died while lent never comes back; and as long as no channel died while lent
   and none failed to open, exactly as many were created as were ever needed at once.
   */
  lemma {:induction false} PoolAccounting(a: Alloc, es: seq<Event>)
    requires AllocOk(a)
    ensures var a' := OnEvents(a, es);
            && Distinct(a'.pool)
            && (forall n :: n in a'.pool ==> n !in a'.lent && n !in a.gone)
            && a'.lent !! a.gone
            && a'.high <= a'.made
            && (a'.gone == {} && a'.failed == {} ==> a'.made == a'.high)
    decreases |es|
  {
    if es != [] {
      OnEventKeeps(a, es[0]);
      PoolAccounting(OnEvent(a, es[0]), es[1..]);
    }
  }

  class LocalPool {
    var numChannels_: nat
    var pool_: seq<PoolChannel>
    ghost var alloc: Alloc

    ghost predicate Valid()
      reads this, pool_
    {
      && AllocOk(alloc)
      && numChannels_ == alloc.made
      && |pool_| == |alloc.pool|
      && (forall i :: 0 <= i < |pool_| ==>
            && pool_[i].number == alloc.pool[i]
            && (if pool_[i].number in alloc.dead then pool_[i].state_ == PermanentlyClosed
                else pool_[i].View() == FRESH_CHAN))
    }

    constructor ()
      ensures Valid() && alloc == NO_CHANNELS
    {
      numChannels_, pool_, alloc := 0, [], NO_CHANNELS;
    }

    /**
     openDataChannel(): the pool's oldest channel, or a new one when the pool is empty. What
     the caller gets is open exactly if its real channel did not die while it was pooled.
     */
    method OpenDataChannel(createOk: bool) returns (channel: Option<PoolChannel>)
      requires Valid()
      modifies this, pool_
      ensures Valid() && alloc == OnRequest(old(alloc), createOk)
      ensures old(pool_) != [] ==> channel == Some(old(pool_)[0])
      ensures channel.Some? <==> old(pool_) != [] || createOk
      ensures channel.Some? ==>
                && channel.value.number in alloc.lent && channel.value !in pool_
                && (channel.value.state_ == Open <==> channel.value.number !in alloc.dead)
                && (if channel.value.number in alloc.dead then channel.value.state_ == PermanentlyClosed
                    else channel.value.View() == FRESH_CHAN.(state := Open, onceOpened := Settled))
      ensures pool_ == if old(pool_) == [] then [] else old(pool_)[1..]
      ensures old(pool_) == [] && createOk ==>
                && fresh(channel.value) && channel.value.number == old(numChannels_)
                && channel.value.dcSent == [ControlFrame("OPEN")]
      ensures old(pool_) != [] ==> channel.value.dcSent == old(pool_[0].dcSent) + [ControlFrame("OPEN")]
    {
      channel := ReuseOrCreate(createOk);
      if channel.Some? {
        var _ := channel.value.OpenForUse();
        var _ := channel.value.RunCallbacks();
      }
    }

    /** reuseOrCreate_() and openNewChannel_(): the channel has left the pool, or is new, and is not open yet. */
    method ReuseOrCreate(createOk: bool) returns (channel: Option<PoolChannel>)
      requires Valid()
      modifies this
      ensures Valid() && alloc == OnRequest(old(alloc), createOk)
      ensures pool_ == if old(pool_) == [] then [] else old(pool_)[1..]
      ensures old(pool_) != [] ==> channel == Some(old(pool_)[0])
      ensures channel.Some? <==> old(pool_) != [] || createOk
      ensures channel.Some? ==>
                && channel.value.number in alloc.lent && channel.value !in pool_
                && (if channel.value.number in alloc.dead then channel.value.state_ == PermanentlyClosed
                    else channel.value.View() == FRESH_CHAN)
      ensures old(pool_) == [] && createOk ==>
                fresh(channel.value) && channel.value.number == old(numChannels_) && channel.value.dcSent == []
    {
      OnEventKeeps(alloc, Request(createOk));
      if |pool_| > 0 {
        channel := Some(pool_[0]);
        pool_ := pool_[1..];
      } else {
        var number := numChannels_;
        numChannels_ := numChannels_ + 1;
        channel := None;
        if createOk {
          var c := new PoolChannel(number);
          channel := Some(c);
        }
      }
      alloc := OnRequest(alloc, createOk);
    }

    /** onChannelClosed_(): the callback of a lent channel's onceClosed. */
    method OnChannelClosed(channel: PoolChannel)
      requires Valid()
      requires channel.number in alloc.lent
      requires if channel.number in alloc.dead then channel.state_ == PermanentlyClosed
               else channel.state_ == Closed && channel.ackAfter == None
      modifies this, channel
      ensures Valid() && alloc == OnClosed(old(alloc), channel.number)
      ensures pool_ == if channel.number in alloc.dead then old(pool_) else old(pool_) + [channel]
    {
      OnEventKeeps(alloc, ChannelClosed(channel.number));
      assert forall i :: 0 <= i < |pool_| ==> alloc.pool[i] in alloc.pool;
      alloc := OnClosed(alloc, channel.number);
      var ok := channel.Reset();
      if !ok {
        return;
      }
      pool_ := pool_ + [channel];
    }

    /** The real channel of a pooled channel closes; the channel stays where it is. */
    method OnPooledChannelDied(i: nat)
      requires Valid() && i < |pool_|
      modifies this, pool_[i]
      ensures Valid() && pool_ == old(pool_)
      ensures alloc == OnEvent(old(alloc), RealChannelDied(pool_[i].number))
      ensures pool_[i].state_ == PermanentlyClosed && pool_[i].number in alloc.dead
    {
      var channel := pool_[i];
      assert alloc.pool[i] in alloc.pool;
      OnEventKeeps(alloc, RealChannelDied(channel.number));
      channel.OnUnderlyingClosed();
      alloc := OnEvent(alloc, RealChannelDied(channel.number));
    }

    /** The real channel of a lent channel closes. */
    method OnLentChannelDied(channel: PoolChannel)
      requires Valid() && channel.number in alloc.lent
      modifies this, channel
      ensures Valid() && alloc == OnEvent(old(alloc), RealChannelDied(channel.number)) && pool_ == old(pool_)
      ensures channel.state_ == PermanentlyClosed && channel.onceClosed != Pending && channel.number in alloc.dead
    {
      assert forall i :: 0 <= i < |pool_| ==> alloc.pool[i] in alloc.pool;
      OnEventKeeps(alloc, RealChannelDied(channel.number));
      channel.OnUnderlyingClosed();
      alloc := OnEvent(alloc, RealChannelDied(channel.number));
    }
  }

  /** What the pool lends after the real channel of its oldest channel has closed is not open. */
  method LendDead(local: LocalPool, createOk: bool) returns (channel: PoolChannel)
    requires local.Valid() && local.pool_ != []
    modifies local, local.pool_
    ensures local.Valid() && channel == old(local.pool_)[0] && channel.number in local.alloc.lent
    ensures channel.state_ == PermanentlyClosed
  {
    local.OnPooledChannelDied(0);
    channel := local.pool_[0];
    var lent := local.OpenDataChannel(createOk);
  }

  /** And a pool comes to that: a channel is opened, closed by both ends, pooled, and dies there. */
  method LendDeadFromStart() returns (channel: PoolChannel)
    ensures channel.state_ == PermanentlyClosed
  {
    var local := new LocalPool();
    var lent := local.OpenDataChannel(true);
    var c := lent.value;
    c.Close();
    c.ReceiveFromPeer(CLOSE);
    var _ := c.RunCallbacks();
    local.OnChannelClosed(c);
    channel := LendDead(local, true);
  }

  class RemotePool {
    /** peerOpenedChannelQueue: each channel once for every session that the peer opened on it. */
    var peerOpened: seq<PoolChannel>

    constructor ()
      ensures peerOpened == []
    {
      peerOpened := [];
    }

    /** One message of the peer, with every callback it leads to, the renewal included. */
    method OnMessage(channel: PoolChannel, w: Wire)
      modifies this, channel
      ensures channel.View() == Settle(OnDataFromPeer(old(channel.View()), w))
      ensures channel.dcSent == old(channel.dcSent)
      ensures peerOpened == old(peerOpened) +
                (if OnDataFromPeer(old(channel.View()), w).onceOpened.Fulfilled? then [channel] else [])
    {
      channel.ReceiveFromPeer(w);
      var isOpened := channel.onceOpened == Fulfilled;
      var isClosed := channel.RunCallbacks();
      if isOpened {
        peerOpened := peerOpened + [channel];
      }
      if isClosed {
        var _ := channel.Reset();
      }
    }
  }

  /**
   Lending a channel whose real channel is up, old or new, and delivering to the peer what that made it send: the
   peer's end, which waited to be opened, is open and has been announced once.
   */
  method LendAndAnnounce(local: LocalPool, createOk: bool, remote: RemotePool, peer: PoolChannel)
    returns (channel: PoolChannel)
    requires local.Valid() && (if local.pool_ == [] then createOk else local.pool_[0].number !in local.alloc.dead)
    requires peer.View() == FRESH_CHAN && peer !in local.pool_
    modifies local, local.pool_, remote, peer
    ensures local.Valid()
    ensures if old(local.pool_) == [] then fresh(channel) else channel == old(local.pool_[0])
    ensures channel.state_ == peer.state_ == Open
    ensures remote.peerOpened == old(remote.peerOpened) + [peer]
  {
    var before := if local.pool_ == [] then 0 else |local.pool_[0].dcSent|;
    var lent := local.OpenDataChannel(createOk);
    channel := lent.value;
    var sent := channel.dcSent[before..];
    assert sent == [ControlFrame("OPEN")] && channel.number !in local.alloc.dead;
    remote.OnMessage(peer, sent[0]);
  }
}
