/**
 The churn pipe: it obfuscates the datagrams that a browser sends and restores those that it receives,
 with one mirror socket for each remote endpoint.

 A mirror socket is named by its position in the order of creation.
 */
module ChurnPipes {
  import opened Basics
  import opened Text
  import C = Caesar

  datatype Transformer = PassThrough | Caesar(shift: C.Shift)

  datatype Error = UnknownTransformer | BadKey

  function MakeTransformer(name: string, key: Option<seq<byte>>): Result<Transformer, Error> {
    if name == "caesar" then
      match key
      case None => Ok(Caesar(None))
      case Some(k) => if |k| != 1 then Err(BadKey) else Ok(Caesar(Some(k[0])))
    else if name == "none" then Ok(PassThrough)
    else Err(UnknownTransformer)
  }

  function Obfuscate(t: Transformer, b: seq<byte>): seq<byte> {
    if t.PassThrough? then b else C.Transform(t.shift, b)
  }

  function Deobfuscate(t: Transformer, b: seq<byte>): seq<byte> {
    if t.PassThrough? then b else C.Restore(t.shift, b)
  }

  /** What the configurations mean: nothing is changed, every byte is shifted by the key, or all becomes zero. */
  lemma Configured(name: string, key: Option<seq<byte>>, b: seq<byte>)
    ensures var t := MakeTransformer(name, key);
            && (name == "none" ==> t.Ok? && Obfuscate(t.value, b) == b)
            && (name == "caesar" && key.None? ==> t.Ok? && Obfuscate(t.value, b) == Zeros(|b|))
            && (name == "caesar" && key.Some? ==>
                  if |key.value| == 1 then t.Ok? && IsShifted(Obfuscate(t.value, b), key.value[0], b)
                  else t == Err(BadKey))
            && (name != "none" && name != "caesar" ==> t == Err(UnknownTransformer))
  {
    if key.Some? && |key.value| == 1 {
      forall i | 0 <= i < |b|
        ensures C.Transform(Some(key.value[0]), b)[i] as int - b[i] as int - key.value[0] as int in {0, -256}
      {
        C.Shifted(key.value[0], b, i);
      }
    }
  }

  predicate IsShifted(x: seq<byte>, s: byte, b: seq<byte>) {
    |x| == |b| && forall i :: 0 <= i < |b| ==> x[i] as int - b[i] as int - s as int in {0, -256}
  }

  predicate Keyed(t: Transformer) {
    t.PassThrough? || t.shift.Some?
  }

  lemma Deobfuscated(t: Transformer, b: seq<byte>)
    requires Keyed(t)
    ensures Deobfuscate(t, Obfuscate(t, b)) == b
  {
    if t.Caesar? {
      C.Inverse(t.shift, b);
    }
  }

  // ---------------------------------------------------------------- one pipe

  /** While it is being bound, a mirror socket made for an incoming datagram has that waiting. */
  datatype Status = Binding(waiting: Option<seq<byte>>) | Bound | BindFailed

  datatype Mirror = Mirror(remote: Endpoint, status: Status)

  /**
   ToBrowser is a call of a mirror socket's sendTo; it is up to the socket whether that sends anything when it
   is not `bound`.
   */
  datatype Effect =
    | ToNetwork(bytes: seq<byte>, to: Endpoint)
    | ToBrowser(mirror: nat, bytes: seq<byte>, to: Endpoint, bound: bool)

  /** `keys` is mirrorSockets_. */
  datatype PipeState = PipeState(
    transformer: Transformer,
    keys: map<string, nat>,
    mirrors: seq<Mirror>,
    browser: Option<Endpoint>)

  const FRESH_PIPE := PipeState(PassThrough, map[], [], None)

  predicate IsBound(p: PipeState, i: nat) {
    i < |p.mirrors| && p.mirrors[i].status.Bound?
  }

  /** Without a browser endpoint the send throws. */
  function Deliver(p: PipeState, i: nat, b: seq<byte>): seq<Effect> {
    if p.browser.None? then [] else [ToBrowser(i, b, p.browser.value, IsBound(p, i))]
  }

  function AddMirror(p: PipeState, remote: Endpoint, waiting: Option<seq<byte>>): PipeState {
    p.(keys := p.keys[EndpointKey(remote) := |p.mirrors|], mirrors := p.mirrors + [Mirror(remote, Binding(waiting))])
  }

  /** A socket that is in the map is used at once, even while it is still being bound. */
  function OnIncoming(p: PipeState, from: Endpoint, b: seq<byte>): (PipeState, seq<Effect>) {
    var plain := Deobfuscate(p.transformer, b);
    var key := EndpointKey(from);
    if key in p.keys then (p, Deliver(p, p.keys[key], plain))
    else (AddMirror(p, from, Some(plain)), [])
  }

  function BindRemote(p: PipeState, remote: Endpoint): PipeState {
    if EndpointKey(remote) in p.keys then p else AddMirror(p, remote, None)
  }

  function OnMirrorBound(p: PipeState, i: nat, ok: bool): (PipeState, seq<Effect>) {
    if i >= |p.mirrors| || !p.mirrors[i].status.Binding? then (p, [])
    else
      var m := p.mirrors[i];
      var p' := p.(mirrors := p.mirrors[i := m.(status := if ok then Bound else BindFailed)]);
      (p', if ok && m.status.waiting.Some? then Deliver(p', i, m.status.waiting.value) else [])
  }

  /** A mirror socket has its onData handler once it is bound. */
  function OnMirrorData(p: PipeState, i: nat, b: seq<byte>): seq<Effect> {
    if i >= |p.mirrors| || !p.mirrors[i].status.Bound? then []
    else [ToNetwork(Obfuscate(p.transformer, b), p.mirrors[i].remote)]
  }

  /** The map and the sockets correspond one to one. */
  predicate PipeOk(p: PipeState) {
    && (forall key :: key in p.keys ==> p.keys[key] < |p.mirrors| && EndpointKey(p.mirrors[p.keys[key]].remote) == key)
    && (forall i :: 0 <= i < |p.mirrors| ==>
          EndpointKey(p.mirrors[i].remote) in p.keys && p.keys[EndpointKey(p.mirrors[i].remote)] == i)
  }

  /** One mirror socket per endpoint. */
  lemma MirrorsDistinct(p: PipeState, i: nat, j: nat)
    requires PipeOk(p) && i < |p.mirrors| && j < |p.mirrors|
    ensures p.mirrors[i].remote == p.mirrors[j].remote <==> i == j
  {
  }

  lemma PipeKeeps(p: PipeState, e: Endpoint, waiting: Option<seq<byte>>)
    requires PipeOk(p)
    ensures EndpointKey(e) !in p.keys ==> PipeOk(AddMirror(p, e, waiting))
    ensures PipeOk(BindRemote(p, e))
  {
    if EndpointKey(e) !in p.keys {
      AddMirrorOk(p, e, waiting);
      AddMirrorOk(p, e, None);
    }
  }

  lemma AddMirrorOk(p: PipeState, e: Endpoint, waiting: Option<seq<byte>>)
    requires PipeOk(p) && EndpointKey(e) !in p.keys
    ensures PipeOk(AddMirror(p, e, waiting))
  {
  }

  class Pipe {
    /** Null for the transformer that does nothing. */
    var transformer_: C.CaesarCipher?
    var mirrorSockets_: map<string, nat>
    var mirrors: seq<Mirror>
    var browserEndpoint_: Option<Endpoint>
    var effects: seq<Effect>

    function View(): PipeState
      reads this, transformer_
    {
      PipeState(if transformer_ == null then PassThrough else Caesar(transformer_.shift_),
                mirrorSockets_, mirrors, browserEndpoint_)
    }

    constructor ()
      ensures View() == FRESH_PIPE && effects == []
    {
      transformer_ := null;
      mirrorSockets_, mirrors, browserEndpoint_, effects := map[], [], None, [];
    }

    /** On failure the old transformer stays. */
    method SetTransformer(name: string, key: array?<byte>) returns (r: Result<(), Error>)
      modifies this
      ensures var t := MakeTransformer(name, if key == null then None else Some(key[..]));
              && (r.Ok? <==> t.Ok?)
              && View() == (if t.Ok? then old(View()).(transformer := t.value) else old(View()))
      ensures effects == old(effects)
    {
      if name == "caesar" {
        var cipher := new C.CaesarCipher();
        if key != null {
          var set_ := cipher.SetKey(key);
          if set_.Err? {
            return Err(BadKey);
          }
        }
        transformer_ := cipher;
      } else if name == "none" {
        transformer_ := null;
      } else {
        return Err(UnknownTransformer);
      }
      return Ok(());
    }

    method SetBrowserEndpoint(e: Endpoint)
      modifies this
      ensures View() == old(View()).(browser := Some(e)) && effects == old(effects)
    {
      browserEndpoint_ := Some(e);
    }

    method SendToBrowser(i: nat, b: seq<byte>)
      modifies `effects
      ensures effects == old(effects) + Deliver(View(), i, b)
    {
      if browserEndpoint_.Some? {
        var bound := i < |mirrors| && mirrors[i].status.Bound?;
        effects := effects + [ToBrowser(i, b, browserEndpoint_.value, bound)];
      }
    }

    method NewMirrorSocket(remote: Endpoint, waiting: Option<seq<byte>>)
      modifies this
      ensures View() == AddMirror(old(View()), remote, waiting) && effects == old(effects)
    {
      mirrorSockets_ := mirrorSockets_[EndpointKey(remote) := |mirrors|];
      mirrors := mirrors + [Mirror(remote, Binding(waiting))];
    }

    method HandleBindRemote(remote: Endpoint)
      modifies this
      ensures View() == BindRemote(old(View()), remote) && effects == old(effects)
    {
      if EndpointKey(remote) !in mirrorSockets_ {
        NewMirrorSocket(remote, None);
      }
    }

    /** onIncomingData_: the buffer is restored in place. */
    method HandleIncomingData(data: array<byte>, source: Endpoint)
      modifies this, data
      ensures View() == OnIncoming(old(View()), source, old(data[..])).0
      ensures effects == old(effects) + OnIncoming(old(View()), source, old(data[..])).1
    {
      if transformer_ != null {
        transformer_.RestoreInPlace(data);
      }
      var key := EndpointKey(source);
      if key in mirrorSockets_ {
        SendToBrowser(mirrorSockets_[key], data[..]);
      } else {
        NewMirrorSocket(source, Some(data[..]));
      }
    }

    method HandleMirrorBound(i: nat, ok: bool)
      modifies this
      ensures View() == OnMirrorBound(old(View()), i, ok).0
      ensures effects == old(effects) + OnMirrorBound(old(View()), i, ok).1
    {
      if i < |mirrors| && mirrors[i].status.Binding? {
        var waiting := mirrors[i].status.waiting;
        mirrors := mirrors[i := mirrors[i].(status := if ok then Bound else BindFailed)];
        if ok && waiting.Some? {
          SendToBrowser(i, waiting.value);
        }
      }
    }

    /** sendTo_, for a datagram that the browser sent to a mirror socket: obfuscated in place. */
    method HandleMirrorData(i: nat, data: array<byte>)
      modifies this, data
      ensures View() == old(View())
      ensures effects == old(effects) + OnMirrorData(View(), i, old(data[..]))
    {
      if i < |mirrors| && mirrors[i].status.Bound? {
        if transformer_ != null {
          transformer_.TransformInPlace(data);
        }
        effects := effects + [ToNetwork(data[..], mirrors[i].remote)];
      }
    }
  }

  // ---------------------------------------------------------------- pipes on a network

  /** A datagram on the network: the pipe that sent it, and what its browser had passed to the mirror socket. */
  datatype Packet = Packet(from: nat, to: Endpoint, bytes: seq<byte>, plain: seq<byte>)

  /** A datagram passed to one of the mirror sockets of a pipe, for its browser. */
  datatype Delivery = Delivery(at: nat, mirror: nat, bytes: seq<byte>)

  /** The network may lose, repeat and reorder: any datagram ever sent may arrive at any time. */
  datatype World = World(pipes: seq<PipeState>, sent: seq<Packet>, delivered: seq<Delivery>)

  datatype Event =
    | SetBrowser(e: Endpoint)
    | Bind(remote: Endpoint)
    | MirrorBound(i: nat, ok: bool)
    | FromBrowser(i: nat, bytes: seq<byte>)
    | Arrives(k: nat)

  function Start(n: nat, t: Transformer): World {
    World(seq(n, _ => FRESH_PIPE.(transformer := t)), [], [])
  }

  function Packets(q: nat, plain: seq<byte>, es: seq<Effect>): seq<Packet> {
    if es == [] then []
    else (if es[0].ToNetwork? then [Packet(q, es[0].to, es[0].bytes, plain)] else []) + Packets(q, plain, es[1..])
  }

  function Deliveries(q: nat, es: seq<Effect>): seq<Delivery> {
    if es == [] then []
    else (if es[0].ToBrowser? then [Delivery(q, es[0].mirror, es[0].bytes)] else []) + Deliveries(q, es[1..])
  }

  /** The pipes have the public endpoints `addrs`; the event happens at pipe q. */
  function Step(w: World, addrs: seq<Endpoint>, q: nat, e: Event): World {
    if q >= |w.pipes| || q >= |addrs| then w
    else
      var p := w.pipes[q];
      match e
      case SetBrowser(b) => w.(pipes := w.pipes[q := p.(browser := Some(b))])
      case Bind(remote) => w.(pipes := w.pipes[q := BindRemote(p, remote)])
      case MirrorBound(i, ok) =>
        var (p', es) := OnMirrorBound(p, i, ok);
        w.(pipes := w.pipes[q := p'], delivered := w.delivered + Deliveries(q, es))
      case FromBrowser(i, b) => w.(sent := w.sent + Packets(q, b, OnMirrorData(p, i, b)))
      case Arrives(k) =>
        if k >= |w.sent| || w.sent[k].to != addrs[q] || w.sent[k].from >= |addrs| then w
        else
          var (p', es) := OnIncoming(p, addrs[w.sent[k].from], w.sent[k].bytes);
          w.(pipes := w.pipes[q := p'], delivered := w.delivered + Deliveries(q, es))
  }

  datatype At = At(q: nat, event: Event)

  function Run(w: World, addrs: seq<Endpoint>, es: seq<At>): World {
    if es == [] then w
    else Step(Run(w, addrs, es[..|es| - 1]), addrs, es[|es| - 1].q, es[|es| - 1].event)
  }

  predicate IsFrom(x: Packet, addrs: seq<Endpoint>, q: nat, from: Endpoint, b: seq<byte>)
    requires q < |addrs|
  {
    x.to == addrs[q] && x.from < |addrs| && addrs[x.from] == from && x.plain == b
  }

  /** b is what some browser sent to pipe q through the pipe at `from`. */
  predicate CameFrom(sent: seq<Packet>, addrs: seq<Endpoint>, q: nat, from: Endpoint, b: seq<byte>)
    requires q < |addrs|
  {
    exists k :: 0 <= k < |sent| && IsFrom(sent[k], addrs, q, from, b)
  }

  predicate PacketOk(x: Packet, t: Transformer) {
    x.bytes == Obfuscate(t, x.plain)
  }

  predicate MirrorsOk(p: PipeState, sent: seq<Packet>, addrs: seq<Endpoint>, q: nat)
    requires q < |addrs|
  {
    forall i :: 0 <= i < |p.mirrors| && p.mirrors[i].status.Binding? && p.mirrors[i].status.waiting.Some? ==>
      CameFrom(sent, addrs, q, p.mirrors[i].remote, p.mirrors[i].status.waiting.value)
  }

  predicate DeliveryOk(d: Delivery, w: World, addrs: seq<Endpoint>) {
    && d.at < |addrs| && d.at < |w.pipes| && d.mirror < |w.pipes[d.at].mirrors|
    && CameFrom(w.sent, addrs, d.at, w.pipes[d.at].mirrors[d.mirror].remote, d.bytes)
  }

  predicate Inv(w: World, addrs: seq<Endpoint>, t: Transformer) {
    && |w.pipes| == |addrs|
    && (forall q :: 0 <= q < |w.pipes| ==>
          PipeOk(w.pipes[q]) && w.pipes[q].transformer == t && MirrorsOk(w.pipes[q], w.sent, addrs, q))
    && (forall k :: 0 <= k < |w.sent| ==> PacketOk(w.sent[k], t))
    && (forall i :: 0 <= i < |w.delivered| ==> DeliveryOk(w.delivered[i], w, addrs))
  }

  /** The sockets of a pipe stay, for the endpoints they were made for. */
  predicate MirrorsGrow(p: PipeState, p': PipeState) {
    |p.mirrors| <= |p'.mirrors| && forall i :: 0 <= i < |p.mirrors| ==> p'.mirrors[i].remote == p.mirrors[i].remote
  }

  predicate Explained(d: Delivery, q: nat, p: PipeState, sent: seq<Packet>, addrs: seq<Endpoint>)
    requires q < |addrs|
  {
    d.at == q && d.mirror < |p.mirrors| && CameFrom(sent, addrs, q, p.mirrors[d.mirror].remote, d.bytes)
  }

  predicate AllExplained(ds: seq<Delivery>, q: nat, p: PipeState, sent: seq<Packet>, addrs: seq<Endpoint>)
    requires q < |addrs|
  {
    forall i :: 0 <= i < |ds| ==> Explained(ds[i], q, p, sent, addrs)
  }

  lemma OneDelivery(p: PipeState, q: nat, i: nat, b: seq<byte>)
    ensures Deliveries(q, Deliver(p, i, b)) == if p.browser.Some? then [Delivery(q, i, b)] else []
  {
    if p.browser.Some? {
      assert Deliver(p, i, b)[1..] == [];
    }
  }

  /** A pipe has changed, and may have delivered something. */
  lemma PipeChanges(w: World, addrs: seq<Endpoint>, t: Transformer, q: nat, p': PipeState, ds: seq<Delivery>)
    requires Inv(w, addrs, t) && q < |addrs|
    requires PipeOk(p') && p'.transformer == t && MirrorsOk(p', w.sent, addrs, q) && MirrorsGrow(w.pipes[q], p')
    requires AllExplained(ds, q, p', w.sent, addrs)
    ensures Inv(w.(pipes := w.pipes[q := p'], delivered := w.delivered + ds), addrs, t)
  {
    var w' := w.(pipes := w.pipes[q := p'], delivered := w.delivered + ds);
    forall i | 0 <= i < |w'.delivered|
      ensures DeliveryOk(w'.delivered[i], w', addrs)
    {
      if i < |w.delivered| {
        assert DeliveryOk(w.delivered[i], w, addrs);
      }
    }
  }

  lemma CameFromMore(sent: seq<Packet>, more: seq<Packet>, addrs: seq<Endpoint>, q: nat, from: Endpoint, b: seq<byte>)
    requires q < |addrs| && CameFrom(sent, addrs, q, from, b)
    ensures CameFrom(sent + more, addrs, q, from, b)
  {
    var k :| 0 <= k < |sent| && IsFrom(sent[k], addrs, q, from, b);
    assert (sent + more)[k] == sent[k];
  }

  lemma SendKeeps(w: World, addrs: seq<Endpoint>, t: Transformer, x: Packet)
    requires Inv(w, addrs, t) && PacketOk(x, t)
    ensures Inv(w.(sent := w.sent + [x]), addrs, t)
  {
    var w' := w.(sent := w.sent + [x]);
    forall q | 0 <= q < |w.pipes|
      ensures MirrorsOk(w.pipes[q], w'.sent, addrs, q)
    {
      var p := w.pipes[q];
      forall i | 0 <= i < |p.mirrors| && p.mirrors[i].status.Binding? && p.mirrors[i].status.waiting.Some?
        ensures CameFrom(w'.sent, addrs, q, p.mirrors[i].remote, p.mirrors[i].status.waiting.value)
      {
        CameFromMore(w.sent, [x], addrs, q, p.mirrors[i].remote, p.mirrors[i].status.waiting.value);
      }
    }
    forall i | 0 <= i < |w.delivered|
      ensures DeliveryOk(w.delivered[i], w', addrs)
    {
      var d := w.delivered[i];
      assert DeliveryOk(d, w, addrs);
      CameFromMore(w.sent, [x], addrs, d.at, w.pipes[d.at].mirrors[d.mirror].remote, d.bytes);
    }
  }

  lemma ArrivalKeeps(w: World, addrs: seq<Endpoint>, t: Transformer, q: nat, k: nat)
    requires Inv(w, addrs, t) && Keyed(t) && q < |addrs|
    ensures Inv(Step(w, addrs, q, Arrives(k)), addrs, t)
  {
    if k < |w.sent| && w.sent[k].to == addrs[q] && w.sent[k].from < |addrs| {
      var x, p := w.sent[k], w.pipes[q];
      var from := addrs[x.from];
      assert PacketOk(x, t);
      Deobfuscated(t, x.plain);
      assert CameFrom(w.sent, addrs, q, from, x.plain);
      var (p', es) := OnIncoming(p, from, x.bytes);
      if EndpointKey(from) in p.keys {
        EndpointKeyInjective(from, p.mirrors[p.keys[EndpointKey(from)]].remote);
        OneDelivery(p, q, p.keys[EndpointKey(from)], x.plain);
      } else {
        AddMirrorOk(p, from, Some(x.plain));
      }
      PipeChanges(w, addrs, t, q, p', Deliveries(q, es));
    }
  }

  lemma BoundKeeps(w: World, addrs: seq<Endpoint>, t: Transformer, q: nat, i: nat, ok: bool)
    requires Inv(w, addrs, t) && q < |addrs|
    ensures Inv(Step(w, addrs, q, MirrorBound(i, ok)), addrs, t)
  {
    BoundOk(w.pipes[q], w.sent, addrs, q, i, ok);
    var (p', es) := OnMirrorBound(w.pipes[q], i, ok);
    PipeChanges(w, addrs, t, q, p', Deliveries(q, es));
  }

  lemma BoundOk(p: PipeState, sent: seq<Packet>, addrs: seq<Endpoint>, q: nat, i: nat, ok: bool)
    requires q < |addrs| && PipeOk(p) && MirrorsOk(p, sent, addrs, q)
    ensures var (p', es) := OnMirrorBound(p, i, ok);
            var ds := Deliveries(q, es);
            && PipeOk(p') && p'.transformer == p.transformer && MirrorsOk(p', sent, addrs, q) && MirrorsGrow(p, p')
            && AllExplained(ds, q, p', sent, addrs)
  {
    if i < |p.mirrors| && p.mirrors[i].status.Binding? && p.mirrors[i].status.waiting.Some? {
      OneDelivery(OnMirrorBound(p, i, ok).0, q, i, p.mirrors[i].status.waiting.value);
    }
  }

  lemma StepKeeps(w: World, addrs: seq<Endpoint>, t: Transformer, q: nat, e: Event)
    requires Inv(w, addrs, t) && Keyed(t)
    ensures Inv(Step(w, addrs, q, e), addrs, t)
  {
    if q < |addrs| {
      var p := w.pipes[q];
      match e
      case SetBrowser(b) =>
        PipeChanges(w, addrs, t, q, p.(browser := Some(b)), []);
        assert w.delivered + [] == w.delivered;
      case Bind(remote) =>
        PipeKeeps(p, remote, None);
        PipeChanges(w, addrs, t, q, BindRemote(p, remote), []);
        assert w.delivered + [] == w.delivered;
      case MirrorBound(i, ok) => BoundKeeps(w, addrs, t, q, i, ok);
      case FromBrowser(i, b) =>
        var es := OnMirrorData(p, i, b);
        if es == [] {
          assert w.sent + [] == w.sent;
        } else {
          assert Packets(q, b, es) == [Packet(q, es[0].to, es[0].bytes, b)];
          SendKeeps(w, addrs, t, Packet(q, es[0].to, es[0].bytes, b));
        }
      case Arrives(k) => ArrivalKeeps(w, addrs, t, q, k);
    }
  }

  lemma {:induction false} RunKeeps(addrs: seq<Endpoint>, t: Transformer, es: seq<At>)
    requires Keyed(t)
    ensures Inv(Run(Start(|addrs|, t), addrs, es), addrs, t)
  {
    if es != [] {
      RunKeeps(addrs, t, es[..|es| - 1]);
      StepKeeps(Run(Start(|addrs|, t), addrs, es[..|es| - 1]), addrs, t, es[|es| - 1].q, es[|es| - 1].event);
    }
  }

  // ---------------------------------------------------------------- over every run

  /**
   Transparency: among pipes with one transformer, each keyed, whatever a browser is sent through a mirror
   socket is byte for byte a datagram that some browser sent to this pipe, through the pipe whose public
   endpoint the mirror socket stands for.
   */
  lemma Transparent(addrs: seq<Endpoint>, t: Transformer, es: seq<At>, i: nat)
    requires Keyed(t) && i < |Run(Start(|addrs|, t), addrs, es).delivered|
    ensures DeliveryOk(Run(Start(|addrs|, t), addrs, es).delivered[i], Run(Start(|addrs|, t), addrs, es), addrs)
  {
    RunKeeps(addrs, t, es);
  }

  predicate PipesOk(w: World) {
    forall q :: 0 <= q < |w.pipes| ==> PipeOk(w.pipes[q])
  }

  lemma PipesKept(w: World, addrs: seq<Endpoint>, q: nat, e: Event)
    requires PipesOk(w)
    ensures PipesOk(Step(w, addrs, q, e))
  {
    if q < |w.pipes| && q < |addrs| {
      var p := w.pipes[q];
      match e
      case Bind(remote) => PipeKeeps(p, remote, None);
      case MirrorBound(i, ok) => assert PipeOk(OnMirrorBound(p, i, ok).0);
      case Arrives(k) =>
        if k < |w.sent| && w.sent[k].from < |addrs| {
          PipeKeeps(p, addrs[w.sent[k].from], Some(Deobfuscate(p.transformer, w.sent[k].bytes)));
        }
      case _ =>
    }
  }

  lemma {:induction false} PipesKeptInRun(addrs: seq<Endpoint>, t: Transformer, es: seq<At>)
    ensures PipesOk(Run(Start(|addrs|, t), addrs, es))
  {
    if es != [] {
      PipesKeptInRun(addrs, t, es[..|es| - 1]);
      PipesKept(Run(Start(|addrs|, t), addrs, es[..|es| - 1]), addrs, es[|es| - 1].q, es[|es| - 1].event);
    }
  }

  predicate MirrorsApart(p: PipeState) {
    forall i, j :: 0 <= i < j < |p.mirrors| ==> p.mirrors[i].remote != p.mirrors[j].remote
  }

  /** However datagrams and calls to bindRemote interleave, a pipe has one mirror socket per endpoint. */
  lemma OneMirrorPerEndpoint(addrs: seq<Endpoint>, t: Transformer, es: seq<At>)
    ensures forall p :: p in Run(Start(|addrs|, t), addrs, es).pipes ==> MirrorsApart(p)
  {
    PipesKeptInRun(addrs, t, es);
    forall p | p in Run(Start(|addrs|, t), addrs, es).pipes
      ensures MirrorsApart(p)
    {
      forall i, j | 0 <= i < j < |p.mirrors|
        ensures p.mirrors[i].remote != p.mirrors[j].remote
      {
        MirrorsDistinct(p, i, j);
      }
    }
  }

  /** Two datagrams of one endpoint that arrive one right after the other. */
  function TwoArrivals(p: PipeState, from: Endpoint, b1: seq<byte>, b2: seq<byte>): (PipeState, seq<Effect>) {
    var (p1, es1) := OnIncoming(p, from, b1);
    var (p2, es2) := OnIncoming(p1, from, b2);
    (p2, es1 + es2)
  }

  /**
   They are passed on in order if and only if the mirror socket existed before. Otherwise the second is passed
   first, to a socket that is not bound yet, and the first to the bound socket later, or never if binding fails.
   */
  lemma SecondOvertakes(p: PipeState, from: Endpoint, b1: seq<byte>, b2: seq<byte>)
    requires p.browser.Some?
    ensures var (p', es) := TwoArrivals(p, from, b1, b2);
            var first, second := Deobfuscate(p.transformer, b1), Deobfuscate(p.transformer, b2);
            var to := p.browser.value;
            EndpointKey(from) in p'.keys &&
            var i := p'.keys[EndpointKey(from)];
            var bound := IsBound(p', i);
            var inOrder := [ToBrowser(i, first, to, bound), ToBrowser(i, second, to, bound)];
            && (es == inOrder <==> EndpointKey(from) in p.keys)
            && (EndpointKey(from) !in p.keys ==>
                  && !bound && es == [ToBrowser(i, second, to, false)]
                  && OnMirrorBound(p', i, true).1 == [ToBrowser(i, first, to, true)]
                  && OnMirrorBound(p', i, false).1 == [])
  {
  }

  /**
   What arrives from an endpoint with a mirror socket is passed on at once, restored, to that socket and for the
   browser endpoint set; the socket is bound by then, so that it is sent, if and only if its binding has succeeded.
   */
  lemma ArrivalDelivered(p: PipeState, from: Endpoint, plain: seq<byte>)
    requires PipeOk(p) && Keyed(p.transformer) && p.browser.Some? && EndpointKey(from) in p.keys
    ensures var i := p.keys[EndpointKey(from)];
            && p.mirrors[i].remote == from
            && OnIncoming(p, from, Obfuscate(p.transformer, plain))
                 == (p, [ToBrowser(i, plain, p.browser.value, p.mirrors[i].status.Bound?)])
  {
    Deobfuscated(p.transformer, plain);
    EndpointKeyInjective(from, p.mirrors[p.keys[EndpointKey(from)]].remote);
  }

  /**
   From browser to browser: what is passed to a bound mirror socket leaves as one datagram for the endpoint it
   stands for, obfuscated; and when that arrives at a pipe with a mirror socket for the sender, it is passed on,
   once, through that socket, as it was.
   */
  lemma SentAndDelivered(w: World, addrs: seq<Endpoint>, t: Transformer, a: nat, b: nat, i: nat, plain: seq<byte>)
    requires Inv(w, addrs, t) && Keyed(t) && a < |addrs| && b < |addrs|
    requires IsBound(w.pipes[a], i) && w.pipes[a].mirrors[i].remote == addrs[b]
    requires w.pipes[b].browser.Some? && EndpointKey(addrs[a]) in w.pipes[b].keys
    ensures var w1 := Step(w, addrs, a, FromBrowser(i, plain));
            var w2 := Step(w1, addrs, b, Arrives(|w.sent|));
            && w1 == w.(sent := w.sent + [Packet(a, addrs[b], Obfuscate(t, plain), plain)])
            && w2 == w1.(delivered := w.delivered + [Delivery(b, w.pipes[b].keys[EndpointKey(addrs[a])], plain)])
  {
    OnePacket(w.pipes[a], a, i, plain);
    var p := w.pipes[b];
    ArrivalDelivered(p, addrs[a], plain);
    OneDelivery(p, b, p.keys[EndpointKey(addrs[a])], plain);
    assert w.pipes[b := p] == w.pipes;
  }

  lemma OnePacket(p: PipeState, q: nat, i: nat, b: seq<byte>)
    requires IsBound(p, i)
    ensures Packets(q, b, OnMirrorData(p, i, b)) == [Packet(q, p.mirrors[i].remote, Obfuscate(p.transformer, b), b)]
  {
    assert OnMirrorData(p, i, b)[1..] == [];
  }

  /** bindRemote provides for a mirror socket, which passes on what it receives once it is bound. */
  lemma RemoteBound(p: PipeState, remote: Endpoint, b: seq<byte>)
    requires PipeOk(p)
    ensures var p1 := BindRemote(p, remote);
            && EndpointKey(remote) in p1.keys
            && var i := p1.keys[EndpointKey(remote)];
               var (p2, es) := OnMirrorBound(p1, i, true);
               && p1.mirrors[i].remote == remote
               && (EndpointKey(remote) !in p.keys ==>
                     es == [] && OnMirrorData(p2, i, b) == [ToNetwork(Obfuscate(p.transformer, b), remote)])
  {
    if EndpointKey(remote) in p.keys {
      EndpointKeyInjective(p.mirrors[p.keys[EndpointKey(remote)]].remote, remote);
    }
  }
}
