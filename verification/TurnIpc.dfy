/**
 The messages that the two halves of the TURN server exchange: STUN messages with an IPC_TAG
 attribute appended that names the client, decoded in place by the receiver.
 */
module TurnIpc {
  import opened Basics
  import opened Text
  import opened StunMessages
  import opened StunAddresses
  import opened StunBuffers

  const ALLOCATE := 3
  const REFRESH := 4
  const SEND := 6
  const DATA := 7
  const CREATE_PERMISSION := 8

  const USERNAME := 0x06
  const ERROR_CODE := 0x09
  const LIFETIME := 0x0d
  const XOR_PEER_ADDRESS := 0x12
  const DATA_ATTRIBUTE := 0x13
  const REALM := 0x14
  const NONCE := 0x15
  const XOR_RELAYED_ADDRESS := 0x16
  const XOR_MAPPED_ADDRESS := 0x20
  const IPC_TAG := 0xeeff

  /** formatLifetimeAttribute's value for the one lifetime in use. */
  const TEN_MINUTES: seq<byte> := [0x00, 0x00, 600 / 256, 600 % 256]

  /** findFirstAttributeWithType: the position of the first attribute of the type. */
  function FindFirst(as_: seq<Attribute>, typ: nat): (r: Option<nat>)
    ensures r.Some? ==> r.value < |as_| && as_[r.value].typ == typ
    ensures r.Some? ==> forall j :: 0 <= j < r.value ==> as_[j].typ != typ
    ensures r.None? ==> forall j :: 0 <= j < |as_| ==> as_[j].typ != typ
  {
    if as_ == [] then None
    else if as_[0].typ == typ then Some(0)
    else
      match FindFirst(as_[1..], typ)
      case None => None
      case Some(i) => Some(i + 1)
  }

  datatype IpcError = NotStun | NoTag | BadTag

  /** A message as its receiver holds it, and the client it belongs to. */
  datatype Decoded = Decoded(message: Message, client: Endpoint)

  function TagAttribute(v: seq<byte>): Attribute {
    Attribute(IPC_TAG, Some(v))
  }

  /** emitIpc_: the bytes sent; nothing when printing the endpoint or the message throws. */
  function EmitIpc(m: Message, client: Endpoint): Option<seq<byte>> {
    match FormatXor(client)
    case Err(_) => None
    case Ok(v) =>
      match FormatMessage(m.(attributes := m.attributes + [TagAttribute(v)]))
      case Err(_) => None
      case Ok(b) => Some(b)
  }

  /** The common beginning of both handleIpc functions; decoding the tag rewrites its value. */
  function DecodeIpc(b: seq<byte>): Result<Decoded, IpcError> {
    match ParseMessage(b)
    case Err(_) => Err(NotStun)
    case Ok(m) =>
      match FindFirst(m.attributes, IPC_TAG)
      case None => Err(NoTag)
      case Some(i) =>
        match m.attributes[i].value
        case None => Err(BadTag)
        case Some(v) =>
          match ParseXor(v)
          case Err(_) => Err(BadTag)
          case Ok(client) =>
            Ok(Decoded(m.(attributes := m.attributes[i := TagAttribute(XorAddress(v))]), client))
  }

  /** The bytes of the first tag's value, if the buffer holds a message with one. */
  function TagSpan(b: seq<byte>): (r: Option<Span>)
    ensures r.Some? ==> Within(r.value, b)
  {
    if ParseMessage(b).Err? then None
    else
      MessageViews(b);
      match FindFirst(ParseMessage(b).value.attributes, IPC_TAG)
      case None => None
      case Some(i) =>
        var v := TheViews(b, 20)[i];
        assert ViewWithin(v, b);
        v.span
  }

  /** The buffer after that: only the tag's bytes differ, even when the decoded tag is then rejected. */
  function AfterDecode(b: seq<byte>): (r: seq<byte>)
    ensures |r| == |b|
  {
    match TagSpan(b)
    case None => b
    case Some(span) => if span.len < 8 then b else Patch(b, span, XorAddress(Slice(span, b)))
  }

  /** Decoding in place disturbs nothing else: the buffer still parses to the message as decoded. */
  lemma AfterDecodeParses(b: seq<byte>)
    requires DecodeIpc(b).Ok?
    ensures ParseMessage(AfterDecode(b)) == Ok(DecodeIpc(b).value.message)
  {
    MessageViews(b);
    var p := ParsedMessage(MethodOf(b[0], b[1]), ClassOf(b[0], b[1]), Span(8, 12), TheViews(b, 20));
    var i := FindFirst(ParseMessage(b).value.attributes, IPC_TAG).value;
    var span := p.attributes[i].span.value;
    PatchFrame(p, b, i, XorAddress(Slice(span, b)));
  }

  /** The bytes printed depend on no more than twelve bytes of the transaction ID. */
  lemma TwelveSuffice(m: Message)
    requires FormatMessage(m).Ok?
    ensures FormatMessage(m) == FormatMessage(m.(transactionId := Twelve(m.transactionId)))
  {
    var id := Twelve(m.transactionId);
    assert Twelve(id) == id;
    var length := |FormatAttributes(m.attributes)|;
    assert FormatHeader(m, length) == FormatHeader(m.(transactionId := id), length);
  }

  /** An endpoint that the address attribute can carry, or cannot even be given. */
  predicate Addressable(e: Endpoint) {
    FormatXor(e).Ok? ==> IsDottedQuad(e.address) && e.port < 65536
  }

  predicate Untagged(as_: seq<Attribute>) {
    forall i :: 0 <= i < |as_| ==> as_[i].typ != IPC_TAG
  }

  lemma {:induction false} FindAfter(as_: seq<Attribute>, a: Attribute, typ: nat)
    requires a.typ == typ
    ensures FindFirst(as_ + [a], typ) == if FindFirst(as_, typ).Some? then FindFirst(as_, typ) else Some(|as_|)
  {
    if as_ != [] {
      assert (as_ + [a])[1..] == as_[1..] + [a];
      FindAfter(as_[1..], a, typ);
    }
  }

  lemma {:induction false} FindNormal(as_: seq<Attribute>, typ: nat)
    ensures FindFirst(NormAll(as_), typ) == FindFirst(as_, typ)
  {
    if as_ != [] {
      assert NormAll(as_)[1..] == NormAll(as_[1..]);
      FindNormal(as_[1..], typ);
    }
  }

  /** What an emitted message parses to. */
  lemma EmittedParses(m: Message, client: Endpoint, b: seq<byte>)
    requires EmitIpc(m, client) == Some(b)
    requires Survives(m.method_, m.clazz) && AllFit(m.attributes)
    ensures ParseMessage(b) ==
            Ok(Message(m.method_, m.clazz, Twelve(m.transactionId),
                       NormAll(m.attributes) + [TagAttribute(FormatXor(client).value)]))
  {
    var tag := TagAttribute(FormatXor(client).value);
    var m' := m.(attributes := m.attributes + [tag]);
    TwelveSuffice(m');
    MessageRoundTrip(m'.(transactionId := Twelve(m.transactionId)));
    assert NormAll(m.attributes + [tag]) == NormAll(m.attributes) + [Norm(tag)];
    assert forall i :: 0 <= i < |m.attributes| ==> m'.attributes[i] == m.attributes[i];
  }

  /**
   The receiver takes an emitted message for the client that the sender named, and otherwise reads the
   message that was sent, provided that it did not hold an IPC_TAG already.
   */
  lemma EmittedDecodes(m: Message, client: Endpoint, b: seq<byte>)
    requires EmitIpc(m, client) == Some(b)
    requires Survives(m.method_, m.clazz) && AllFit(m.attributes)
    requires Addressable(client) && Untagged(m.attributes)
    ensures DecodeIpc(b) ==
            Ok(Decoded(Message(m.method_, m.clazz, Twelve(m.transactionId),
                               NormAll(m.attributes) + [TagAttribute(XorAddress(FormatXor(client).value))]),
                       client))
  {
    var v := FormatXor(client).value;
    EmittedParses(m, client, b);
    AddressRoundTrip(client);
    FindNormal(m.attributes, IPC_TAG);
    FindAfter(NormAll(m.attributes), TagAttribute(v), IPC_TAG);
    var as_ := NormAll(m.attributes) + [TagAttribute(v)];
    assert as_[|m.attributes| := TagAttribute(XorAddress(v))] == NormAll(m.attributes) + [TagAttribute(XorAddress(v))];
  }

  /**
   Without that proviso: a message that already holds an IPC_TAG is attributed to the endpoint in its
   own first tag, or rejected, so it reaches the right client exactly when that tag names the client.
   */
  lemma OwnTagWins(m: Message, client: Endpoint, b: seq<byte>, i: nat)
    requires EmitIpc(m, client) == Some(b)
    requires Survives(m.method_, m.clazz) && AllFit(m.attributes)
    requires FindFirst(m.attributes, IPC_TAG) == Some(i)
    ensures DecodeIpc(b).Ok? && DecodeIpc(b).value.client == client
       <==> m.attributes[i].value.Some? && ParseXor(m.attributes[i].value.value) == Ok(client)
  {
    EmittedParses(m, client, b);
    FindNormal(m.attributes, IPC_TAG);
    FindAfter(NormAll(m.attributes), TagAttribute(FormatXor(client).value), IPC_TAG);
    var as_ := NormAll(m.attributes) + [TagAttribute(FormatXor(client).value)];
    assert as_[i] == Norm(m.attributes[i]);
  }

  /** The result of handling a buffer: what it was decoded to, and its bytes afterwards. */
  method DecodeIpcInPlace(data: array<byte>) returns (r: Result<Decoded, IpcError>)
    modifies data
    ensures r == DecodeIpc(old(data[..]))
    ensures data[..] == AfterDecode(old(data[..]))
  {
    var parsed := ParseStunMessage(data);
    if parsed.Err? {
      return Err(NotStun);
    }
    var p := parsed.value;
    ghost var before := data[..];
    ghost var m := ShowMessage(p, before);
    var found := FindFirstAttributeWithType(IPC_TAG, p.attributes);
    FirstOfViews(p.attributes, before, IPC_TAG, found);
    ViewsUnique(p.attributes, before, 20);
    if found.None? {
      return Err(NoTag);
    }
    var span := p.attributes[found.value].span;
    assert TagSpan(before) == span;
    if span.None? {
      return Err(BadTag);
    }
    var client := ParseXorMappedAddress(data, span.value);
    assert data[..] == AfterDecode(before);
    if client.Err? {
      return Err(BadTag);
    }
    PatchFrame(p, before, found.value, XorAddress(Slice(span.value, before)));
    return Ok(Decoded(ShowMessage(p, data[..]), client.value));
  }

  lemma FirstOfViews(vs: seq<View>, b: seq<byte>, typ: nat, found: Option<nat>)
    requires AllWithin(vs, b)
    requires found.None? ==> forall j :: 0 <= j < |vs| ==> vs[j].typ != typ
    requires found.Some? ==> found.value < |vs| && vs[found.value].typ == typ
    requires found.Some? ==> forall j :: 0 <= j < found.value ==> vs[j].typ != typ
    ensures FindFirst(ShowAll(vs, b), typ) == found
  {
    var as_ := ShowAll(vs, b);
    assert forall j :: 0 <= j < |vs| ==> as_[j].typ == vs[j].typ;
  }
}
