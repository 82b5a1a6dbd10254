/**
 The STUN codec on byte arrays: messages are parsed into views of the array they came in,
 printed into an array in a sizing and a writing pass, and addresses are decoded in place.
 */
module StunBuffers {
  import opened Basics
  import opened Text
  import opened StunMessages
  import opened StunAddresses

  /** A subarray: where it starts and how long it is. */
  datatype Span = Span(start: nat, len: nat)

  /** An attribute whose value is a subarray of the buffer it was parsed from. */
  datatype View = View(typ: nat, span: Option<Span>)

  datatype ParsedMessage = ParsedMessage(method_: nat, clazz: MessageClass, transactionId: Span, attributes: seq<View>)

  predicate Within(s: Span, b: seq<byte>) {
    s.start + s.len <= |b|
  }

  function Slice(s: Span, b: seq<byte>): seq<byte>
    requires Within(s, b)
  {
    b[s.start..s.start + s.len]
  }

  predicate ViewWithin(v: View, b: seq<byte>) {
    v.span.Some? ==> Within(v.span.value, b)
  }

  /** What a view shows while its buffer holds b. */
  function Show(v: View, b: seq<byte>): Attribute
    requires ViewWithin(v, b)
  {
    Attribute(v.typ, if v.span.Some? then Some(Slice(v.span.value, b)) else None)
  }

  predicate AllWithin(vs: seq<View>, b: seq<byte>) {
    forall i :: 0 <= i < |vs| ==> ViewWithin(vs[i], b)
  }

  function ShowAll(vs: seq<View>, b: seq<byte>): seq<Attribute>
    requires AllWithin(vs, b)
  {
    seq(|vs|, i requires 0 <= i < |vs| => Show(vs[i], b))
  }

  predicate ParsedWithin(p: ParsedMessage, b: seq<byte>) {
    Within(p.transactionId, b) && AllWithin(p.attributes, b)
  }

  function ShowMessage(p: ParsedMessage, b: seq<byte>): Message
    requires ParsedWithin(p, b)
  {
    Message(p.method_, p.clazz, Slice(p.transactionId, b), ShowAll(p.attributes, b))
  }

  function SpanLength(v: View): nat {
    if v.span.Some? then v.span.value.len else 0
  }

  /** v is the attribute that b holds at `off`. */
  predicate ViewAt(v: View, b: seq<byte>, off: nat) {
    && off + 4 <= |b|
    && v.typ == U16(b, off)
    && var length := U16(b, off + 2);
       if length == 0 then v.span == None
       else v.span == Some(Span(off + 4, Clip(b, off + 4 + length) - off - 4))
  }

  /** vs are the attributes that b holds from `off` on, to its end. */
  predicate ViewsFrom(vs: seq<View>, b: seq<byte>, off: nat)
    decreases |vs|
  {
    if vs == [] then off >= |b|
    else ViewAt(vs[0], b, off) && ViewsFrom(vs[1..], b, off + 4 + Padded(SpanLength(vs[0])))
  }

  lemma SliceOfRest(b: seq<byte>, off: nat, i: nat, j: nat)
    requires off <= |b| && i <= j <= |b| - off
    ensures b[off..][i..j] == b[off + i..off + j]
  {
  }

  lemma ShowOne(v: View, b: seq<byte>, off: nat)
    requires ViewAt(v, b, off)
    ensures ViewWithin(v, b)
    ensures ParseAttribute(From(b, off)) == Ok(Show(v, b))
    ensures PaddedSize(Show(v, b)) == Padded(SpanLength(v))
  {
    var c := b[off..];
    assert c[0] == b[off] && c[1] == b[off + 1] && c[2] == b[off + 2] && c[3] == b[off + 3];
    if v.span.Some? {
      SliceOfRest(b, off, 4, 4 + v.span.value.len);
    }
  }

  lemma FromFrom(b: seq<byte>, off: nat, n: nat)
    requires off <= |b|
    ensures From(From(b, off), n) == From(b, off + n)
  {
  }

  /** One step of the parser at a view. */
  lemma ParseStep(v: View, b: seq<byte>, off: nat, next: nat)
    requires ViewAt(v, b, off) && next == off + 4 + Padded(SpanLength(v))
    ensures ViewWithin(v, b)
    ensures ParseAttributes(From(b, off)) == ParsedCons(Show(v, b), ParseAttributes(From(b, next)))
  {
    ShowOne(v, b, off);
    FromFrom(b, off, 4 + Padded(SpanLength(v)));
    ParseOne(From(b, off), Show(v, b), From(b, next));
  }

  lemma ShowCons(vs: seq<View>, b: seq<byte>)
    requires vs != [] && ViewWithin(vs[0], b) && AllWithin(vs[1..], b)
    ensures AllWithin(vs, b) && ShowAll(vs, b) == [Show(vs[0], b)] + ShowAll(vs[1..], b)
  {
    assert forall i :: 1 <= i < |vs| ==> vs[i] == vs[1..][i - 1];
  }

  /** Such views show exactly what the parser reads. */
  lemma {:induction false} ViewsShowParse(vs: seq<View>, b: seq<byte>, off: nat)
    requires ViewsFrom(vs, b, off)
    ensures AllWithin(vs, b)
    ensures ParseAttributes(From(b, off)) == Ok(ShowAll(vs, b))
    decreases |vs|
  {
    if vs == [] {
      assert ShowAll(vs, b) == [];
    } else {
      var next := off + 4 + Padded(SpanLength(vs[0]));
      ViewsShowParse(vs[1..], b, next);
      ParseStep(vs[0], b, off, next);
      ShowCons(vs, b);
    }
  }

  lemma {:induction false} ViewsAppend(vs: seq<View>, b: seq<byte>, off: nat, v: View, mid: nat)
    requires ViewsUpTo(vs, b, off, mid) && ViewAt(v, b, mid)
    ensures ViewsUpTo(vs + [v], b, off, mid + 4 + Padded(SpanLength(v)))
    decreases |vs|
  {
    if vs == [] {
      assert (vs + [v])[1..] == [];
    } else {
      assert (vs + [v])[1..] == vs[1..] + [v];
      ViewsAppend(vs[1..], b, off + 4 + Padded(SpanLength(vs[0])), v, mid);
    }
  }

  /** vs are the attributes that b holds from `off` up to `end`. */
  predicate ViewsUpTo(vs: seq<View>, b: seq<byte>, off: nat, end: nat)
    decreases |vs|
  {
    if vs == [] then off == end
    else ViewAt(vs[0], b, off) && ViewsUpTo(vs[1..], b, off + 4 + Padded(SpanLength(vs[0])), end)
  }

  lemma {:induction false} UpToEnd(vs: seq<View>, b: seq<byte>, off: nat, end: nat)
    requires ViewsUpTo(vs, b, off, end) && end >= |b|
    ensures ViewsFrom(vs, b, off)
    decreases |vs|
  {
    if vs != [] {
      UpToEnd(vs[1..], b, off + 4 + Padded(SpanLength(vs[0])), end);
    }
  }

  /** The attribute that b holds at `off`. */
  function TheView(b: seq<byte>, off: nat): (v: View)
    requires off + 4 <= |b|
    ensures ViewAt(v, b, off)
  {
    var length := U16(b, off + 2);
    View(U16(b, off), if length == 0 then None else Some(Span(off + 4, Clip(b, off + 4 + length) - off - 4)))
  }

  /** The attributes that b holds from `off` on. */
  function TheViews(b: seq<byte>, off: nat): seq<View>
    decreases |b| - off
  {
    if off + 4 > |b| then []
    else
      var v := TheView(b, off);
      [v] + TheViews(b, off + 4 + Padded(SpanLength(v)))
  }

  lemma TheOnlyView(v: View, b: seq<byte>, off: nat)
    requires ViewAt(v, b, off)
    ensures v == TheView(b, off)
    ensures TheViews(b, off) == [v] + TheViews(b, off + 4 + Padded(SpanLength(v)))
  {
  }

  lemma {:induction false} ViewsUnique(vs: seq<View>, b: seq<byte>, off: nat)
    requires ViewsFrom(vs, b, off)
    ensures vs == TheViews(b, off)
    decreases |vs|
  {
    if vs != [] {
      ViewsUnique(vs[1..], b, off + 4 + Padded(SpanLength(vs[0])));
      TheOnlyView(vs[0], b, off);
      assert vs == [vs[0]] + vs[1..];
    }
  }

  lemma ShortFails(c: seq<byte>)
    ensures |c| < 4 ==> (ParseAttributes(c).Ok? <==> c == [])
  {
  }

  lemma ViewsCons(v: View, vs: seq<View>, b: seq<byte>, off: nat)
    requires ViewAt(v, b, off) && ViewsFrom(vs, b, off + 4 + Padded(SpanLength(v)))
    ensures ViewsFrom([v] + vs, b, off)
  {
    assert ([v] + vs)[1..] == vs;
  }

  lemma {:induction false} ParsedViews(b: seq<byte>, off: nat)
    requires ParseAttributes(From(b, off)).Ok?
    ensures ViewsFrom(TheViews(b, off), b, off)
    decreases |b| - off
  {
    if off + 4 <= |b| {
      var v := TheView(b, off);
      var next := off + 4 + Padded(SpanLength(v));
      ParseStep(v, b, off, next);
      ParsedViews(b, next);
      ViewsCons(v, TheViews(b, next), b, off);
      TheOnlyView(v, b, off);
    } else {
      NoMoreViews(b, off);
    }
  }

  lemma NoMoreViews(b: seq<byte>, off: nat)
    requires ParseAttributes(From(b, off)).Ok? && off + 4 > |b|
    ensures ViewsFrom(TheViews(b, off), b, off)
  {
    ShortFails(From(b, off));
  }

  /** The attributes of an accepted message, as views of its bytes. */
  lemma MessageViews(b: seq<byte>)
    requires ParseMessage(b).Ok?
    ensures var p := ParsedMessage(MethodOf(b[0], b[1]), ClassOf(b[0], b[1]), Span(8, 12), TheViews(b, 20));
            && ViewsFrom(p.attributes, b, 20) && ParsedWithin(p, b)
            && ParseMessage(b) == Ok(ShowMessage(p, b))
  {
    ParsedViews(b, 20);
    ViewsShowParse(TheViews(b, 20), b, 20);
  }

  /** When the walk gets stuck, the parser fails too. */
  lemma {:induction false} StuckFails(vs: seq<View>, b: seq<byte>, off: nat, end: nat)
    requires ViewsUpTo(vs, b, off, end) && end < |b| < end + 4
    ensures ParseAttributes(From(b, off)) == Err(TooFewBytes)
    decreases |vs|
  {
    if vs != [] {
      var next := off + 4 + Padded(SpanLength(vs[0]));
      StuckFails(vs[1..], b, next, end);
      ParseStep(vs[0], b, off, next);
    }
  }

  // ---------------------------------------------------------------- parsing

  method ParseStunAttribute(buf: array<byte>, off: nat) returns (r: Result<View, StunMessages.Error>)
    requires off <= buf.Length
    ensures r.Ok? <==> off + 4 <= buf.Length
    ensures r.Ok? ==> ViewAt(r.value, buf[..], off)
    ensures r.Err? ==> r.error == TooFewBytes
  {
    if buf.Length - off < 4 {
      return Err(TooFewBytes);
    }
    var typ := U16([buf[off], buf[off + 1]], 0);
    var length := U16([buf[off + 2], buf[off + 3]], 0);
    var span: Option<Span> := None;
    if length > 0 {
      span := Some(Span(off + 4, Clip(buf[..], off + 4 + length) - off - 4));
    }
    return Ok(View(typ, span));
  }

  /** parseStunMessage: the attributes are views of buf, placed where the parser found them. */
  method ParseStunMessage(buf: array<byte>) returns (r: Result<ParsedMessage, StunMessages.Error>)
    ensures r.Ok? ==> ParsedWithin(r.value, buf[..]) && ParseMessage(buf[..]) == Ok(ShowMessage(r.value, buf[..]))
    ensures r.Ok? ==> ViewsFrom(r.value.attributes, buf[..], 20) && r.value.transactionId == Span(8, 12)
    ensures r.Err? ==> ParseMessage(buf[..]) == Err(r.error)
  {
    if buf.Length < 20 {
      return Err(RequestTooShort);
    }
    if buf[0] >= 64 {
      return Err(FirstTwoBits);
    }
    assert buf[..][4..8] == [buf[4], buf[5], buf[6], buf[7]];
    if buf[4] != 0x21 || buf[5] != 0x12 || buf[6] != 0xa4 || buf[7] != 0x42 {
      return Err(NoMagicCookie);
    }
    var clazz: MessageClass;
    if buf[0] % 2 == 1 {
      clazz := if buf[1] / 16 % 2 == 1 then FAILURE_RESPONSE else SUCCESS_RESPONSE;
    } else if buf[1] / 16 % 2 == 1 {
      clazz := INDICATION;
    } else {
      clazz := REQUEST;
    }
    var attributes: seq<View> := [];
    var attributeOffset := 20;
    while attributeOffset < buf.Length
      invariant ViewsUpTo(attributes, buf[..], 20, attributeOffset)
    {
      var attribute := ParseStunAttribute(buf, attributeOffset);
      if attribute.Err? {
        StuckFails(attributes, buf[..], 20, attributeOffset);
        return Err(attribute.error);
      }
      ViewsAppend(attributes, buf[..], 20, attribute.value, attributeOffset);
      attributes := attributes + [attribute.value];
      attributeOffset := attributeOffset + 4 + Padded(SpanLength(attribute.value));
    }
    UpToEnd(attributes, buf[..], 20, attributeOffset);
    ViewsShowParse(attributes, buf[..], 20);
    return Ok(ParsedMessage(MethodOf(buf[0], buf[1]), clazz, Span(8, 12), attributes));
  }

  /** The position of the first attribute of the given type. */
  method FindFirstAttributeWithType(typ: nat, attributes: seq<View>) returns (r: Option<nat>)
    ensures r.None? <==> forall j :: 0 <= j < |attributes| ==> attributes[j].typ != typ
    ensures r.Some? ==>
              && r.value < |attributes| && attributes[r.value].typ == typ
              && forall j :: 0 <= j < r.value ==> attributes[j].typ != typ
  {
    for i := 0 to |attributes|
      invariant forall j :: 0 <= j < i ==> attributes[j].typ != typ
    {
      if attributes[i].typ == typ {
        return Some(i);
      }
    }
    return None;
  }

  // ---------------------------------------------------------------- printing

  /** b with `data` written over it from `at` on. */
  function Put(b: seq<byte>, at: nat, data: seq<byte>): (r: seq<byte>)
    requires at + |data| <= |b|
    ensures |r| == |b|
  {
    b[..at] + data + b[at + |data|..]
  }

  lemma PutTake(b: seq<byte>, at: nat, x: seq<byte>)
    requires at + |x| <= |b|
    ensures Put(b, at, x)[..at + |x|] == b[..at] + x
  {
  }

  lemma PutTwice(b: seq<byte>, at: nat, x: seq<byte>, y: seq<byte>)
    requires at + |x| + |y| <= |b|
    ensures Put(Put(b, at, x), at + |x|, y) == Put(b, at, x + y)
  {
  }

  /** Writes `data` into the array from `at` on. */
  method SetBytes(buf: array<byte>, at: nat, data: seq<byte>)
    requires at + |data| <= buf.Length
    modifies buf
    ensures buf[..] == Put(old(buf[..]), at, data)
  {
    for i := 0 to |data|
      invariant buf[..at] == old(buf[..at])
      invariant buf[at..at + i] == data[..i]
      invariant buf[at + i..] == old(buf[at + i..])
    {
      buf[at + i] := data[i];
    }
    assert buf[..] == buf[..at] + buf[at..at + |data|] + buf[at + |data|..];
  }

  method ZeroFill(buf: array<byte>, from: nat, to: nat)
    requires from <= to <= buf.Length
    modifies buf
    ensures buf[..] == Put(old(buf[..]), from, Zeros(to - from))
  {
    for i := from to to
      invariant buf[..from] == old(buf[..from])
      invariant buf[from..i] == Zeros(i - from)
      invariant buf[i..] == old(buf[i..])
    {
      buf[i] := 0;
    }
    assert buf[..] == buf[..from] + buf[from..to] + buf[to..];
  }

  /** formatStunAttribute on the subarray of buf that starts at `off`. */
  method FormatStunAttribute(a: Attribute, buf: array<byte>, off: nat) returns (r: Result<nat, StunMessages.Error>)
    requires off <= buf.Length
    modifies buf
    ensures r == if buf.Length - off < 4 + PaddedSize(a) then Err(TooFewBytes) else Ok(4 + PaddedSize(a))
    ensures r.Err? ==> buf[..] == old(buf[..])
    ensures r.Ok? ==> buf[..] == Put(old(buf[..]), off, FormatAttribute(a))
  {
    var paddedLength := Padded(Size(a.value));
    if buf.Length - off < 4 + paddedLength {
      return Err(TooFewBytes);
    }
    SetAttribute(a, paddedLength, buf, off);
    return Ok(4 + paddedLength);
  }

  method SetAttribute(a: Attribute, paddedLength: nat, buf: array<byte>, off: nat)
    requires paddedLength == PaddedSize(a) && off + 4 + paddedLength <= buf.Length
    modifies buf
    ensures buf[..] == Put(old(buf[..]), off, FormatAttribute(a))
  {
    AttributePut(buf[..], off, a);
    SetAttributeHeader(a.typ, Size(a.value), buf, off);
    if a.value.Some? {
      SetValue(a.value.value, paddedLength, buf, off + 4);
    }
  }

  method SetValue(v: seq<byte>, paddedLength: nat, buf: array<byte>, at: nat)
    requires |v| <= paddedLength && at + paddedLength <= buf.Length
    modifies buf
    ensures buf[..] == Put(Put(old(buf[..]), at, v), at + |v|, Zeros(paddedLength - |v|))
  {
    SetBytes(buf, at, v);
    ZeroFill(buf, at + |v|, at + paddedLength);
  }

  function AttributeHeader(typ: nat, length: nat): seq<byte> {
    [Hi(typ), Lo(typ), Hi(length), Lo(length)]
  }

  /** Header, value and padding put one after the other. */
  lemma AttributePut(b: seq<byte>, off: nat, a: Attribute)
    requires off + 4 + PaddedSize(a) <= |b|
    ensures var n, p := Size(a.value), PaddedSize(a);
            var h := Put(b, off, AttributeHeader(a.typ, n));
            if a.value.None? then Put(b, off, FormatAttribute(a)) == h
            else Put(b, off, FormatAttribute(a)) == Put(Put(h, off + 4, a.value.value), off + 4 + n, Zeros(p - n))
  {
    var n, p := Size(a.value), PaddedSize(a);
    var header, zeros := AttributeHeader(a.typ, n), Zeros(p - n);
    assert FormatAttribute(a) == header + Bytes(a.value) + zeros;
    if a.value.Some? {
      PutTwice(b, off, header, a.value.value);
      PutTwice(b, off, header + a.value.value, zeros);
    } else {
      assert FormatAttribute(a) == header;
    }
  }

  method SetAttributeHeader(typ: nat, length: nat, buf: array<byte>, off: nat)
    requires off + 4 <= buf.Length
    modifies buf
    ensures buf[..] == Put(old(buf[..]), off, AttributeHeader(typ, length))
  {
    buf[off] := Hi(typ);
    buf[off + 1] := Lo(typ);
    buf[off + 2] := Hi(length);
    buf[off + 3] := Lo(length);
  }

  lemma {:induction false} FormatAttributesSnoc(as_: seq<Attribute>, a: Attribute)
    ensures FormatAttributes(as_ + [a]) == FormatAttributes(as_) + FormatAttribute(a)
  {
    if as_ == [] {
      assert FormatAttributes([a]) == FormatAttribute(a) + FormatAttributes([a][1..]);
    } else {
      assert (as_ + [a])[1..] == as_[1..] + [a];
      FormatAttributesSnoc(as_[1..], a);
    }
  }

  lemma {:induction false} FormatAttributesTake(as_: seq<Attribute>, i: nat)
    requires i < |as_|
    ensures FormatAttributes(as_[..i + 1]) == FormatAttributes(as_[..i]) + FormatAttribute(as_[i])
  {
    assert as_[..i + 1] == as_[..i] + [as_[i]];
    FormatAttributesSnoc(as_[..i], as_[i]);
  }

  lemma {:induction false} FormatAttributesPrefix(as_: seq<Attribute>, i: nat)
    requires i <= |as_|
    ensures |FormatAttributes(as_[..i])| <= |FormatAttributes(as_)|
    decreases |as_| - i
  {
    if i < |as_| {
      FormatAttributesTake(as_, i);
      FormatAttributesPrefix(as_, i + 1);
    } else {
      assert as_[..i] == as_;
    }
  }

  /** The sizing pass. */
  method AttributesLength(as_: seq<Attribute>) returns (length: nat)
    ensures length == |FormatAttributes(as_)|
  {
    length := 0;
    for i := 0 to |as_|
      invariant length == |FormatAttributes(as_[..i])|
    {
      FormatAttributesTake(as_, i);
      length := length + 4 + Padded(Size(as_[i].value));
    }
    assert as_[..|as_|] == as_;
  }

  /** The first twenty bytes; a longer transaction ID overhangs into the attributes' space. */
  method WriteHeader(m: Message, length: nat, bytes: array<byte>)
    requires bytes.Length >= 20 && 8 + |m.transactionId| <= bytes.Length
    requires forall k :: 8 <= k < 20 ==> bytes[k] == 0
    modifies bytes
    ensures bytes[..20] == FormatHeader(m, length)
  {
    TypeLowIsByte(m.method_, m.clazz);
    bytes[1] := TypeLow(m.method_, m.clazz);
    bytes[0] := TypeHigh(m.clazz);
    bytes[2] := Hi(length);
    bytes[3] := Lo(length);
    ghost var start := bytes[..];
    SetBytes(bytes, 4, MAGIC_COOKIE);
    SetBytes(bytes, 8, m.transactionId);
    HeaderWritten(start, m, length);
  }

  /** The cookie and then the transaction ID, put where the first four bytes are those of the header. */
  lemma HeaderWritten(b: seq<byte>, m: Message, length: nat)
    requires |b| >= 20 && 8 + |m.transactionId| <= |b|
    requires forall k :: 8 <= k < 20 ==> b[k] == 0
    requires TypeLow(m.method_, m.clazz) < 256
    requires b[0] == TypeHigh(m.clazz) && b[1] == TypeLow(m.method_, m.clazz)
    requires b[2] == Hi(length) && b[3] == Lo(length)
    ensures Put(Put(b, 4, MAGIC_COOKIE), 8, m.transactionId)[..20] == FormatHeader(m, length)
  {
    var id := m.transactionId;
    var b1 := Put(b, 4, MAGIC_COOKIE);
    var b2 := Put(b1, 8, id);
    var h := FormatHeader(m, length);
    assert b1[..8] == [b[0], b[1], b[2], b[3]] + MAGIC_COOKIE;
    assert b2[..8] == b1[..8];
    forall k | 8 <= k < 20
      ensures b2[k] == Twelve(id)[k - 8]
    {
      if k - 8 < |id| {
        assert b2[k] == id[k - 8];
      } else {
        assert b2[k] == b1[k] == b[k] == 0;
      }
    }
    assert b2[8..20] == Twelve(id);
    assert b2[..20] == b2[..8] + b2[8..20];
  }

  lemma WrittenSoFar(before: seq<byte>, head: seq<byte>, as_: seq<Attribute>, i: nat)
    requires i < |as_|
    requires var done := FormatAttributes(as_[..i]);
             && |before| == |head| + |FormatAttributes(as_)| && |done| + |head| <= |before|
             && before[..|head| + |done|] == head + done
    ensures var done, f := FormatAttributes(as_[..i]), FormatAttribute(as_[i]);
            && |head| + |done| + |f| <= |before|
            && FormatAttributes(as_[..i + 1]) == done + f
            && Put(before, |head| + |done|, f)[..|head| + |done| + |f|] == head + FormatAttributes(as_[..i + 1])
  {
    FormatAttributesTake(as_, i);
    FormatAttributesPrefix(as_, i + 1);
    PutAfter(before, head, FormatAttributes(as_[..i]), FormatAttribute(as_[i]));
  }

  lemma PutAfter(before: seq<byte>, head: seq<byte>, done: seq<byte>, f: seq<byte>)
    requires |head| + |done| + |f| <= |before| && before[..|head| + |done|] == head + done
    ensures Put(before, |head| + |done|, f)[..|head| + |done| + |f|] == head + (done + f)
  {
    PutTake(before, |head| + |done|, f);
    assert head + done + f == head + (done + f);
  }

  /** The writing pass: it fills the rest of the array exactly, and no attribute finds too few bytes. */
  method WriteAttributes(as_: seq<Attribute>, bytes: array<byte>)
    requires bytes.Length == 20 + |FormatAttributes(as_)|
    modifies bytes
    ensures bytes[..] == old(bytes[..20]) + FormatAttributes(as_)
  {
    ghost var head := bytes[..20];
    var attributeOffset := 20;
    for i := 0 to |as_|
      invariant attributeOffset == 20 + |FormatAttributes(as_[..i])|
      invariant attributeOffset <= bytes.Length
      invariant bytes[..][..attributeOffset] == head + FormatAttributes(as_[..i])
    {
      WrittenSoFar(bytes[..], head, as_, i);
      var n := FormatStunAttribute(as_[i], bytes, attributeOffset);
      attributeOffset := attributeOffset + n.value;
    }
    assert as_[..|as_|] == as_;
    assert bytes[..] == bytes[..][..attributeOffset];
  }

  /** formatStunMessage: its only failure is a transaction ID too long for the whole message. */
  method FormatStunMessage(m: Message) returns (r: Result<array<byte>, StunMessages.Error>)
    ensures r.Ok? ==> fresh(r.value) && FormatMessage(m) == Ok(r.value[..])
    ensures r.Err? ==> FormatMessage(m) == Err(r.error)
  {
    var length := AttributesLength(m.attributes);
    var bytes := new byte[length + 20](_ => 0);
    if 8 + |m.transactionId| > bytes.Length {
      return Err(OutOfRange);
    }
    WriteHeader(m, length, bytes);
    WriteAttributes(m.attributes, bytes);
    return Ok(bytes);
  }

  // ---------------------------------------------------------------- decoding in place

  /** b with the subarray s replaced by v. */
  function Patch(b: seq<byte>, s: Span, v: seq<byte>): (r: seq<byte>)
    requires Within(s, b) && |v| == s.len
    ensures |r| == |b|
  {
    b[..s.start] + v + b[s.start + s.len..]
  }

  lemma XoredWords(w: seq<byte>, w': seq<byte>)
    requires |w'| == |w| >= 8
    requires w'[0] == w[0] && w'[1] == w[1] && w'[8..] == w[8..]
    requires w'[2] == XorByte(w[2], 0x21) && w'[3] == XorByte(w[3], 0x12)
    requires w'[4] == XorByte(w[4], 0x21) && w'[5] == XorByte(w[5], 0x12)
    requires w'[6] == XorByte(w[6], 0xa4) && w'[7] == XorByte(w[7], 0x42)
    ensures w' == XorAddress(w)
  {
    var v := XorAddress(w);
    XorAddressBytes(w);
    assert w'[4..8] == v[4..8];
    assert w' == [w'[0], w'[1], w'[2], w'[3]] + w'[4..8] + w'[8..];
    assert v == [v[0], v[1], v[2], v[3]] + v[4..8] + v[8..];
  }

  /** Byte j of an address, decoded. */
  function XoredAt(w: seq<byte>, j: nat): byte
    requires j < |w|
  {
    var cookie := MAGIC_COOKIE;
    if 2 <= j < 4 then XorByte(w[j], cookie[j - 2])
    else if 4 <= j < 8 then XorByte(w[j], cookie[j - 4])
    else w[j]
  }

  lemma XoredBytes(w: seq<byte>, w': seq<byte>)
    requires |w'| == |w| >= 8
    requires forall j :: 0 <= j < |w| ==> w'[j] == XoredAt(w, j)
    ensures w' == XorAddress(w)
  {
    assert w'[8..] == w[8..];
    XoredWords(w, w');
  }

  /** b is `before` with the first n bytes of an address decoded. */
  predicate DecodedTo(before: seq<byte>, b: seq<byte>, s: Span, n: nat)
    requires Within(s, before)
  {
    && |b| == |before| && n <= s.len
    && forall k :: 0 <= k < |b| ==>
         b[k] == if s.start <= k < s.start + n then XoredAt(Slice(s, before), k - s.start) else before[k]
  }

  lemma DecodedStep(before: seq<byte>, b: seq<byte>, s: Span, n: nat)
    requires Within(s, before) && n < s.len && DecodedTo(before, b, s, n)
    ensures DecodedTo(before, b[s.start + n := XoredAt(Slice(s, before), n)], s, n + 1)
    ensures b[s.start + n] == Slice(s, before)[n]
  {
  }

  lemma DecodedAll(before: seq<byte>, b: seq<byte>, s: Span)
    requires Within(s, before) && s.len >= 8 && DecodedTo(before, b, s, 8)
    ensures b == Patch(before, s, XorAddress(Slice(s, before)))
  {
    var w, w' := Slice(s, before), Slice(s, b);
    assert forall j :: 0 <= j < s.len ==> w'[j] == b[s.start + j];
    XoredBytes(w, w');
    var p := Patch(before, s, w');
    forall k | 0 <= k < |b|
      ensures b[k] == p[k]
    {
      PatchAt(before, s, w', k);
    }
  }

  method XorIn(buf: array<byte>, i: nat, mask: byte)
    requires i < buf.Length
    modifies buf
    ensures buf[..] == old(buf[..])[i := XorByte(old(buf[i]), mask)]
  {
    buf[i] := XorByte(buf[i], mask);
  }

  /** The exclusive or of an address with the magic cookie, in place. */
  method DecodeAddress(buf: array<byte>, s: Span)
    requires Within(s, buf[..]) && s.len >= 8
    modifies buf
    ensures buf[..] == Patch(old(buf[..]), s, XorAddress(old(Slice(s, buf[..]))))
  {
    ghost var before := buf[..];
    var cookie := MAGIC_COOKIE;
    DecodedStep(before, buf[..], s, 2);
    XorIn(buf, s.start + 2, cookie[0]);
    DecodedStep(before, buf[..], s, 3);
    XorIn(buf, s.start + 3, cookie[1]);
    for i := 0 to 4
      invariant DecodedTo(before, buf[..], s, 4 + i)
    {
      DecodedStep(before, buf[..], s, 4 + i);
      XorIn(buf, s.start + 4 + i, cookie[i]);
    }
    DecodedAll(before, buf[..], s);
  }

  /** parseXorMappedAddressAttribute on a subarray: the address is decoded where it is. */
  method ParseXorMappedAddress(buf: array<byte>, s: Span) returns (r: Result<Endpoint, AddressError>)
    requires Within(s, buf[..])
    modifies buf
    ensures r == ParseXor(old(Slice(s, buf[..])))
    ensures buf[..] == if s.len < 8 then old(buf[..])
                       else Patch(old(buf[..]), s, XorAddress(old(Slice(s, buf[..]))))
  {
    if s.len < 8 {
      return Err(AttributeTooShort);
    }
    DecodeAddress(buf, s);
    assert buf[s.start..s.start + s.len] == XorAddress(old(Slice(s, buf[..])));
    r := ParseMapped(buf[s.start..s.start + s.len]);
  }

  /** Changing the bytes of one value leaves every attribute where it was. */
  lemma {:induction false} PatchKeepsViews(vs: seq<View>, b: seq<byte>, off: nat, i: nat, v: seq<byte>)
    requires ViewsFrom(vs, b, off)
    requires i < |vs| && vs[i].span.Some? && |v| == vs[i].span.value.len
    ensures off + 4 <= vs[i].span.value.start && Within(vs[i].span.value, b)
    ensures ViewsFrom(vs, Patch(b, vs[i].span.value, v), off)
    decreases |vs|
  {
    var next := off + 4 + Padded(SpanLength(vs[0]));
    if i == 0 {
      StartsLater(vs[1..], b, next, vs[0].span.value, v);
    } else {
      PatchKeepsViews(vs[1..], b, next, i - 1, v);
    }
  }

  /** The attributes after a value do not see a change in it. */
  lemma {:induction false} StartsLater(vs: seq<View>, b: seq<byte>, off: nat, s: Span, v: seq<byte>)
    requires ViewsFrom(vs, b, off) && Within(s, b) && |v| == s.len && s.start + s.len <= off
    ensures ViewsFrom(vs, Patch(b, s, v), off)
    decreases |vs|
  {
    if vs != [] {
      StartsLater(vs[1..], b, off + 4 + Padded(SpanLength(vs[0])), s, v);
    }
  }

  /** Distinct attributes have distinct bytes. */
  lemma {:induction false} SpansApart(vs: seq<View>, b: seq<byte>, off: nat, i: nat, j: nat)
    requires ViewsFrom(vs, b, off)
    requires i < j < |vs| && vs[i].span.Some? && vs[j].span.Some?
    ensures vs[i].span.value.start + vs[i].span.value.len <= vs[j].span.value.start
    decreases |vs|
  {
    var next := off + 4 + Padded(SpanLength(vs[0]));
    if i > 0 {
      SpansApart(vs[1..], b, next, i - 1, j - 1);
    } else {
      SpansStart(vs[1..], b, next, j - 1);
    }
  }

  lemma {:induction false} SpansStart(vs: seq<View>, b: seq<byte>, off: nat, j: nat)
    requires ViewsFrom(vs, b, off)
    requires j < |vs| && vs[j].span.Some?
    ensures off + 4 <= vs[j].span.value.start && Within(vs[j].span.value, b)
    decreases |vs|
  {
    if j > 0 {
      SpansStart(vs[1..], b, off + 4 + Padded(SpanLength(vs[0])), j - 1);
    }
  }

  lemma PatchAt(b: seq<byte>, s: Span, v: seq<byte>, k: nat)
    requires Within(s, b) && |v| == s.len && k < |b|
    ensures Patch(b, s, v)[k] == if s.start <= k < s.start + s.len then v[k - s.start] else b[k]
  {
  }

  lemma PatchedSlice(b: seq<byte>, s: Span, v: seq<byte>, t: Span)
    requires Within(s, b) && |v| == s.len && Within(t, b)
    requires t == s || t.start + t.len <= s.start || s.start + s.len <= t.start
    ensures Within(t, Patch(b, s, v))
    ensures Slice(t, Patch(b, s, v)) == if t == s then v else Slice(t, b)
  {
    var x, y := Slice(t, Patch(b, s, v)), if t == s then v else Slice(t, b);
    forall i | 0 <= i < t.len
      ensures x[i] == y[i]
    {
      PatchAt(b, s, v, t.start + i);
    }
  }

  lemma ShowsPatched(w: View, b: seq<byte>, s: Span, v: seq<byte>)
    requires ViewWithin(w, b) && Within(s, b) && |v| == s.len
    requires w.span.Some? ==> var t := w.span.value; t == s || t.start + t.len <= s.start || s.start + s.len <= t.start
    ensures ViewWithin(w, Patch(b, s, v))
    ensures Show(w, Patch(b, s, v)) == if w.span == Some(s) then Attribute(w.typ, Some(v)) else Show(w, b)
  {
    if w.span.Some? {
      PatchedSlice(b, s, v, w.span.value);
    }
  }

  lemma PatchShowsOne(vs: seq<View>, b: seq<byte>, i: nat, v: seq<byte>, j: nat)
    requires ViewsFrom(vs, b, 20) && AllWithin(vs, b)
    requires i < |vs| && j < |vs| && vs[i].span.Some? && |v| == vs[i].span.value.len
    ensures var b' := Patch(b, vs[i].span.value, v);
            ViewWithin(vs[j], b') &&
            Show(vs[j], b') == if j == i then Attribute(vs[i].typ, Some(v)) else Show(vs[j], b)
  {
    var s := vs[i].span.value;
    assert ViewWithin(vs[i], b) && ViewWithin(vs[j], b);
    if vs[j].span.Some? {
      if j < i {
        SpansApart(vs, b, 20, j, i);
      } else if i < j {
        SpansApart(vs, b, 20, i, j);
      }
      if j != i && vs[j].span.value == s {
        assert s.len == 0 && v == [] == Slice(s, b);
      }
    }
    ShowsPatched(vs[j], b, s, v);
  }

  lemma PatchKeepsHeader(b: seq<byte>, s: Span, v: seq<byte>)
    requires Within(s, b) && |v| == s.len && s.start >= 20
    ensures var b' := Patch(b, s, v);
            b'[0] == b[0] && b'[1] == b[1] && b'[4..8] == b[4..8] && b'[8..20] == b[8..20]
  {
  }

  /**
   The frame of decoding in place: rewriting the value of attribute i changes nothing that a
   parse of the buffer gives, header and other attributes included, but that one value.
   */
  lemma PatchFrame(p: ParsedMessage, b: seq<byte>, i: nat, v: seq<byte>)
    requires ParsedWithin(p, b) && ViewsFrom(p.attributes, b, 20) && p.transactionId == Span(8, 12)
    requires ParseMessage(b) == Ok(ShowMessage(p, b))
    requires i < |p.attributes| && p.attributes[i].span.Some? && |v| == p.attributes[i].span.value.len
    ensures var b', m := Patch(b, p.attributes[i].span.value, v), ShowMessage(p, b);
            && ParsedWithin(p, b') && ViewsFrom(p.attributes, b', 20)
            && ShowMessage(p, b') == m.(attributes := m.attributes[i := Attribute(m.attributes[i].typ, Some(v))])
            && ParseMessage(b') == Ok(ShowMessage(p, b'))
  {
    var vs, s := p.attributes, p.attributes[i].span.value;
    var b' := Patch(b, s, v);
    PatchKeepsViews(vs, b, 20, i, v);
    ViewsShowParse(vs, b', 20);
    PatchKeepsHeader(b, s, v);
    var as_ := ShowAll(vs, b);
    forall j | 0 <= j < |vs|
      ensures ShowAll(vs, b')[j] == as_[i := Attribute(vs[i].typ, Some(v))][j]
    {
      PatchShowsOne(vs, b, i, v, j);
    }
    assert ShowAll(vs, b') == as_[i := Attribute(vs[i].typ, Some(v))];
  }
}
