/**
 The STUN message format (RFC 5389, sections 6 and 15) as the codec reads and writes it:
 the parser and the printer as functions on byte sequences, and how far they are inverses.
 */
module StunMessages {
  import opened Basics

  /** An attribute; its value may be absent. */
  datatype Attribute = Attribute(typ: nat, value: Option<seq<byte>>)

  datatype MessageClass = REQUEST | SUCCESS_RESPONSE | FAILURE_RESPONSE | INDICATION

  datatype Message = Message(
    method_: nat,
    clazz: MessageClass,
    transactionId: seq<byte>,
    attributes: seq<Attribute>)

  datatype Error =
    | RequestTooShort
    | FirstTwoBits
    | NoMagicCookie
    | TooFewBytes
    | OutOfRange

  const MAGIC_COOKIE: seq<byte> := [0x21, 0x12, 0xa4, 0x42]

  // ---------------------------------------------------------------- padding

  /** calculatePadding(x, 4): x rounded up to a multiple of four. */
  function Padded(x: nat): (r: nat)
    ensures r % 4 == 0 && x <= r < x + 4
  {
    (if x % 4 > 0 then x / 4 + 1 else x / 4) * 4
  }

  /** The number of bytes of a value. */
  function Size(value: Option<seq<byte>>): nat {
    if value.Some? then |value.value| else 0
  }

  function Bytes(value: Option<seq<byte>>): seq<byte> {
    if value.Some? then value.value else []
  }

  function PaddedSize(a: Attribute): (r: nat)
    ensures Size(a.value) <= r < Size(a.value) + 4
  {
    Padded(Size(a.value))
  }

  // ---------------------------------------------------------------- printing

  function FormatAttribute(a: Attribute): (r: seq<byte>)
    ensures |r| == 4 + PaddedSize(a)
  {
    [Hi(a.typ), Lo(a.typ), Hi(Size(a.value)), Lo(Size(a.value))] +
    Bytes(a.value) + Zeros(PaddedSize(a) - Size(a.value))
  }

  function FormatAttributes(as_: seq<Attribute>): seq<byte> {
    if as_ == [] then [] else FormatAttribute(as_[0]) + FormatAttributes(as_[1..])
  }

  predicate C1(c: MessageClass) { c.SUCCESS_RESPONSE? || c.FAILURE_RESPONSE? }

  predicate C0(c: MessageClass) { c.INDICATION? || c.FAILURE_RESPONSE? }

  /** Bitwise or. */
  function Or(a: nat, b: nat): nat {
    if a == 0 && b == 0 then 0
    else 2 * Or(a / 2, b / 2) + (if a % 2 == 1 || b % 2 == 1 then 1 else 0)
  }

  /**
   The second byte: (method & 0xff) | ((method << 1) & 0xe0), then | 0x10 for C0. Only the
   upper three bits of the first two terms overlap.
   */
  function TypeLow(m: nat, c: MessageClass): nat {
    var b := m % 32 + 32 * Or(m / 32 % 8, m / 16 % 8);
    if C0(c) && m / 16 % 2 == 0 then b + 16 else b
  }

  /** The first byte: (method << 2) & 0x3e00 leaves nothing in a byte; then | 0x01 for C1. */
  function TypeHigh(c: MessageClass): byte {
    if C1(c) then 1 else 0
  }

  lemma OrOfThreeBits(a: nat, b: nat)
    requires a < 8 && b < 8
    ensures Or(a, b) % 2 == (if a % 2 == 1 || b % 2 == 1 then 1 else 0)
    ensures Or(a, b) / 2 % 2 == (if a / 2 % 2 == 1 || b / 2 % 2 == 1 then 1 else 0)
    ensures Or(a, b) / 4 == (if a / 4 == 1 || b / 4 == 1 then 1 else 0)
  {
    assert Or(a, b) == 2 * Or(a / 2, b / 2) + (if a % 2 == 1 || b % 2 == 1 then 1 else 0);
    var a', b' := a / 2, b / 2;
    assert Or(a', b') == 2 * Or(a' / 2, b' / 2) + (if a' % 2 == 1 || b' % 2 == 1 then 1 else 0);
    assert a' / 2 == a / 4 && b' / 2 == b / 4;
    var a'', b'' := a / 4, b / 4;
    assert Or(a'', b'') == 2 * Or(a'' / 2, b'' / 2) + (if a'' % 2 == 1 || b'' % 2 == 1 then 1 else 0);
    assert a'' / 2 == 0 && b'' / 2 == 0 && Or(0, 0) == 0;
  }

  lemma OrBelowEight(a: nat, b: nat)
    requires a < 8 && b < 8
    ensures Or(a, b) < 8
  {
    OrOfThreeBits(a, b);
    BelowEight(Or(a, b));
  }

  lemma BelowEight(n: nat)
    requires n / 4 < 2
    ensures n < 8
  {
  }

  lemma LowestFive(m: nat)
    ensures m % 32 == m % 16 + 16 * (m / 16 % 2)
  {
  }

  lemma TypeLowIsByte(m: nat, c: MessageClass)
    ensures TypeLow(m, c) < 256
  {
    var o := Or(m / 32 % 8, m / 16 % 8);
    OrBelowEight(m / 32 % 8, m / 16 % 8);
    LowestFive(m);
    assert m % 32 + 32 * o < 256;
  }

  /** A transaction ID as the twelve bytes that remain of it once the attributes are written. */
  function Twelve(id: seq<byte>): (r: seq<byte>)
    ensures |r| == 12
  {
    if |id| >= 12 then id[..12] else id + Zeros(12 - |id|)
  }

  function FormatHeader(m: Message, length: nat): (r: seq<byte>)
    ensures |r| == 20
  {
    TypeLowIsByte(m.method_, m.clazz);
    [TypeHigh(m.clazz), TypeLow(m.method_, m.clazz), Hi(length), Lo(length)] + MAGIC_COOKIE + Twelve(m.transactionId)
  }

  /** The bytes of a message; copying a transaction ID that does not fit in them throws. */
  function FormatMessage(m: Message): Result<seq<byte>, Error> {
    var body := FormatAttributes(m.attributes);
    if 8 + |m.transactionId| > 20 + |body| then Err(OutOfRange)
    else Ok(FormatHeader(m, |body|) + body)
  }

  // ---------------------------------------------------------------- parsing

  /** The end of b[..n], which may lie past the end of b. */
  function Clip(b: seq<byte>, n: nat): nat { if n <= |b| then n else |b| }

  /** parseStunAttribute: a value that runs past the end is cut off there. */
  function ParseAttribute(b: seq<byte>): Result<Attribute, Error> {
    if |b| < 4 then Err(TooFewBytes)
    else
      var length := U16(b, 2);
      Ok(Attribute(U16(b, 0), if length > 0 then Some(b[4..Clip(b, 4 + length)]) else None))
  }

  function ParsedCons(a: Attribute, rest: Result<seq<Attribute>, Error>): Result<seq<Attribute>, Error> {
    match rest
    case Err(e) => Err(e)
    case Ok(as_) => Ok([a] + as_)
  }

  function ParseAttributes(b: seq<byte>): (r: Result<seq<Attribute>, Error>)
    decreases |b|
  {
    if b == [] then Ok([])
    else
      match ParseAttribute(b)
      case Err(e) => Err(e)
      case Ok(a) => ParsedCons(a, ParseAttributes(From(b, 4 + PaddedSize(a))))
  }

  /** One step of the parser. */
  lemma ParseOne(b: seq<byte>, a: Attribute, rest: seq<byte>)
    requires ParseAttribute(b) == Ok(a) && rest == From(b, 4 + PaddedSize(a))
    ensures ParseAttributes(b) == ParsedCons(a, ParseAttributes(rest))
  {
  }

  function ClassOf(b0: byte, b1: byte): MessageClass {
    if b0 % 2 == 1 then (if b1 / 16 % 2 == 1 then FAILURE_RESPONSE else SUCCESS_RESPONSE)
    else (if b1 / 16 % 2 == 1 then INDICATION else REQUEST)
  }

  /** bytes[1] & 0x0f | (bytes[1] >> 1) & 0x70 | (bytes[0] << 6) & 0x0f80; the three have no bit in common. */
  function MethodOf(b0: byte, b1: byte): nat {
    b1 % 16 + b1 / 32 * 16 + b0 / 2 % 32 * 128
  }

  function ParseMessage(b: seq<byte>): Result<Message, Error> {
    if |b| < 20 then Err(RequestTooShort)
    else if b[0] >= 64 then Err(FirstTwoBits)
    else if b[4..8] != MAGIC_COOKIE then Err(NoMagicCookie)
    else
      match ParseAttributes(b[20..])
      case Err(e) => Err(e)
      case Ok(attributes) => Ok(Message(MethodOf(b[0], b[1]), ClassOf(b[0], b[1]), b[8..20], attributes))
  }

  // ---------------------------------------------------------------- parse after format

  /** An attribute as parsing reports it: an empty value reads as an absent one. */
  function Norm(a: Attribute): Attribute {
    if a.value == Some([]) then a.(value := None) else a
  }

  function NormAll(as_: seq<Attribute>): seq<Attribute> {
    seq(|as_|, i requires 0 <= i < |as_| => Norm(as_[i]))
  }

  function Normal(m: Message): Message {
    m.(attributes := NormAll(m.attributes))
  }

  predicate Fits(a: Attribute) {
    a.typ < 65536 && Size(a.value) < 65536
  }

  /**
   The (method, class) pairs that survive the header: methods below 16, and those of 16 to 127
   whose bits from bit 4 on are 1, 11 or 111 in classes that set C0, bit 4's place.
   */
  predicate Survives(m: nat, c: MessageClass) {
    m < 16 || (C0(c) && (m / 16 == 1 || m / 16 == 3 || m / 16 == 7))
  }

  /** Three bits, and the same shifted by one. */
  lemma OrShifted(x: nat, y: nat, z: nat)
    requires x < 2 && y < 2 && z < 2
    ensures Or(y + 2 * z, x + 2 * y + 4 * z)
         == (if x == 1 || y == 1 then 1 else 0) + 2 * (if y == 1 || z == 1 then 1 else 0) + 4 * z
  {
    OrOfThreeBits(y + 2 * z, x + 2 * y + 4 * z);
  }

  /** q | q >> 1, three bits wide, is q only when q's set bits are its lowest. */
  lemma OrWithHalf(q: nat)
    ensures Or(q / 2 % 8, q % 8) < 8
    ensures Or(q / 2 % 8, q % 8) == q <==> q == 0 || q == 1 || q == 3 || q == 7
  {
    if q < 8 {
      var x, y, z := q % 2, q / 2 % 2, q / 4;
      OrShifted(x, y, z);
      ThreeBits(q);
      SameBits(x, y, z, if x == 1 || y == 1 then 1 else 0, if y == 1 || z == 1 then 1 else 0);
    } else {
      OrOfThreeBits(q / 2 % 8, q % 8);
    }
  }

  lemma ThreeBits(q: nat)
    requires q < 8
    ensures q == q % 2 + 2 * (q / 2 % 2) + 4 * (q / 4) && q / 4 < 2
    ensures q / 2 % 8 == q / 2 % 2 + 2 * (q / 4) && q % 8 == q
  {
  }

  lemma SameBits(x: nat, y: nat, z: nat, x': nat, y': nat)
    requires x < 2 && y < 2 && z < 2 && x' < 2 && y' < 2
    ensures x' + 2 * y' + 4 * z == x + 2 * y + 4 * z <==> x' == x && y' == y
  {
  }

  lemma TypeBits(m: nat, c: MessageClass)
    ensures var o := Or(m / 16 / 2 % 8, m / 16 % 8);
            TypeLow(m, c) == m % 16 + 16 * (if C0(c) || m / 16 % 2 == 1 then 1 else 0) + 32 * o
  {
    assert m / 32 == m / 16 / 2;
    assert m % 32 == m % 16 + 16 * (m / 16 % 2);
  }

  lemma HeaderSurvives(m: nat, c: MessageClass)
    ensures TypeLow(m, c) < 256
    ensures (MethodOf(TypeHigh(c), TypeLow(m, c)) == m && ClassOf(TypeHigh(c), TypeLow(m, c)) == c)
       <==> Survives(m, c)
  {
    OrWithHalf(m / 16);
    var o := Or(m / 16 / 2 % 8, m / 16 % 8);
    TypeReads(m, c, o);
    SurvivesWhen(m, c, o);
  }

  lemma SurvivesWhen(m: nat, c: MessageClass, o: nat)
    requires var q := m / 16; o == q <==> q == 0 || q == 1 || q == 3 || q == 7
    ensures m % 16 + o * 16 == m && (C0(c) || m / 16 % 2 == 0) <==> Survives(m, c)
  {
    SameUpper(m, o);
  }

  lemma TypeReads(m: nat, c: MessageClass, o: nat)
    requires o == Or(m / 16 / 2 % 8, m / 16 % 8) && o < 8
    ensures TypeLow(m, c) < 256
    ensures MethodOf(TypeHigh(c), TypeLow(m, c)) == m % 16 + o * 16
    ensures ClassOf(TypeHigh(c), TypeLow(m, c)) == c <==> C0(c) || m / 16 % 2 == 0
  {
    TypeBits(m, c);
    ReadTypeLow(m % 16, if C0(c) || m / 16 % 2 == 1 then 1 else 0, o);
  }

  lemma SameUpper(m: nat, o: nat)
    ensures m % 16 + o * 16 == m <==> o == m / 16
  {
  }

  lemma ReadTypeLow(n: nat, bit: nat, o: nat)
    requires n < 16 && bit < 2 && o < 8
    ensures var b := n + 16 * bit + 32 * o;
            b < 256 && b % 16 == n && b / 16 % 2 == bit && b / 32 == o
  {
  }

  /** The two bits of the class, in the lowest bit of the first byte and the fifth of the second. */
  function ClassBits(c: MessageClass): (r: (byte, byte))
    ensures r.0 == 1 <==> c == SUCCESS_RESPONSE || c == FAILURE_RESPONSE
    ensures r.1 == 16 <==> c == INDICATION || c == FAILURE_RESPONSE
    ensures (r.0 == 0 || r.0 == 1) && (r.1 == 0 || r.1 == 16)
  {
    match c
    case REQUEST => (0, 0)
    case INDICATION => (0, 16)
    case SUCCESS_RESPONSE => (1, 0)
    case FAILURE_RESPONSE => (1, 16)
  }

  /** Reading the type: the bits of the method around those of the class, where section 6 of RFC 5389 has them. */
  lemma TypeBitsRead(h: nat, c1: nat, m: nat, c0: nat, l: nat)
    requires h < 32 && c1 < 2 && m < 8 && c0 < 2 && l < 16
    ensures 2 * h + c1 < 64 && 32 * m + 16 * c0 + l < 256
    ensures MethodOf(2 * h + c1, 32 * m + 16 * c0 + l) == 128 * h + 16 * m + l
    ensures ClassBits(ClassOf(2 * h + c1, 32 * m + 16 * c0 + l)) == (c1, 16 * c0)
  {
    ReadTypeLow(l, c0, m);
  }

  /** The header as section 6 of RFC 5389 draws it, for the methods of STUN and TURN. */
  lemma HeaderBytes(m: Message, length: nat)
    requires m.method_ < 16 && length < 65536 && |m.transactionId| == 12
    ensures var (c1, c0) := ClassBits(m.clazz);
            FormatHeader(m, length)
              == [c1, m.method_ + c0, length / 256, length % 256, 0x21, 0x12, 0xa4, 0x42] + m.transactionId
  {
    SmallMethod(m.method_, m.clazz);
    assert m.transactionId[..12] == m.transactionId;
    assert Hi(length) == length / 256;
  }

  lemma SmallMethod(m: nat, c: MessageClass)
    requires m < 16
    ensures TypeLow(m, c) == m + ClassBits(c).1 && TypeHigh(c) == ClassBits(c).0
  {
    TypeBits(m, c);
    assert Or(0, 0) == 0;
  }

  /** An attribute as section 15 draws it: type, length of the value, the value, and padding. */
  lemma AttributeBytes(typ: nat, v: seq<byte>, pad: nat)
    requires typ < 65536 && |v| < 65536 && pad < 4 && (|v| + pad) % 4 == 0
    ensures FormatAttribute(Attribute(typ, Some(v)))
         == [typ / 256, typ % 256, |v| / 256, |v| % 256] + v + seq(pad, _ => 0)
  {
  }

  /** f lays out the attribute a: its two numbers modulo 65536, its value, zeros up to a multiple of four. */
  predicate LaysOut(f: seq<byte>, a: Attribute) {
    && |f| == 4 + PaddedSize(a)
    && U16(f, 0) == a.typ % 65536
    && U16(f, 2) == Size(a.value) % 65536
    && f[4..4 + Size(a.value)] == Bytes(a.value)
    && f[4 + Size(a.value)..] == Zeros(PaddedSize(a) - Size(a.value))
  }

  lemma PrintedLaysOut(a: Attribute)
    ensures LaysOut(FormatAttribute(a), a)
  {
    HiLo(a.typ);
    HiLo(Size(a.value));
  }

  lemma Small16(n: nat)
    requires n < 65536
    ensures n % 65536 == n
  {
  }

  /** Reading an attribute with n bytes of value, padded to p, from the front of some bytes. */
  lemma ReadFront(f: seq<byte>, typ: nat, v: seq<byte>, p: nat, rest: seq<byte>)
    requires |f| == 4 + p && |v| <= p && U16(f, 0) == typ && U16(f, 2) == |v| && f[4..4 + |v|] == v
    ensures ParseAttribute(f + rest) == Ok(Attribute(typ, if v == [] then None else Some(v)))
    ensures From(f + rest, 4 + p) == rest
  {
    var b := f + rest;
    assert b[0] == f[0] && b[1] == f[1] && b[2] == f[2] && b[3] == f[3];
    assert b[4..4 + |v|] == f[4..4 + |v|];
    assert b[|f|..] == rest;
  }

  lemma ParseFirst(f: seq<byte>, a: Attribute, rest: seq<byte>)
    requires LaysOut(f, a) && Fits(a)
    ensures ParseAttribute(f + rest) == Ok(Norm(a))
    ensures From(f + rest, 4 + PaddedSize(a)) == rest
    ensures PaddedSize(Norm(a)) == PaddedSize(a)
  {
    Small16(a.typ);
    Small16(Size(a.value));
    ReadFront(f, a.typ, Bytes(a.value), PaddedSize(a), rest);
  }

  lemma ParseMisfit(a: Attribute, rest: seq<byte>)
    requires !Fits(a)
    ensures ParseAttribute(FormatAttribute(a) + rest) != Ok(Norm(a))
  {
    PrintedLaysOut(a);
  }

  /** Printing one attribute in front of some bytes, and parsing them. */
  lemma ParsePrinted(a: Attribute, rest: seq<byte>)
    ensures var r := ParseAttributes(FormatAttribute(a) + rest);
            if Fits(a) then r == ParsedCons(Norm(a), ParseAttributes(rest))
            else r.Ok? ==> r.value != [] && r.value[0] != Norm(a)
  {
    var b := FormatAttribute(a) + rest;
    PrintedLaysOut(a);
    if Fits(a) {
      ParseFirst(FormatAttribute(a), a, rest);
      ParseOne(b, Norm(a), rest);
    } else {
      ParseMisfit(a, rest);
      var got := ParseAttribute(b).value;
      ParseOne(b, got, From(b, 4 + PaddedSize(got)));
    }
  }

  predicate AllFit(as_: seq<Attribute>) {
    forall i :: 0 <= i < |as_| ==> Fits(as_[i])
  }

  lemma AllFitCons(a: Attribute, as_: seq<Attribute>)
    ensures AllFit([a] + as_) <==> Fits(a) && AllFit(as_)
    ensures NormAll([a] + as_) == [Norm(a)] + NormAll(as_)
  {
    var all := [a] + as_;
    assert all[0] == a && forall i :: 0 <= i < |as_| ==> all[i + 1] == as_[i];
    if AllFit(all) {
      forall i | 0 <= i < |as_|
        ensures Fits(as_[i])
      {
        assert Fits(all[i + 1]);
      }
    }
  }

  /** Parsing what was printed gives the attributes back exactly when their types and lengths fit 16 bits. */
  lemma {:induction false} AttributesRoundTrip(as_: seq<Attribute>)
    ensures ParseAttributes(FormatAttributes(as_)) == Ok(NormAll(as_)) <==> AllFit(as_)
  {
    if as_ == [] {
      assert NormAll(as_) == [];
    } else {
      var a, tail := as_[0], as_[1..];
      assert as_ == [a] + tail;
      AttributesRoundTrip(tail);
      AllFitCons(a, tail);
      ParsePrinted(a, FormatAttributes(tail));
      SameCons(Norm(a), ParseAttributes(FormatAttributes(tail)), NormAll(tail));
    }
  }

  lemma SameCons(a: Attribute, rest: Result<seq<Attribute>, Error>, as_: seq<Attribute>)
    ensures ParsedCons(a, rest) == Ok([a] + as_) <==> rest == Ok(as_)
  {
    if rest.Ok? {
      assert ([a] + rest.value)[1..] == rest.value && ([a] + as_)[1..] == as_;
    }
  }

  /**
   The round trip, with its exact domain: a message with a twelve-byte transaction ID is
   read back as it was, up to empty and absent values, exactly when its method and class
   survive the header and every attribute fits.
   */
  lemma MessageRoundTrip(m: Message)
    requires |m.transactionId| == 12
    ensures FormatMessage(m).Ok?
    ensures ParseMessage(FormatMessage(m).value) == Ok(Normal(m))
       <==> Survives(m.method_, m.clazz) && AllFit(m.attributes)
  {
    var body := FormatAttributes(m.attributes);
    var b := FormatMessage(m).value;
    assert b[20..] == body;
    assert b[8..20] == m.transactionId;
    assert b[4..8] == MAGIC_COOKIE;
    HeaderSurvives(m.method_, m.clazz);
    AttributesRoundTrip(m.attributes);
  }

  // ---------------------------------------------------------------- arbitrary bytes

  /** What is left when whole attributes, padding included, have been taken off the front. */
  function Residue(b: seq<byte>): (r: nat)
    ensures r < 4
    decreases |b|
  {
    if |b| < 4 then |b|
    else Residue(From(b, 4 + Padded(Clip(b, 4 + U16(b, 2)) - 4)))
  }

  predicate HeaderOk(b: seq<byte>) {
    |b| >= 20 && b[0] < 64 && b[4] == 0x21 && b[5] == 0x12 && b[6] == 0xa4 && b[7] == 0x42
  }

  lemma {:induction false} ParsesUnlessResidue(b: seq<byte>)
    ensures ParseAttributes(b).Ok? <==> Residue(b) == 0
    ensures ParseAttributes(b).Err? ==> ParseAttributes(b).error == TooFewBytes
    ensures ParseAttributes(b).Ok? ==> AllFit(ParseAttributes(b).value)
    decreases |b|
  {
    if |b| >= 4 {
      var a := ParseAttribute(b).value;
      var rest := From(b, 4 + PaddedSize(a));
      ParsedSize(b);
      ParsesUnlessResidue(rest);
      ParseOne(b, a, rest);
      ResidueOne(b, a, rest);
      if ParseAttributes(rest).Ok? {
        AllFitCons(a, ParseAttributes(rest).value);
      }
    } else {
      TooShort(b);
    }
  }

  /** One step of the walk that Residue follows. */
  lemma ResidueOne(b: seq<byte>, a: Attribute, rest: seq<byte>)
    requires ParseAttribute(b) == Ok(a) && rest == From(b, 4 + PaddedSize(a))
    ensures Residue(b) == Residue(rest)
  {
    ParsedSize(b);
  }

  lemma TooShort(b: seq<byte>)
    requires |b| < 4
    ensures ParseAttributes(b) == if b == [] then Ok([]) else Err(TooFewBytes)
  {
  }

  lemma ParsedSize(b: seq<byte>)
    requires |b| >= 4
    ensures ParseAttribute(b).Ok? && Fits(ParseAttribute(b).value)
    ensures Size(ParseAttribute(b).value.value) == Clip(b, 4 + U16(b, 2)) - 4
  {
  }

  /** The parser accepts exactly the inputs whose header is right and whose attribute walk leaves no 1 to 3 bytes. */
  lemma AcceptedInputs(b: seq<byte>)
    ensures ParseMessage(b).Ok? <==> HeaderOk(b) && Residue(b[20..]) == 0
  {
    if |b| >= 20 {
      ParsesUnlessResidue(b[20..]);
      assert b[4..8] == [b[4], b[5], b[6], b[7]];
    }
  }

  /** No value is empty without being absent. */
  predicate NoneEmpty(as_: seq<Attribute>) {
    forall i :: 0 <= i < |as_| ==> as_[i].value != Some([])
  }

  lemma NormalUnchanged(as_: seq<Attribute>)
    ensures NormAll(as_) == as_ <==> NoneEmpty(as_)
  {
    if NormAll(as_) == as_ {
      forall i | 0 <= i < |as_|
        ensures as_[i].value != Some([])
      {
        assert NormAll(as_)[i] == Norm(as_[i]);
      }
    }
  }

  /** The method and class that are read from a printed message. */
  lemma PrintedTypeReads(m: Message)
    requires |m.transactionId| == 12 && ParseMessage(FormatMessage(m).value).Ok?
    ensures var r := ParseMessage(FormatMessage(m).value).value;
            r.method_ == m.method_ && r.clazz == m.clazz <==> Survives(m.method_, m.clazz)
  {
    HeaderSurvives(m.method_, m.clazz);
    var b := FormatMessage(m).value;
    assert b[0] == TypeHigh(m.clazz) && b[1] == TypeLow(m.method_, m.clazz);
  }

  /** Printing and parsing the message gives it back as it is. */
  predicate Reparses(m: Message) {
    FormatMessage(m).Ok? && ParseMessage(FormatMessage(m).value) == Ok(m)
  }

  /**
   Printing and parsing again what was parsed changes nothing if and only if the method survives and no value
   was empty; such values come from a last attribute of which only the header was there (LastIsBare).
   */
  lemma ReparseParsed(b: seq<byte>)
    requires ParseMessage(b).Ok?
    ensures var m := ParseMessage(b).value;
            && FormatMessage(m).Ok?
            && (Reparses(m) <==> Survives(m.method_, m.clazz) && NoneEmpty(m.attributes))
            && (ParseMessage(FormatMessage(m).value) == Ok(Normal(m)) <==> Survives(m.method_, m.clazz))
  {
    var m := ParseMessage(b).value;
    ParsesUnlessResidue(b[20..]);
    MessageRoundTrip(m);
    NormalUnchanged(m.attributes);
    if ParseMessage(FormatMessage(m).value).Ok? {
      PrintedTypeReads(m);
    }
  }

  /** The bytes end with the header of an attribute that announces a value. */
  predicate LastIsBare(b: seq<byte>)
    decreases |b|
  {
    |b| >= 4 &&
    var length := U16(b, 2);
    if length > 0 && |b| == 4 then true
    else LastIsBare(From(b, 4 + Padded(Clip(b, 4 + length) - 4)))
  }

  lemma NoneEmptyCons(a: Attribute, as_: seq<Attribute>)
    ensures NoneEmpty([a] + as_) <==> a.value != Some([]) && NoneEmpty(as_)
  {
    var all := [a] + as_;
    assert all[0] == a && forall i :: 0 <= i < |as_| ==> all[i + 1] == as_[i];
    if NoneEmpty(all) {
      forall i | 0 <= i < |as_|
        ensures as_[i].value != Some([])
      {
        assert all[i + 1].value != Some([]);
      }
    }
  }

  lemma EmptyWhenBare(b: seq<byte>)
    requires |b| >= 4
    ensures ParseAttribute(b).Ok? && (ParseAttribute(b).value.value == Some([]) <==> U16(b, 2) > 0 && |b| == 4)
  {
    var n := Clip(b, 4 + U16(b, 2));
    assert |b[4..n]| == n - 4;
  }

  /** Where empty values come from, in terms of the bytes. */
  lemma {:induction false} EmptyValues(b: seq<byte>)
    requires ParseAttributes(b).Ok?
    ensures NoneEmpty(ParseAttributes(b).value) <==> !LastIsBare(b)
    decreases |b|
  {
    if b != [] {
      var a := ParseAttribute(b).value;
      var rest := From(b, 4 + PaddedSize(a));
      ParseOne(b, a, rest);
      EmptyValues(rest);
      NoneEmptyCons(a, ParseAttributes(rest).value);
      BareOne(b, a, rest);
    }
  }

  /** One step of the walk that LastIsBare follows. */
  lemma BareStep(b: seq<byte>, rest: seq<byte>)
    requires |b| >= 4 && rest == From(b, 4 + Padded(Clip(b, 4 + U16(b, 2)) - 4))
    ensures LastIsBare(b) <==> (U16(b, 2) > 0 && |b| == 4) || LastIsBare(rest)
  {
  }

  lemma BareOne(b: seq<byte>, a: Attribute, rest: seq<byte>)
    requires ParseAttribute(b) == Ok(a) && rest == From(b, 4 + PaddedSize(a))
    ensures LastIsBare(b) <==> a.value == Some([]) || LastIsBare(rest)
  {
    ParsedSize(b);
    EmptyWhenBare(b);
    BareStep(b, rest);
  }

  /** In terms of the input: it is reparsed as it was if and only if its method survives and its end is not bare. */
  lemma ReparsedUnlessBare(b: seq<byte>)
    requires ParseMessage(b).Ok?
    ensures var m := ParseMessage(b).value;
            Reparses(m) <==> Survives(m.method_, m.clazz) && !LastIsBare(b[20..])
  {
    ReparseParsed(b);
    EmptyValues(b[20..]);
  }

  lemma BareParses(c: seq<byte>)
    requires |c| == 4 && c[0] == 0 && c[1] == 1 && c[2] == 0 && c[3] == 5
    ensures ParseAttributes(c) == Ok([Attribute(1, Some([]))]) && LastIsBare(c)
  {
    EmptyWhenBare(c);
    var a := ParseAttribute(c).value;
    assert a == Attribute(U16(c, 0), Some([]));
    assert From(c, 4 + PaddedSize(a)) == [];
    ParseOne(c, a, []);
    assert [a] + [] == [a];
  }

  /** For instance: an attribute that announces five bytes, of which none is there. */
  lemma BareAttributeChanges(b: seq<byte>)
    requires HeaderOk(b) && b[20..] == [0, 1, 0, 5]
    ensures ParseMessage(b).Ok? && ParseMessage(b).value.attributes == [Attribute(1, Some([]))]
    ensures !Reparses(ParseMessage(b).value)
  {
    BareParses(b[20..]);
    assert b[4..8] == [b[4], b[5], b[6], b[7]];
    ReparsedUnlessBare(b);
  }

  /** Attributes laid out in full, each with zero padding. */
  predicate Canonical(b: seq<byte>)
    decreases |b|
  {
    b == [] ||
    (|b| >= 4 &&
     var length := U16(b, 2);
     var end := 4 + Padded(length);
     && end <= |b|
     && b[4 + length..end] == Zeros(end - 4 - length)
     && Canonical(b[end..]))
  }

  /** The n value bytes after a header, and padding up to p. */
  lemma Relaid(f: seq<byte>, b: seq<byte>, n: nat, p: nat)
    requires |f| == 4 + p && n <= p && 4 + n <= |b|
    requires f[0] == b[0] && f[1] == b[1] && f[2] == b[2] && f[3] == b[3]
    requires f[4..4 + n] == b[4..4 + n] && f[4 + n..] == Zeros(p - n)
    ensures f == b[..4 + n] + Zeros(p - n)
  {
    assert f[..4] == b[..4];
    assert f == f[..4] + f[4..4 + n] + f[4 + n..];
    assert b[..4 + n] == b[..4] + b[4..4 + n];
  }

  /** The header of the first attribute of b, laid out again. */
  lemma HeaderRelaid(f: seq<byte>, b: seq<byte>)
    requires |b| >= 4 && LaysOut(f, ParseAttribute(b).value)
    ensures f[0] == b[0] && f[1] == b[1]
    ensures U16(f, 2) == Clip(b, 4 + U16(b, 2)) - 4 == Size(ParseAttribute(b).value.value)
  {
    ParsedSize(b);
    var a := ParseAttribute(b).value;
    Small16(a.typ);
    Small16(Size(a.value));
    U16Injective(f, 0, b, 0);
  }

  /** Laying out the first attribute of b again gives the bytes it was read from, when they are all there. */
  lemma ReprintFirst(f: seq<byte>, b: seq<byte>)
    requires |b| >= 4 && LaysOut(f, ParseAttribute(b).value)
    ensures var length := U16(b, 2);
            && (4 + length <= |b| ==>
                  && PaddedSize(ParseAttribute(b).value) == Padded(length)
                  && f == b[..4 + length] + Zeros(Padded(length) - length))
            && (4 + length > |b| ==> U16(f, 2) != length)
  {
    var a, length := ParseAttribute(b).value, U16(b, 2);
    HeaderRelaid(f, b);
    if 4 + length <= |b| {
      U16Injective(f, 2, b, 2);
      assert Bytes(a.value) == b[4..4 + length];
      Relaid(f, b, length, Padded(length));
    }
  }

  lemma U16Injective(a: seq<byte>, i: nat, b: seq<byte>, j: nat)
    requires i + 1 < |a| && j + 1 < |b| && U16(a, i) == U16(b, j)
    ensures a[i] == b[j] && a[i + 1] == b[j + 1]
  {
  }

  /** When b has room for the value and its padding. */
  lemma SamePadding(f: seq<byte>, g: seq<byte>, b: seq<byte>, n: nat, p: nat)
    requires n <= p && 4 + p <= |b| && f == b[..4 + n] + Zeros(p - n)
    ensures f + g == b <==> b[4 + n..4 + p] == Zeros(p - n) && g == b[4 + p..]
  {
    assert |f| == 4 + p;
    assert b == b[..4 + n] + b[4 + n..4 + p] + b[4 + p..];
    if f + g == b {
      assert g == (f + g)[4 + p..];
      assert Zeros(p - n) == (f + g)[4 + n..4 + p];
    }
  }

  lemma ReprintStep(f: seq<byte>, g: seq<byte>, b: seq<byte>)
    requires |b| >= 4 && LaysOut(f, ParseAttribute(b).value)
    requires var tail := From(b, 4 + PaddedSize(ParseAttribute(b).value)); g == tail <==> Canonical(tail)
    ensures f + g == b <==> Canonical(b)
  {
    var length := U16(b, 2);
    var p := Padded(length);
    ReprintFirst(f, b);
    if 4 + length > |b| {
      assert (f + g)[2] == f[2] && (f + g)[3] == f[3];
    } else if 4 + p > |b| {
      assert |f| > |b|;
    } else {
      SamePadding(f, g, b, length, p);
    }
  }

  lemma FormatCons(a: Attribute, as_: seq<Attribute>)
    ensures FormatAttributes([a] + as_) == FormatAttribute(a) + FormatAttributes(as_)
  {
    assert ([a] + as_)[1..] == as_;
  }

  lemma {:induction false} ReprintAttributes(b: seq<byte>)
    requires ParseAttributes(b).Ok?
    ensures FormatAttributes(ParseAttributes(b).value) == b <==> Canonical(b)
    decreases |b|
  {
    if b != [] {
      var a := ParseAttribute(b).value;
      var tail := From(b, 4 + PaddedSize(a));
      ParseOne(b, a, tail);
      var as_ := ParseAttributes(tail).value;
      ReprintAttributes(tail);
      PrintedLaysOut(a);
      ReprintStep(FormatAttribute(a), FormatAttributes(as_), b);
      FormatCons(a, as_);
    }
  }

  lemma ReprintHeader(b0: byte, b1: byte)
    requires b0 < 64
    ensures var m, c := MethodOf(b0, b1), ClassOf(b0, b1);
            TypeHigh(c) == b0 && TypeLow(m, c) == b1 <==> Survives(m, c) && b0 < 2
  {
    var c := ClassOf(b0, b1);
    if b0 < 2 {
      MethodOfLow(b0, b1);
      assert TypeHigh(c) == b0;
      ReprintSecond(b1, c);
    }
  }

  lemma ReprintSecond(b1: byte, c: MessageClass)
    requires C0(c) <==> b1 / 16 % 2 == 1
    ensures TypeLow(b1 % 16 + 16 * (b1 / 32), c) == b1 <==> Survives(b1 % 16 + 16 * (b1 / 32), c)
  {
    SplitByte(b1);
    ReprintLow(b1 % 16, b1 / 16 % 2, b1 / 32, c, b1);
  }

  lemma MethodOfLow(b0: byte, b1: byte)
    requires b0 < 2
    ensures MethodOf(b0, b1) == b1 % 16 + 16 * (b1 / 32)
  {
    assert b0 / 2 == 0;
  }

  /** The second byte of the type, from its lowest four bits, its class bit and its highest three. */
  lemma ReprintLow(n: nat, bit: nat, q: nat, c: MessageClass, b1: byte)
    requires n < 16 && bit < 2 && q < 8 && b1 == n + 16 * bit + 32 * q
    requires C0(c) <==> bit == 1
    ensures TypeLow(n + 16 * q, c) == b1 <==> Survives(n + 16 * q, c)
  {
    var m := n + 16 * q;
    JoinNibble(n, q);
    TypeBits(m, c);
    OrWithHalf(q);
    SameLow(n, bit, q, if C0(c) || q % 2 == 1 then 1 else 0, Or(q / 2 % 8, q % 8));
  }

  lemma SplitByte(b: byte)
    ensures b == b % 16 + 16 * (b / 16 % 2) + 32 * (b / 32)
  {
  }

  lemma JoinNibble(n: nat, q: nat)
    requires n < 16
    ensures (n + 16 * q) % 16 == n && (n + 16 * q) / 16 == q
  {
  }

  lemma SameLow(n: nat, bit: nat, q: nat, bit': nat, o: nat)
    requires n < 16 && bit < 2 && bit' < 2
    ensures n + 16 * bit' + 32 * o == n + 16 * bit + 32 * q <==> bit' == bit && o == q
  {
  }

  lemma SameHeader(h: seq<byte>, b: seq<byte>)
    requires |h| == 20 && |b| >= 20
    requires h[4..] == b[4..20]
    ensures h == b[..20] <==> h[0] == b[0] && h[1] == b[1] && U16(h, 2) == U16(b, 2)
  {
    assert h == [h[0], h[1], h[2], h[3]] + h[4..];
    assert b[..20] == [b[0], b[1], b[2], b[3]] + b[4..20];
    if U16(h, 2) == U16(b, 2) {
      U16Injective(h, 2, b, 2);
    }
  }

  lemma HeaderFields(m: Message, length: nat)
    requires |m.transactionId| == 12
    ensures var h := FormatHeader(m, length);
            && h[0] == TypeHigh(m.clazz) && h[1] == TypeLow(m.method_, m.clazz)
            && U16(h, 2) == length % 65536
            && h[4..] == MAGIC_COOKIE + m.transactionId
  {
    HiLo(length);
  }

  /** Printing what was parsed gives the same bytes exactly for canonical input with the right length field. */
  lemma ReprintParsed(b: seq<byte>)
    requires ParseMessage(b).Ok?
    ensures FormatMessage(ParseMessage(b).value) == Ok(b)
       <==> && Survives(ParseMessage(b).value.method_, ParseMessage(b).value.clazz) && b[0] < 2
            && U16(b, 2) == (|b| - 20) % 65536
            && Canonical(b[20..])
  {
    var m := ParseMessage(b).value;
    var body := FormatAttributes(m.attributes);
    var h := FormatHeader(m, |body|);
    ReprintAttributes(b[20..]);
    ReprintHeader(b[0], b[1]);
    HeaderFields(m, |body|);
    HeaderRest(b);
    SameHeader(h, b);
    SplitAt20(h, body, b);
  }

  lemma HeaderRest(b: seq<byte>)
    requires |b| >= 20
    ensures b[4..20] == b[4..8] + b[8..20]
  {
  }

  lemma SplitAt20(h: seq<byte>, body: seq<byte>, b: seq<byte>)
    requires |h| == 20 && |b| >= 20
    ensures h + body == b <==> h == b[..20] && body == b[20..]
  {
    assert b == b[..20] + b[20..];
    if h + body == b {
      assert h == b[..20] && body == b[20..];
    }
  }
}
