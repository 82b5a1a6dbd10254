/** MAPPED-ADDRESS and its XOR form (RFC 5389, sections 15.1 and 15.2), IPv4 only as in the codec. */
module StunAddresses {
  import opened Basics
  import opened Text
  import opened StunMessages

  datatype AddressError = CannotParse | AttributeTooShort | FirstByteNotZero | OnlyIpv4

  // ---------------------------------------------------------------- exclusive or

  function Xor(a: nat, b: nat): nat {
    if a == 0 && b == 0 then 0
    else 2 * Xor(a / 2, b / 2) + (if a % 2 != b % 2 then 1 else 0)
  }

  function Pow2(k: nat): nat {
    if k == 0 then 1 else 2 * Pow2(k - 1)
  }

  lemma {:induction false} XorBound(a: nat, b: nat, k: nat)
    requires a < Pow2(k) && b < Pow2(k)
    ensures Xor(a, b) < Pow2(k)
  {
    if k > 0 {
      XorBound(a / 2, b / 2, k - 1);
    }
  }

  lemma {:induction false} XorTwice(a: nat, b: nat)
    ensures Xor(Xor(a, b), b) == a
  {
    if a != 0 || b != 0 {
      XorTwice(a / 2, b / 2);
      var x := Xor(a, b);
      assert x / 2 == Xor(a / 2, b / 2) && x % 2 == (if a % 2 != b % 2 then 1 else 0);
    }
  }

  lemma EightBits()
    ensures Pow2(8) == 256
  {
    assert Pow2(4) == 16;
  }

  function XorByte(a: byte, b: byte): byte {
    EightBits();
    XorBound(a, b, 8);
    Xor(a, b)
  }

  /** Whether bit k of n is set, counting from the lowest. */
  predicate Bit(n: nat, k: nat) {
    if k == 0 then n % 2 == 1 else Bit(n / 2, k - 1)
  }

  /** It is read by division and remainder. */
  lemma {:induction false} BitByDivision(n: nat, k: nat)
    ensures Pow2(k) > 0
    ensures Bit(n, k) <==> n / Pow2(k) % 2 == 1
  {
    if k > 0 {
      BitByDivision(n / 2, k - 1);
      HalvesFirst(n, Pow2(k - 1));
    }
  }

  lemma HalvesFirst(n: nat, p: nat)
    requires p > 0
    ensures n / 2 / p == n / (2 * p)
  {
    var half, d := n / 2, 2 * p;
    DivMod(half, p);
    DivMod(n, d);
    Doubled(n, half, n % 2, p, half / p, half % p);
    OneQuotient(d, half / p, 2 * (half % p) + n % 2, n / d, n % d);
  }

  lemma DivMod(n: nat, d: nat)
    requires d > 0
    ensures n == d * (n / d) + n % d && 0 <= n / d && 0 <= n % d < d
  {
  }

  lemma Doubled(n: nat, half: nat, b: nat, p: nat, q: nat, r: nat)
    requires n == 2 * half + b && b < 2 && half == p * q + r && r < p
    ensures n == 2 * p * q + (2 * r + b) && 2 * r + b < 2 * p
  {
  }

  lemma OneQuotient(d: nat, q: nat, r: nat, q': nat, r': nat)
    requires d * q + r == d * q' + r' && r < d && r' < d
    ensures q == q'
  {
    if q < q' {
      Further(d, q, q');
    } else if q' < q {
      Further(d, q', q);
    }
  }

  lemma Further(d: nat, q: nat, q': nat)
    requires q < q'
    ensures d * q' >= d * q + d
  {
    var more: nat := q' - q - 1;
    assert d * q' == d * q + d + d * more;
  }

  /** Each bit of the exclusive or says whether the bits at its place differ. */
  lemma {:induction false} XorBit(a: nat, b: nat, k: nat)
    ensures Bit(Xor(a, b), k) <==> Bit(a, k) != Bit(b, k)
  {
    var x := Xor(a, b);
    assert x / 2 == Xor(a / 2, b / 2) && x % 2 == (if a % 2 != b % 2 then 1 else 0);
    if k > 0 {
      XorBit(a / 2, b / 2, k - 1);
    }
  }

  /** A number below 2^n is determined by its lowest n bits. */
  lemma {:induction false} SameBits(a: nat, b: nat, n: nat)
    requires a < Pow2(n) && b < Pow2(n)
    requires forall k :: 0 <= k < n ==> Bit(a, k) == Bit(b, k)
    ensures a == b
  {
    if n > 0 {
      assert Bit(a, 0) == Bit(b, 0);
      forall k | 0 <= k < n - 1
        ensures Bit(a / 2, k) == Bit(b / 2, k)
      {
        assert Bit(a, k + 1) == Bit(b, k + 1);
      }
      SameBits(a / 2, b / 2, n - 1);
    }
  }

  /** x is a with the bits of m flipped. */
  predicate Flipped(x: byte, a: byte, m: byte) {
    forall k :: 0 <= k < 8 ==> (Bit(x, k) <==> Bit(a, k) != Bit(m, k))
  }

  /** XorByte flips the bits of the mask, and is the only byte that does. */
  lemma XorByteFlips(x: byte, a: byte, m: byte)
    ensures x == XorByte(a, m) <==> Flipped(x, a, m)
  {
    forall k
      ensures Bit(XorByte(a, m), k) <==> Bit(a, k) != Bit(m, k)
    {
      XorBit(a, m, k);
    }
    if Flipped(x, a, m) {
      EightBits();
      SameBits(x, XorByte(a, m), 8);
    }
  }

  // ---------------------------------------------------------------- addresses

  /** What storing parseInt(s) in a Uint8Array leaves; NaN becomes 0. */
  function ByteOf(s: string): byte {
    match ParseInt(s)
    case None => 0
    case Some(v) => v % 256
  }

  function QuadBytes(parts: seq<string>): (r: seq<byte>)
    requires |parts| == 4
    ensures |r| == 4
  {
    [ByteOf(parts[0]), ByteOf(parts[1]), ByteOf(parts[2]), ByteOf(parts[3])]
  }

  /** quadrants.join('.') */
  function Quad(b: seq<byte>): string
    requires |b| == 4
  {
    Join([Numeral(b[0]), Numeral(b[1]), Numeral(b[2]), Numeral(b[3])], '.')
  }

  function FormatMapped(e: Endpoint): (r: Result<seq<byte>, AddressError>)
    ensures r.Ok? ==> |r.value| == 8
  {
    var s := Split(e.address, '.');
    if |s| != 4 then Err(CannotParse)
    else Ok([0, 1, Hi(e.port), Lo(e.port)] + QuadBytes(s))
  }

  function ParseMapped(b: seq<byte>): Result<Endpoint, AddressError> {
    if |b| < 8 then Err(AttributeTooShort)
    else if b[0] != 0 then Err(FirstByteNotZero)
    else if b[1] != 1 then Err(OnlyIpv4)
    else Ok(Endpoint(Quad(b[4..8]), U16(b, 2)))
  }

  /** The bytes with port and address XOR'ed with the magic cookie. */
  function XorAddress(b: seq<byte>): (r: seq<byte>)
    requires |b| >= 8
    ensures |r| == |b|
  {
    b[..2] + [XorByte(b[2], 0x21), XorByte(b[3], 0x12)] +
    [XorByte(b[4], 0x21), XorByte(b[5], 0x12), XorByte(b[6], 0xa4), XorByte(b[7], 0x42)] + b[8..]
  }

  function FormatXor(e: Endpoint): (r: Result<seq<byte>, AddressError>)
    ensures r.Ok? ==> |r.value| == 8
  {
    match FormatMapped(e)
    case Err(err) => Err(err)
    case Ok(b) => Ok(XorAddress(b))
  }

  function ParseXor(b: seq<byte>): Result<Endpoint, AddressError> {
    if |b| < 8 then Err(AttributeTooShort) else ParseMapped(XorAddress(b))
  }

  lemma XorAddressBytes(b: seq<byte>)
    requires |b| >= 8
    ensures var v := XorAddress(b);
            && v[0] == b[0] && v[1] == b[1] && v[2] == XorByte(b[2], 0x21) && v[3] == XorByte(b[3], 0x12)
            && v[4..8] == [XorByte(b[4], 0x21), XorByte(b[5], 0x12), XorByte(b[6], 0xa4), XorByte(b[7], 0x42)]
            && v[8..] == b[8..]
  {
  }

  lemma XorAddressTwice(b: seq<byte>)
    requires |b| >= 8
    ensures XorAddress(XorAddress(b)) == b
  {
    var v := XorAddress(b);
    XorAddressBytes(b);
    XorByteTwice(b[2], 0x21);
    XorByteTwice(b[3], 0x12);
    XorByteTwice(b[4], 0x21);
    XorByteTwice(b[5], 0x12);
    XorByteTwice(b[6], 0xa4);
    XorByteTwice(b[7], 0x42);
    var w := v[4..8];
    assert v[4] == w[0] && v[5] == w[1] && v[6] == w[2] && v[7] == w[3];
    EightBytes(b);
  }

  lemma XorByteTwice(a: byte, mask: byte)
    ensures XorByte(XorByte(a, mask), mask) == a
  {
    XorTwice(a, mask);
  }

  lemma EightBytes(b: seq<byte>)
    requires |b| >= 8
    ensures b == b[..2] + [b[2], b[3]] + [b[4], b[5], b[6], b[7]] + b[8..]
  {
  }

  /** A part of a dotted quad as numbers are written: no leading zero, below 256. */
  predicate IsQuadPart(s: string) {
    IsNumeral(s) && DigitsValue(s) < 256
  }

  predicate IsDottedQuad(address: string) {
    var s := Split(address, '.');
    |s| == 4 && IsQuadPart(s[0]) && IsQuadPart(s[1]) && IsQuadPart(s[2]) && IsQuadPart(s[3])
  }

  lemma NumeralIsQuadPart(n: byte)
    ensures IsQuadPart(Numeral(n))
  {
    NumeralValue(n);
  }

  lemma QuadPart(s: string)
    ensures Numeral(ByteOf(s)) == s <==> IsQuadPart(s)
  {
    if IsQuadPart(s) {
      ParseIntOfDigits(s);
      assert ByteOf(s) == DigitsValue(s);
      ValueNumeral(s);
    } else {
      NumeralIsQuadPart(ByteOf(s));
    }
  }

  lemma SplitQuad(b: seq<byte>)
    requires |b| == 4
    ensures Split(Quad(b), '.') == [Numeral(b[0]), Numeral(b[1]), Numeral(b[2]), Numeral(b[3])]
  {
    SplitJoin([Numeral(b[0]), Numeral(b[1]), Numeral(b[2]), Numeral(b[3])], '.');
  }

  lemma BytesOfQuad(b: seq<byte>)
    requires |b| == 4
    ensures |Split(Quad(b), '.')| == 4 && QuadBytes(Split(Quad(b), '.')) == b
  {
    SplitQuad(b);
    ByteOfNumeral(b[0]);
    ByteOfNumeral(b[1]);
    ByteOfNumeral(b[2]);
    ByteOfNumeral(b[3]);
    assert b == [b[0], b[1], b[2], b[3]];
  }

  lemma ByteOfNumeral(n: byte)
    ensures ByteOf(Numeral(n)) == n
  {
    ParseIntOfNumeral(n);
  }

  lemma QuadOfParts(address: string)
    requires |Split(address, '.')| == 4
    ensures Quad(QuadBytes(Split(address, '.'))) == address <==> IsDottedQuad(address)
  {
    var s := Split(address, '.');
    JoinSplit(address, '.');
    SplitQuad(QuadBytes(s));
    QuadPart(s[0]);
    QuadPart(s[1]);
    QuadPart(s[2]);
    QuadPart(s[3]);
    assert s == [s[0], s[1], s[2], s[3]];
  }

  lemma ParseXorOfXor(b: seq<byte>)
    requires |b| >= 8
    ensures ParseXor(XorAddress(b)) == ParseMapped(b)
  {
    XorAddressTwice(b);
  }

  lemma ParsedQuad(b: seq<byte>, e: Endpoint)
    requires |b| == 8 && b[0] == 0 && b[1] == 1 && U16(b, 2) == e.port % 65536
    requires |Split(e.address, '.')| == 4 && b[4..8] == QuadBytes(Split(e.address, '.'))
    ensures ParseMapped(b) == Ok(e) <==> IsDottedQuad(e.address) && e.port < 65536
  {
    QuadOfParts(e.address);
    ReadQuad(b, b[4..8], e.port % 65536);
    SameEndpoint(Quad(b[4..8]), e);
  }

  lemma ReadQuad(b: seq<byte>, q: seq<byte>, port: nat)
    requires |b| == 8 && b[0] == 0 && b[1] == 1 && U16(b, 2) == port && b[4..8] == q
    ensures ParseMapped(b) == Ok(Endpoint(Quad(q), port))
  {
  }

  lemma MappedRoundTrip(e: Endpoint)
    ensures FormatMapped(e).Ok? && ParseMapped(FormatMapped(e).value) == Ok(e)
       <==> IsDottedQuad(e.address) && e.port < 65536
  {
    HiLo(e.port);
    if |Split(e.address, '.')| == 4 {
      ParsedQuad(FormatMapped(e).value, e);
    }
  }

  /** An endpoint survives the address attribute exactly when it is a dotted quad with a 16-bit port. */
  lemma AddressRoundTrip(e: Endpoint)
    ensures FormatXor(e).Ok? && ParseXor(FormatXor(e).value) == Ok(e)
       <==> IsDottedQuad(e.address) && e.port < 65536
  {
    MappedRoundTrip(e);
    if FormatMapped(e).Ok? {
      ParseXorOfXor(FormatMapped(e).value);
    }
  }

  lemma ReformatMapped(x: seq<byte>)
    requires ParseMapped(x).Ok?
    ensures FormatMapped(ParseMapped(x).value) == Ok(x[..8])
  {
    BytesOfQuad(x[4..8]);
    HiLoOfU16(x[2], x[3]);
    assert x[..8] == [x[0], x[1], x[2], x[3]] + x[4..8];
  }

  /** Whatever eight bytes were read as an endpoint are the ones that writing it gives. */
  lemma ReformatAddress(b: seq<byte>)
    requires ParseXor(b).Ok?
    ensures FormatXor(ParseXor(b).value) == Ok(b[..8])
  {
    ReformatMapped(XorAddress(b));
    XorAddressTwice(b);
    XorOfPrefix(XorAddress(b));
  }

  lemma XorOfPrefix(b: seq<byte>)
    requires |b| >= 8
    ensures XorAddress(b[..8]) == XorAddress(b)[..8]
  {
  }

  // ---------------------------------------------------------------- the bits on the wire

  /** x is b with the bits of the magic cookie flipped in the two bytes of the port and the four of the address. */
  predicate Masked(x: seq<byte>, b: seq<byte>)
    requires |b| >= 8
  {
    && |x| == |b| && x[..2] == b[..2] && x[8..] == b[8..]
    && Flipped(x[2], b[2], 0x21) && Flipped(x[3], b[3], 0x12)
    && Flipped(x[4], b[4], 0x21) && Flipped(x[5], b[5], 0x12) && Flipped(x[6], b[6], 0xa4) && Flipped(x[7], b[7], 0x42)
  }

  lemma XorAddressMasks(x: seq<byte>, b: seq<byte>)
    requires |b| >= 8
    ensures x == XorAddress(b) <==> Masked(x, b)
  {
    if |x| == |b| {
      XorByteFlips(x[2], b[2], 0x21);
      XorByteFlips(x[3], b[3], 0x12);
      XorByteFlips(x[4], b[4], 0x21);
      XorByteFlips(x[5], b[5], 0x12);
      XorByteFlips(x[6], b[6], 0xa4);
      XorByteFlips(x[7], b[7], 0x42);
      XorAddressBytes(b);
      SameEight(x, XorAddress(b));
    }
  }

  lemma SameEight(x: seq<byte>, y: seq<byte>)
    requires |x| == |y| >= 8
    ensures x == y <==>
            x[..2] == y[..2] && x[2] == y[2] && x[3] == y[3] && x[4..8] == y[4..8] && x[8..] == y[8..]
  {
    EightBytes(x);
    EightBytes(y);
  }

  /** The plain form of an endpoint: the family, the port and the four numbers of a dotted quad. */
  predicate Plain(b: seq<byte>, e: Endpoint) {
    && |b| >= 8 && b[0] == 0 && b[1] == 1
    && b[2] * 256 as int + b[3] as int == e.port
    && IsDottedQuad(e.address)
    && var s := Split(e.address, '.');
       [DigitsValue(s[0]), DigitsValue(s[1]), DigitsValue(s[2]), DigitsValue(s[3])] == [b[4], b[5], b[6], b[7]]
  }

  lemma PlainIsMapped(b: seq<byte>, e: Endpoint)
    requires |b| >= 8
    ensures ParseMapped(b) == Ok(e) <==> Plain(b, e)
  {
    if b[0] == 0 && b[1] == 1 {
      var q := b[4..8];
      SplitQuad(q);
      QuadNumbers(q);
      if Plain(b, e) {
        SameQuad(e.address, q);
      }
    }
  }

  lemma QuadNumbers(q: seq<byte>)
    requires |q| == 4
    ensures IsDottedQuad(Quad(q))
    ensures var s := Split(Quad(q), '.');
            [DigitsValue(s[0]), DigitsValue(s[1]), DigitsValue(s[2]), DigitsValue(s[3])] == [q[0], q[1], q[2], q[3]]
  {
    SplitQuad(q);
    NumeralIsQuadPart(q[0]);
    NumeralIsQuadPart(q[1]);
    NumeralIsQuadPart(q[2]);
    NumeralIsQuadPart(q[3]);
    NumeralValue(q[0]);
    NumeralValue(q[1]);
    NumeralValue(q[2]);
    NumeralValue(q[3]);
  }

  lemma SameQuad(address: string, q: seq<byte>)
    requires |q| == 4 && IsDottedQuad(address)
    requires var s := Split(address, '.');
             [DigitsValue(s[0]), DigitsValue(s[1]), DigitsValue(s[2]), DigitsValue(s[3])] == [q[0], q[1], q[2], q[3]]
    ensures address == Quad(q)
  {
    var s := Split(address, '.');
    JoinSplit(address, '.');
    var n := [DigitsValue(s[0]), DigitsValue(s[1]), DigitsValue(s[2]), DigitsValue(s[3])];
    assert n[0] == q[0] && n[1] == q[1] && n[2] == q[2] && n[3] == q[3];
    ValueNumeral(s[0]);
    ValueNumeral(s[1]);
    ValueNumeral(s[2]);
    ValueNumeral(s[3]);
    assert s == [Numeral(q[0]), Numeral(q[1]), Numeral(q[2]), Numeral(q[3])];
  }

  /** Reading an address undoes the mask, and gives the endpoint whose plain form is left. */
  lemma ParseXorUnmasks(b: seq<byte>, plain: seq<byte>, e: Endpoint)
    requires |b| >= 8 && Masked(plain, b)
    ensures ParseXor(b) == Ok(e) <==> Plain(plain, e)
  {
    XorAddressMasks(plain, b);
    PlainIsMapped(plain, e);
  }

  /** An address can be printed if and only if it holds exactly three dots. */
  lemma FormatsThreeDots(e: Endpoint)
    ensures if multiset(e.address)['.'] == 3 then FormatXor(e).Ok? else FormatXor(e) == Err(CannotParse)
  {
    PartsCounted(e.address, '.');
  }

  /** What goes out for an endpoint with a plain form is that form, masked, and nothing else. */
  lemma FormatXorMasks(e: Endpoint, plain: seq<byte>, x: seq<byte>)
    requires |plain| == 8 && Plain(plain, e)
    ensures FormatXor(e) == Ok(x) <==> Masked(x, plain)
  {
    PlainIsMapped(plain, e);
    ReformatMapped(plain);
    assert plain[..8] == plain;
    XorAddressMasks(x, plain);
  }
}
