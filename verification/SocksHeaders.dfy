/** The SOCKS5 header formats (RFC 1928, sections 3 to 7). */
module SocksHeaders {
  import opened Basics

  const VERSION5 := 5
  const NOAUTH := 0

  const TCP_CONNECT := 1
  const UDP_ASSOCIATE := 3

  const IP_V4 := 1
  const DNS := 3
  const IP_V6 := 4

  const SUCCEEDED := 0
  const FAILURE := 1
  const RESERVED := 9

  datatype Error =
    | UnsupportedAddressType
    | WrongAddressSize
    | CannotParse
    | OutOfRange
    | TooShort
    | WrongVersion
    | UnsupportedCommand
    | InvalidObject
    | Fragmented
    | NoMethods
    | NeedsAuthentication

  // ---------------------------------------------------------------- the address library

  type Octets = b: seq<byte> | |b| == 4 witness [0, 0, 0, 0]

  type Words = w: seq<nat> | |w| == 8 && forall i :: 0 <= i < |w| ==> w[i] < 65536 witness [0, 0, 0, 0, 0, 0, 0, 0]

  /** ipaddr.js: an address is valid when it can be parsed, and not both as IPv4 and as IPv6. */
  datatype Lib = Lib(
    parse4: string -> Option<Octets>,
    print4: Octets -> string,
    parse6: string -> Option<Words>,
    print6: Words -> string)

  /** What is assumed of it: what it prints, it reads back, in the same family. */
  ghost predicate LibOk(lib: Lib) {
    && (forall b: Octets :: lib.parse4(lib.print4(b)) == Some(b))
    && (forall w: Words :: lib.parse6(lib.print6(w)) == Some(w))
    && (forall w: Words :: lib.parse4(lib.print6(w)) == None)
  }

  /** n words, from twice as many bytes. */
  function ToWords(b: seq<byte>, n: nat): (w: seq<nat>)
    requires |b| == 2 * n
    ensures |w| == n && forall i :: 0 <= i < |w| ==> w[i] < 65536
  {
    if n == 0 then [] else ToWords(b[..2 * n - 2], n - 1) + [U16(b, 2 * n - 2)]
  }

  /** toByteArray */
  function ToBytes(w: seq<nat>): (b: seq<byte>)
    ensures |b| == 2 * |w|
  {
    if w == [] then [] else ToBytes(Init(w)) + PortBytes(Last(w))
  }

  function PortBytes(port: nat): (b: seq<byte>)
    ensures |b| == 2
  {
    [Hi(port), Lo(port)]
  }

  lemma WordBytes(h: byte, l: byte)
    ensures PortBytes(256 * h + l) == [h, l]
  {
    HiLoOfU16(h, l);
  }

  lemma WordsMore(w: seq<nat>, x: nat)
    ensures ToBytes(w + [x]) == ToBytes(w) + PortBytes(x)
  {
    assert Init(w + [x]) == w;
  }

  lemma BytesMore(b: seq<byte>, n: nat, h: byte, l: byte)
    requires |b| == 2 * n
    ensures ToWords(b + [h, l], n + 1) == ToWords(b, n) + [256 * h + l]
  {
    var c := b + [h, l];
    assert c[..2 * n] == b && c[2 * n] == h && c[2 * n + 1] == l;
  }

  lemma {:induction false} WordsOfBytes(b: seq<byte>, n: nat)
    requires |b| == 2 * n
    ensures ToBytes(ToWords(b, n)) == b
  {
    if n > 0 {
      var m := 2 * n - 2;
      WordsOfBytes(b[..m], n - 1);
      WordsMore(ToWords(b[..m], n - 1), U16(b, m));
      WordBytes(b[m], b[m + 1]);
      assert b == b[..m] + [b[m], b[m + 1]];
    }
  }

  lemma WordMore(b: seq<byte>, n: nat, x: nat)
    requires |b| == 2 * n && x < 65536
    ensures ToWords(b + PortBytes(x), n + 1) == ToWords(b, n) + [x]
  {
    BytesMore(b, n, Hi(x), Lo(x));
    HiLo(x);
  }

  lemma {:induction false} BytesOfWords(w: seq<nat>)
    requires forall i :: 0 <= i < |w| ==> w[i] < 65536
    ensures ToWords(ToBytes(w), |w|) == w
  {
    if w != [] {
      BytesOfWords(Init(w));
      WordMore(ToBytes(Init(w)), |w| - 1, Last(w));
      assert w == Init(w) + [Last(w)];
    }
  }

  // ---------------------------------------------------------------- destinations

  /** addressByteLength is None when it is NaN. */
  datatype Destination = Destination(addressType: nat, endpoint: Endpoint, addressByteLength: Option<nat>)

  /** Reading past the end of a Uint8Array gives undefined, which counts as 0 in arithmetic. */
  function At(b: seq<byte>, i: nat): byte {
    if i < |b| then b[i] else 0
  }

  function PortAt(b: seq<byte>, i: nat): nat {
    U16([At(b, i), At(b, i + 1)], 0)
  }

  function NameAt(b: seq<byte>, from: nat, n: nat): string {
    seq(n, i requires 0 <= i < n => At(b, from + i) as char)
  }

  function InterpretDestination(lib: Lib, b: seq<byte>): Result<Destination, Error> {
    if b == [] then Err(UnsupportedAddressType)
    else if b[0] == IP_V4 then
      if |b| < 5 then Err(WrongAddressSize)
      else Ok(Destination(IP_V4, Endpoint(lib.print4(b[1..5]), PortAt(b, 5)), Some(7)))
    else if b[0] == DNS then
      if |b| == 1 then Ok(Destination(DNS, Endpoint("", 0), None))
      else
        var n: nat := b[1];
        Ok(Destination(DNS, Endpoint(NameAt(b, 2, n), PortAt(b, n + 2)), Some(n + 4)))
    else if b[0] == IP_V6 then
      if |b| < 17 then Err(WrongAddressSize)
      else Ok(Destination(IP_V6, Endpoint(lib.print6(ToWords(b[1..17], 8)), PortAt(b, 17)), Some(19)))
    else Err(UnsupportedAddressType)
  }

  /** An array of n elements into which `all` is stored element by element: the excess is ignored. */
  function Fill(all: seq<byte>, n: nat): (r: seq<byte>)
    ensures |r| == n
  {
    seq(n, i requires 0 <= i < n => At(all, i))
  }

  function Space(d: Destination): nat {
    if d.addressByteLength.Some? then d.addressByteLength.value else 0
  }

  /** All that composeDestination means to write. */
  function DestinationBytes(lib: Lib, d: Destination): Result<seq<byte>, Error> {
    if d.addressType == IP_V4 then
      match lib.parse4(d.endpoint.address)
      case None => Err(CannotParse)
      case Some(b) => if Space(d) < 5 then Err(OutOfRange) else Ok([IP_V4] + b + PortBytes(d.endpoint.port))
    else if d.addressType == DNS then
      Ok([DNS, |d.endpoint.address| % 256] + CharBytes(d.endpoint.address) + PortBytes(d.endpoint.port))
    else if d.addressType == IP_V6 then
      match lib.parse6(d.endpoint.address)
      case None => Err(CannotParse)
      case Some(w) => if Space(d) < 17 then Err(OutOfRange) else Ok([IP_V6] + ToBytes(w) + PortBytes(d.endpoint.port))
    else Err(UnsupportedAddressType)
  }

  function ComposeDestination(lib: Lib, d: Destination): Result<seq<byte>, Error> {
    match DestinationBytes(lib, d)
    case Err(e) => Err(e)
    case Ok(b) => Ok(Fill(b, Space(d)))
  }

  function MakeDestination(lib: Lib, e: Endpoint): Destination {
    if lib.parse4(e.address).Some? then Destination(IP_V4, e, Some(7))
    else if lib.parse6(e.address).Some? then Destination(IP_V6, e, Some(19))
    else Destination(DNS, e, Some(|e.address| + 4))
  }

  /** The bytes of an endpoint in a header; composing the destination made of one cannot fail. */
  function EndpointBytes(lib: Lib, e: Endpoint): (r: seq<byte>)
    ensures ComposeDestination(lib, MakeDestination(lib, e)) == Ok(r)
    ensures Some(|r|) == MakeDestination(lib, e).addressByteLength
  {
    ComposeDestination(lib, MakeDestination(lib, e)).value
  }

  /** An endpoint whose address is written as the library prints it, or is a short name of single bytes. */
  predicate Carriable(lib: Lib, e: Endpoint) {
    && e.port < 65536
    && match (lib.parse4(e.address), lib.parse6(e.address))
       case (Some(b), _) => lib.print4(b) == e.address
       case (None, Some(w)) => lib.print6(w) == e.address
       case (None, None) => ShortName(e)
  }

  predicate ShortName(e: Endpoint) {
    e.port < 65536 && |e.address| < 256 && forall i :: 0 <= i < |e.address| ==> e.address[i] as int < 256
  }

  /** Reading a name back from its bytes. */
  lemma NameReads(s: string, port: nat, rest: seq<byte>)
    ensures var b := [DNS, |s| % 256] + CharBytes(s) + PortBytes(port) + rest;
            && ((forall i :: 0 <= i < |s| ==> s[i] as int < 256) <==> NameAt(b, 2, |s|) == s)
            && PortAt(b, |s| + 2) == port % 65536
  {
    var b := [DNS, |s| % 256] + CharBytes(s) + PortBytes(port) + rest;
    HiLo(port);
    var read := NameAt(b, 2, |s|);
    forall i | 0 <= i < |s|
      ensures read[i] == (s[i] as int % 256) as char
    {
      assert b[2..][i] == CharBytes(s)[i];
    }
    if forall i :: 0 <= i < |s| ==> s[i] as int < 256 {
      assert read == s;
    } else {
      var i :| 0 <= i < |s| && s[i] as int >= 256;
      assert read[i] != s[i];
    }
  }

  lemma FillAll(b: seq<byte>)
    ensures Fill(b, |b|) == b
  {
  }

  lemma ReadsIpv4(lib: Lib, e: Endpoint, rest: seq<byte>)
    requires LibOk(lib) && lib.parse4(e.address).Some?
    ensures InterpretDestination(lib, [IP_V4] + lib.parse4(e.address).value + PortBytes(e.port) + rest)
         == Ok(Destination(IP_V4, Endpoint(lib.print4(lib.parse4(e.address).value), e.port % 65536), Some(7)))
  {
    var v := lib.parse4(e.address).value;
    var b := [IP_V4] + v + PortBytes(e.port) + rest;
    assert b[1..5] == v;
    HiLo(e.port);
  }

  lemma ReadsIpv6(lib: Lib, e: Endpoint, rest: seq<byte>)
    requires LibOk(lib) && lib.parse6(e.address).Some?
    ensures InterpretDestination(lib, [IP_V6] + ToBytes(lib.parse6(e.address).value) + PortBytes(e.port) + rest)
         == Ok(Destination(IP_V6, Endpoint(lib.print6(lib.parse6(e.address).value), e.port % 65536), Some(19)))
  {
    var w := lib.parse6(e.address).value;
    var b := [IP_V6] + ToBytes(w) + PortBytes(e.port) + rest;
    assert b[1..17] == ToBytes(w);
    BytesOfWords(w);
    HiLo(e.port);
  }

  lemma ReadsName(lib: Lib, e: Endpoint, rest: seq<byte>)
    ensures var b := [DNS, |e.address| % 256] + CharBytes(e.address) + PortBytes(e.port) + rest;
            && (InterpretDestination(lib, b) == Ok(Destination(DNS, e, Some(|e.address| + 4))) <==> ShortName(e))
            && (InterpretDestination(lib, b).Ok? && InterpretDestination(lib, b).value.endpoint == e <==> ShortName(e))
  {
    var n := |e.address|;
    var b := [DNS, n % 256] + CharBytes(e.address) + PortBytes(e.port) + rest;
    assert b[0] == DNS && b[1] == n % 256;
    var read := NameAt(b, 2, n % 256);
    assert InterpretDestination(lib, b)
        == Ok(Destination(DNS, Endpoint(read, PortAt(b, n % 256 + 2)), Some(n % 256 + 4)));
    if n % 256 == n {
      NameReads(e.address, e.port, rest);
    } else {
      assert read != e.address;
    }
  }

  lemma EndpointBytesAre(lib: Lib, e: Endpoint)
    ensures Ok(EndpointBytes(lib, e)) == DestinationBytes(lib, MakeDestination(lib, e))
  {
    FillAll(DestinationBytes(lib, MakeDestination(lib, e)).value);
  }

  /** The bytes of an endpoint, as section 5 of RFC 1928 lays them out. */
  lemma EndpointOnTheWire(lib: Lib, e: Endpoint)
    requires e.port < 65536
    ensures var port: seq<byte> := [e.port / 256, e.port % 256];
            match (lib.parse4(e.address), lib.parse6(e.address))
            case (Some(b), _) => EndpointBytes(lib, e) == [1] + b + port
            case (None, Some(w)) => exists b: seq<byte> :: SixteenBytes(b, w) && EndpointBytes(lib, e) == [4] + b + port
            case (None, None) =>
              |e.address| < 256 ==> EndpointBytes(lib, e) == [3, |e.address|] + CharBytes(e.address) + port
  {
    EndpointBytesAre(lib, e);
    assert PortBytes(e.port) == [e.port / 256, e.port % 256];
    if lib.parse4(e.address).None? && lib.parse6(e.address).Some? {
      WordsBigEndian(lib.parse6(e.address).value);
    }
  }

  /** The eight words of an address, big-endian. */
  predicate SixteenBytes(b: seq<byte>, w: seq<nat>) {
    && |w| == 8 && |b| == 16
    && forall i :: 0 <= i < 8 ==> w[i] == 256 * b[2 * i] as int + b[2 * i + 1] as int
  }

  lemma {:induction false} WordsBigEndian(w: seq<nat>)
    requires forall i :: 0 <= i < |w| ==> w[i] < 65536
    ensures forall i :: 0 <= i < |w| ==> w[i] == 256 * ToBytes(w)[2 * i] as int + ToBytes(w)[2 * i + 1] as int
  {
    if w != [] {
      WordsBigEndian(Init(w));
      HiLo(Last(w));
    }
  }

  /**
   Destinations delimit themselves: whatever follows, the interpreter finds the endpoint and the number
   of bytes it takes, if and only if the endpoint is carriable.
   */
  lemma SelfDelimiting(lib: Lib, e: Endpoint, rest: seq<byte>)
    requires LibOk(lib)
    ensures var r := InterpretDestination(lib, EndpointBytes(lib, e) + rest);
            && (r == Ok(MakeDestination(lib, e)) <==> Carriable(lib, e))
            && (r.Ok? && r.value.endpoint == e <==> Carriable(lib, e))
  {
    EndpointBytesAre(lib, e);
    if lib.parse4(e.address).Some? {
      ReadsIpv4(lib, e, rest);
      SameEndpoint(lib.print4(lib.parse4(e.address).value), e);
    } else if lib.parse6(e.address).Some? {
      ReadsIpv6(lib, e, rest);
      SameEndpoint(lib.print6(lib.parse6(e.address).value), e);
    } else {
      ReadsName(lib, e, rest);
    }
  }

  lemma FillsAlike(all: seq<byte>, b: seq<byte>, n: nat)
    requires |all| == n
    requires forall i :: 0 <= i < n ==> all[i] == At(b, i)
    ensures Fill(all, n) == Fill(b, n)
  {
  }

  lemma PortRead(b: seq<byte>, i: nat)
    ensures PortBytes(PortAt(b, i)) == [At(b, i), At(b, i + 1)]
  {
    WordBytes(At(b, i), At(b, i + 1));
  }

  /**
   Conversely, composing what was interpreted gives the bytes that were read, with zeros for those
   that were missing.
   */
  lemma Recomposed(lib: Lib, b: seq<byte>)
    requires LibOk(lib) && InterpretDestination(lib, b).Ok?
    ensures var d := InterpretDestination(lib, b).value;
            ComposeDestination(lib, d) == Ok(Fill(b, Space(d)))
  {
    if b[0] == IP_V4 {
      Ipv4Recomposed(lib, b);
    } else if b[0] == IP_V6 {
      Ipv6Recomposed(lib, b);
    } else if |b| > 1 {
      NameRecomposed(b);
    }
  }

  lemma Ipv4Recomposed(lib: Lib, b: seq<byte>)
    requires LibOk(lib) && |b| >= 5 && b[0] == IP_V4
    ensures ComposeDestination(lib, InterpretDestination(lib, b).value) == Ok(Fill(b, 7))
  {
    PortRead(b, 5);
    FillsAlike([IP_V4] + b[1..5] + PortBytes(PortAt(b, 5)), b, 7);
  }

  lemma Ipv6Recomposed(lib: Lib, b: seq<byte>)
    requires LibOk(lib) && |b| >= 17 && b[0] == IP_V6
    ensures ComposeDestination(lib, InterpretDestination(lib, b).value) == Ok(Fill(b, 19))
  {
    PortRead(b, 17);
    WordsOfBytes(b[1..17], 8);
    FillsAlike([IP_V6] + b[1..17] + PortBytes(PortAt(b, 17)), b, 19);
  }

  lemma NameRecomposed(b: seq<byte>)
    requires |b| > 1 && b[0] == DNS
    ensures var n: nat := b[1];
            Fill([DNS, n % 256] + CharBytes(NameAt(b, 2, n)) + PortBytes(PortAt(b, n + 2)), n + 4) == Fill(b, n + 4)
  {
    var n: nat := b[1];
    PortRead(b, n + 2);
    FillsAlike([DNS, n % 256] + CharBytes(NameAt(b, 2, n)) + PortBytes(PortAt(b, n + 2)), b, n + 4);
  }
}
