/** The SOCKS5 readers and writers as they run, over the bytes of a buffer. */
module SocksBuffers {
  import opened Basics
  import opened SocksHeaders
  import opened SocksMessages

  /** The part of a buffer that starts at `from`, which may lie past its end. */
  ghost function View(data: array<byte>, from: nat): seq<byte>
    reads data
  {
    From(data[..], from)
  }

  method Read(data: array<byte>, from: nat, i: nat) returns (x: byte)
    ensures x == At(View(data, from), i)
  {
    return if from + i < data.Length then data[from + i] else 0;
  }

  method ReadPort(data: array<byte>, from: nat, i: nat) returns (port: nat)
    ensures port == PortAt(View(data, from), i)
  {
    var hi := Read(data, from, i);
    var lo := Read(data, from, i + 1);
    return U16([hi, lo], 0);
  }

  method ReadName(data: array<byte>, from: nat, i: nat, n: nat) returns (address: string)
    ensures address == NameAt(View(data, from), i, n)
  {
    address := "";
    for k := 0 to n
      invariant address == NameAt(View(data, from), i, k)
    {
      var x := Read(data, from, i + k);
      address := address + [x as char];
    }
  }

  method InterpretIpv6Address(lib: Lib, b: seq<byte>) returns (address: string)
    requires |b| == 16
    ensures address == lib.print6(ToWords(b, 8))
  {
    var parts: seq<nat> := [];
    ghost var n := 0;
    var i := 0;
    while i < 16
      invariant i == 2 * n && n <= 8 && parts == ToWords(b[..i], n)
    {
      BytesMore(b[..i], n, b[i], b[i + 1]);
      assert b[..i + 2] == b[..i] + [b[i], b[i + 1]];
      parts := parts + [U16(b, i)];
      i, n := i + 2, n + 1;
    }
    assert b[..16] == b;
    return lib.print6(parts);
  }

  method InterpretDestinationFrom(lib: Lib, data: array<byte>, from: nat) returns (r: Result<Destination, Error>)
    ensures r == InterpretDestination(lib, View(data, from))
  {
    if from >= data.Length {
      return Err(UnsupportedAddressType);
    }
    var size := data.Length - from;
    if data[from] == IP_V4 {
      if size < 5 {
        return Err(WrongAddressSize);
      }
      var address := lib.print4(data[from + 1..from + 5]);
      assert data[from + 1..from + 5] == View(data, from)[1..5];
      var port := ReadPort(data, from, 5);
      return Ok(Destination(IP_V4, Endpoint(address, port), Some(7)));
    } else if data[from] == DNS {
      if size == 1 {
        return Ok(Destination(DNS, Endpoint("", 0), None));
      }
      var n: nat := data[from + 1];
      var address := ReadName(data, from, 2, n);
      var port := ReadPort(data, from, n + 2);
      return Ok(Destination(DNS, Endpoint(address, port), Some(n + 4)));
    } else if data[from] == IP_V6 {
      if size < 17 {
        return Err(WrongAddressSize);
      }
      var address := InterpretIpv6Address(lib, data[from + 1..from + 17]);
      assert data[from + 1..from + 17] == View(data, from)[1..17];
      var port := ReadPort(data, from, 17);
      return Ok(Destination(IP_V6, Endpoint(address, port), Some(19)));
    }
    return Err(UnsupportedAddressType);
  }

  /** Stores bytes one by one from `from` on; those past the end are lost. */
  method Store(address: array<byte>, from: nat, b: seq<byte>)
    modifies address
    ensures forall i :: 0 <= i < address.Length ==>
              address[i] == if from <= i < from + |b| then b[i - from] else old(address[i])
  {
    for k := 0 to |b|
      invariant forall i :: 0 <= i < address.Length ==>
                  address[i] == if from <= i < from + k then b[i - from] else old(address[i])
    {
      if from + k < address.Length {
        address[from + k] := b[k];
      }
    }
  }

  /** Three parts stored one after the other fill the array. */
  method StoreParts(address: array<byte>, head: seq<byte>, middle: seq<byte>, tail: seq<byte>)
    requires forall i :: 0 <= i < address.Length ==> address[i] == 0
    modifies address
    ensures address[..] == Fill(head + middle + tail, address.Length)
  {
    Store(address, 0, head);
    Store(address, |head|, middle);
    Store(address, |head| + |middle|, tail);
    var all := head + middle + tail;
    forall i | 0 <= i < address.Length
      ensures address[i] == At(all, i)
    {
    }
  }

  method ComposeDestinationBuffer(lib: Lib, d: Destination) returns (r: Result<array<byte>, Error>)
    ensures r.Ok? ==> fresh(r.value) && ComposeDestination(lib, d) == Ok(r.value[..])
    ensures r.Err? ==> ComposeDestination(lib, d) == Err(r.error)
  {
    var address := new byte[if d.addressByteLength.Some? then d.addressByteLength.value else 0](_ => 0);
    var port := PortBytes(d.endpoint.port);
    if d.addressType == IP_V4 {
      var ipv4 := lib.parse4(d.endpoint.address);
      if ipv4.None? {
        return Err(CannotParse);
      }
      if address.Length < 5 {
        return Err(OutOfRange);
      }
      StoreParts(address, [IP_V4], ipv4.value, port);
    } else if d.addressType == DNS {
      StoreParts(address, [DNS, |d.endpoint.address| % 256], CharBytes(d.endpoint.address), port);
    } else if d.addressType == IP_V6 {
      var ipv6 := lib.parse6(d.endpoint.address);
      if ipv6.None? {
        return Err(CannotParse);
      }
      if address.Length < 17 {
        return Err(OutOfRange);
      }
      StoreParts(address, [IP_V6], ToBytes(ipv6.value), port);
    } else {
      return Err(UnsupportedAddressType);
    }
    return Ok(address);
  }

  method InterpretRequestBuffer(lib: Lib, data: array<byte>) returns (r: Result<Request, Error>)
    ensures r == InterpretRequest(lib, data[..])
  {
    if data.Length < 9 {
      return Err(TooShort);
    }
    if data[0] != VERSION5 {
      return Err(WrongVersion);
    }
    if data[1] != TCP_CONNECT && data[1] != UDP_ASSOCIATE {
      return Err(UnsupportedCommand);
    }
    var destination := InterpretDestinationFrom(lib, data, 3);
    if destination.Err? {
      return Err(destination.error);
    }
    var request := Request(data[1], destination.value.endpoint);
    if IsValidRequest(RequestJson(request)) != Valid {
      return Err(InvalidObject);
    }
    return Ok(request);
  }

  method ComposeRequestBuffer(lib: Lib, request: Request) returns (bytes: array<byte>)
    ensures fresh(bytes) && bytes[..] == ComposeRequest(lib, request)
  {
    bytes := ComposeHeaderBuffer(lib, request.command, request.endpoint);
  }

  method ComposeResponseBuffer(lib: Lib, response: Response) returns (bytes: array<byte>)
    ensures fresh(bytes) && bytes[..] == ComposeResponse(lib, response)
  {
    bytes := ComposeHeaderBuffer(lib, response.reply, EndpointSent(response));
  }

  method ComposeHeaderBuffer(lib: Lib, code: nat, endpoint: Endpoint) returns (bytes: array<byte>)
    ensures fresh(bytes) && bytes[..] == [VERSION5, code % 256, 0] + EndpointBytes(lib, endpoint)
  {
    var d := MakeDestination(lib, endpoint);
    var expected := EndpointBytes(lib, endpoint);
    var destination := ComposeDestinationBuffer(lib, d);
    bytes := new byte[3 + destination.value.Length](_ => 0);
    bytes[0], bytes[1], bytes[2] := VERSION5, code % 256, 0;
    Store(bytes, 3, destination.value[..]);
    assert bytes[..] == [VERSION5, code % 256, 0] + expected;
  }

  method InterpretUdpMessageBuffer(lib: Lib, data: array<byte>) returns (r: Result<UdpMessage, Error>)
    ensures r == InterpretUdpMessage(lib, data[..])
  {
    if data.Length < 10 {
      return Err(TooShort);
    }
    var destination := InterpretDestinationFrom(lib, data, 3);
    if destination.Err? {
      return Err(destination.error);
    }
    var length := destination.value.addressByteLength;
    var payload := From(data[..], if length.Some? then 3 + length.value else 0);
    if data[2] != 0 {
      return Err(Fragmented);
    }
    return Ok(UdpMessage(data[2], destination.value, payload));
  }

  method InterpretAuthHandshakeBuffer(data: array<byte>) returns (r: Result<seq<Option<byte>>, Error>)
    ensures r == InterpretAuthHandshake(data[..])
  {
    if data.Length == 0 || data[0] != VERSION5 {
      return Err(WrongVersion);
    }
    var n: nat := if data.Length > 1 then data[1] else 0;
    var methods: seq<Option<byte>> := [];
    for i := 0 to n
      invariant methods == MethodsAt(data[..], i)
    {
      methods := methods + [if 2 + i < data.Length then Some(data[2 + i]) else None];
    }
    if Some(NOAUTH) !in methods {
      return Err(NeedsAuthentication);
    }
    return Ok(methods);
  }
}
