/** The messages built on SOCKS5 headers, and the objects that the two proxies exchange as JSON. */
module SocksMessages {
  import opened Basics
  import opened SocksHeaders

  // ---------------------------------------------------------------- validity of JSON objects

  /** A value that JSON.parse may return; numbers are integers. */
  datatype Json =
    | Null
    | Bool(b: bool)
    | Num(n: int)
    | String(s: string)
    | Arr(items: seq<Json>)
    | Obj(members: map<string, Json>)

  /** The validity predicates throw on null, whose type is 'object' too. */
  datatype Verdict = Valid | Invalid | Throws

  /** Of a property, which may be undefined. */
  function IsValidEndpoint(e: Option<Json>): Verdict {
    match e
    case Some(Null) => Throws
    case Some(Obj(m)) =>
      if "address" !in m || !m["address"].String? then Invalid
      else if "port" !in m || !m["port"].Num? || m["port"].n < 0 || m["port"].n > 65535 then Invalid
      else if |m| > 2 then Invalid
      else Valid
    case _ => Invalid
  }

  function Member(m: map<string, Json>, key: string): Option<Json> {
    if key in m then Some(m[key]) else None
  }

  function IsValidRequest(r: Json): Verdict {
    match r
    case Null => Throws
    case Obj(m) =>
      if "command" !in m || !m["command"].Num? then Invalid
      else if m["command"].n < TCP_CONNECT || m["command"].n > UDP_ASSOCIATE then Invalid
      else if IsValidEndpoint(Member(m, "endpoint")) != Valid then IsValidEndpoint(Member(m, "endpoint"))
      else if |m| > 2 then Invalid
      else Valid
    case _ => Invalid
  }

  predicate Truthy(j: Option<Json>) {
    match j
    case None => false
    case Some(Null) => false
    case Some(Bool(b)) => b
    case Some(Num(n)) => n != 0
    case Some(String(s)) => s != ""
    case _ => true
  }

  function IsValidResponse(r: Json): Verdict {
    match r
    case Null => Throws
    case Obj(m) =>
      var endpoint := Member(m, "endpoint");
      if "reply" !in m || !m["reply"].Num? || m["reply"].n < SUCCEEDED || m["reply"].n > RESERVED then Invalid
      else if m["reply"].n == SUCCEEDED && !Truthy(endpoint) then Invalid
      else if Truthy(endpoint) && IsValidEndpoint(endpoint) != Valid then IsValidEndpoint(endpoint)
      else if |m| > 2 then Invalid
      else Valid
    case _ => Invalid
  }

  function EndpointJson(e: Endpoint): Json {
    Obj(map["address" := String(e.address), "port" := Num(e.port)])
  }

  datatype Request = Request(command: nat, endpoint: Endpoint)

  function RequestJson(r: Request): Json {
    Obj(map["command" := Num(r.command), "endpoint" := EndpointJson(r.endpoint)])
  }

  datatype Response = Response(reply: nat, endpoint: Option<Endpoint>)

  /** JSON.stringify leaves out what is undefined. */
  function ResponseJson(r: Response): Json {
    Obj(if r.endpoint.None? then map["reply" := Num(r.reply)]
        else map["reply" := Num(r.reply), "endpoint" := EndpointJson(r.endpoint.value)])
  }

  /** What is read from a valid object. */
  function EndpointOf(e: Json): Endpoint
    requires IsValidEndpoint(Some(e)) == Valid
  {
    Endpoint(e.members["address"].s, e.members["port"].n)
  }

  function RequestOf(r: Json): Request
    requires IsValidRequest(r) == Valid
  {
    Request(r.members["command"].n, EndpointOf(r.members["endpoint"]))
  }

  function ResponseOf(r: Json): Response
    requires IsValidResponse(r) == Valid
  {
    var endpoint := Member(r.members, "endpoint");
    Response(r.members["reply"].n, if Truthy(endpoint) then Some(EndpointOf(endpoint.value)) else None)
  }

  lemma TwoMembers<T>(m: map<string, T>, a: string, b: string)
    requires a != b && a in m && b in m && |m| <= 2
    ensures m == map[a := m[a], b := m[b]]
  {
    var rest := m.Keys - {a, b};
    assert m.Keys == {a, b} + rest;
    assert |rest| == |m.Keys| - |{a, b}| == |m| - 2;
    assert m.Keys == {a, b};
  }

  lemma ValidEndpoints(j: Json)
    ensures IsValidEndpoint(Some(j)) == Valid <==> exists e: Endpoint :: e.port < 65536 && j == EndpointJson(e)
    ensures IsValidEndpoint(Some(j)) == Valid ==> j == EndpointJson(EndpointOf(j)) && EndpointOf(j).port < 65536
  {
    if IsValidEndpoint(Some(j)) == Valid {
      TwoMembers(j.members, "address", "port");
      assert j == EndpointJson(EndpointOf(j));
    }
  }

  /** The valid requests are exactly the JSON forms of requests: nothing missing, nothing extra, all in range. */
  lemma ValidRequests(j: Json)
    ensures IsValidRequest(j) == Valid <==>
            exists r: Request ::
              1 <= r.command <= 3 && r.endpoint.port < 65536 && j == RequestJson(r)
    ensures IsValidRequest(j) == Valid ==> j == RequestJson(RequestOf(j))
  {
    if IsValidRequest(j) == Valid {
      TwoMembers(j.members, "command", "endpoint");
      ValidEndpoints(j.members["endpoint"]);
      assert j == RequestJson(RequestOf(j));
    }
    forall r: Request | TCP_CONNECT <= r.command <= UDP_ASSOCIATE && r.endpoint.port < 65536 && j == RequestJson(r)
      ensures IsValidRequest(j) == Valid
    {
      RequestIsValid(r);
    }
  }

  lemma EndpointIsValid(e: Endpoint)
    ensures IsValidEndpoint(Some(EndpointJson(e))) == if e.port < 65536 then Valid else Invalid
    ensures e.port < 65536 ==> EndpointOf(EndpointJson(e)) == e
  {
  }

  lemma RequestIsValid(r: Request)
    ensures IsValidRequest(RequestJson(r)) ==
            if TCP_CONNECT <= r.command <= UDP_ASSOCIATE && r.endpoint.port < 65536 then Valid else Invalid
    ensures IsValidRequest(RequestJson(r)) == Valid ==> RequestOf(RequestJson(r)) == r
  {
    EndpointIsValid(r.endpoint);
  }

  /** The check of a request throws exactly on null, and on an object that is right up to an endpoint of null. */
  predicate NullInRequest(j: Json) {
    || j.Null?
    || (j.Obj? && Member(j.members, "endpoint") == Some(Null) &&
        match Member(j.members, "command")
        case Some(Num(n)) => TCP_CONNECT <= n <= UDP_ASSOCIATE
        case _ => false)
  }

  lemma RequestThrows(j: Json)
    ensures IsValidRequest(j) == Throws <==> NullInRequest(j)
  {
  }

  lemma ResponseIsValid(r: Response)
    ensures IsValidResponse(ResponseJson(r)) ==
            if r.reply <= RESERVED && (if r.endpoint.None? then r.reply != SUCCEEDED else r.endpoint.value.port < 65536)
            then Valid else Invalid
    ensures IsValidResponse(ResponseJson(r)) == Valid ==> ResponseOf(ResponseJson(r)) == r
  {
    if r.endpoint.Some? {
      EndpointIsValid(r.endpoint.value);
    }
  }

  /** The valid successes are exactly the JSON forms of successes with an endpoint in range. */
  lemma ValidSuccesses(j: Json)
    ensures IsValidResponse(j) == Valid && ResponseOf(j).reply == SUCCEEDED <==>
            exists e: Endpoint :: e.port < 65536 && j == ResponseJson(Response(0, Some(e)))
    ensures IsValidResponse(j) == Valid && ResponseOf(j).endpoint.Some? ==> j == ResponseJson(ResponseOf(j))
  {
    if IsValidResponse(j) == Valid && ResponseOf(j).endpoint.Some? {
      TwoMembers(j.members, "reply", "endpoint");
      ValidEndpoints(j.members["endpoint"]);
      assert j == ResponseJson(ResponseOf(j));
    }
    forall e: Endpoint | e.port < 65536 && j == ResponseJson(Response(0, Some(e)))
      ensures IsValidResponse(j) == Valid && ResponseOf(j).reply == SUCCEEDED
    {
      ResponseIsValid(Response(0, Some(e)));
    }
  }

  // ---------------------------------------------------------------- requests and responses

  function ComposeRequest(lib: Lib, r: Request): seq<byte> {
    [VERSION5, r.command % 256, 0] + EndpointBytes(lib, r.endpoint)
  }

  function InterpretRequest(lib: Lib, b: seq<byte>): Result<Request, Error> {
    if |b| < 9 then Err(TooShort)
    else if b[0] != VERSION5 then Err(WrongVersion)
    else if b[1] != TCP_CONNECT && b[1] != UDP_ASSOCIATE then Err(UnsupportedCommand)
    else
      match InterpretDestination(lib, b[3..])
      case Err(e) => Err(e)
      case Ok(d) =>
        var r := Request(b[1], d.endpoint);
        if IsValidRequest(RequestJson(r)) != Valid then Err(InvalidObject) else Ok(r)
  }

  /** The object built from the bytes is never invalid, so these checks decide. */
  lemma AcceptedRequests(lib: Lib, b: seq<byte>)
    ensures InterpretRequest(lib, b).Ok? <==>
            && |b| >= 9 && b[0] == 5 && b[1] in {1, 3}
            && InterpretDestination(lib, b[3..]).Ok?
    ensures InterpretRequest(lib, b).Ok? ==>
            InterpretRequest(lib, b).value == Request(b[1], InterpretDestination(lib, b[3..]).value.endpoint)
  {
    if |b| >= 9 && InterpretDestination(lib, b[3..]).Ok? {
      RequestIsValid(Request(b[1], InterpretDestination(lib, b[3..]).value.endpoint));
    }
  }

  /**
   A request survives, whatever follows it, if and only if it is a CONNECT or UDP_ASSOCIATE for a carriable
   endpoint and makes up the nine bytes demanded, which names of fewer than two characters do not on their own.
   */
  lemma RequestRoundTrip(lib: Lib, r: Request, rest: seq<byte>)
    requires LibOk(lib)
    ensures InterpretRequest(lib, ComposeRequest(lib, r) + rest) == Ok(r) <==>
            && (r.command == 1 || r.command == 3) && Carriable(lib, r.endpoint)
            && |EndpointBytes(lib, r.endpoint)| + |rest| >= 6
  {
    var b := ComposeRequest(lib, r) + rest;
    assert b[3..] == EndpointBytes(lib, r.endpoint) + rest;
    SelfDelimiting(lib, r.endpoint, rest);
    AcceptedRequests(lib, b);
  }

  const FAKE_ENDPOINT := Endpoint("0.0.0.0", 0)

  function EndpointSent(r: Response): Endpoint {
    if r.endpoint.Some? then r.endpoint.value else FAKE_ENDPOINT
  }

  function ComposeResponse(lib: Lib, r: Response): seq<byte> {
    [VERSION5, r.reply % 256, 0] + EndpointBytes(lib, EndpointSent(r))
  }

  function InterpretResponse(lib: Lib, b: seq<byte>): Result<Response, Error> {
    if b == [] || b[0] != VERSION5 then Err(WrongVersion)
    else
      match InterpretDestination(lib, From(b, 3))
      case Err(e) => Err(e)
      case Ok(d) =>
        var r := Response(At(b, 1), Some(d.endpoint));
        if IsValidResponse(ResponseJson(r)) != Valid then Err(InvalidObject) else Ok(r)
  }

  /** Of the object built from the bytes, only the reply code can be invalid. */
  lemma AcceptedResponses(lib: Lib, b: seq<byte>)
    ensures InterpretResponse(lib, b).Ok? <==>
            b != [] && b[0] == 5 && At(b, 1) <= 9 && InterpretDestination(lib, From(b, 3)).Ok?
    ensures InterpretResponse(lib, b).Ok? ==>
            InterpretResponse(lib, b).value
              == Response(At(b, 1), Some(InterpretDestination(lib, From(b, 3)).value.endpoint))
  {
    if InterpretDestination(lib, From(b, 3)).Ok? {
      ResponseIsValid(Response(At(b, 1), Some(InterpretDestination(lib, From(b, 3)).value.endpoint)));
    }
  }

  lemma ResponseBytesRead(lib: Lib, reply: nat, e: Endpoint, rest: seq<byte>)
    requires LibOk(lib)
    ensures InterpretResponse(lib, [VERSION5, reply % 256, 0] + EndpointBytes(lib, e) + rest)
         == Ok(Response(reply, Some(e)))
       <==> reply <= RESERVED && Carriable(lib, e)
  {
    var tail := EndpointBytes(lib, e) + rest;
    var b := [VERSION5, reply % 256, 0] + tail;
    assert [VERSION5, reply % 256, 0] + EndpointBytes(lib, e) + rest == b;
    assert From(b, 3) == tail && At(b, 1) == reply % 256;
    SelfDelimiting(lib, e, rest);
    AcceptedResponses(lib, b);
    SameCode(reply);
  }

  lemma SameCode(reply: nat)
    ensures reply % 256 == reply && reply % 256 <= RESERVED <==> reply <= RESERVED
  {
  }

  /**
   A response survives, the missing endpoint as 0.0.0.0:0, if and only if its code is defined and its endpoint
   carriable.
   */
  lemma ResponseRoundTrip(lib: Lib, r: Response, rest: seq<byte>)
    requires LibOk(lib)
    ensures InterpretResponse(lib, ComposeResponse(lib, r) + rest) == Ok(Response(r.reply, Some(EndpointSent(r))))
       <==> r.reply <= 9 && Carriable(lib, EndpointSent(r))
  {
    ResponseBytesRead(lib, r.reply, EndpointSent(r), rest);
  }

  /** A message about an IPv4 endpoint, as sections 4 and 6 of RFC 1928 lay it out. */
  lemma MessageOnTheWire(lib: Lib, code: byte, e: Endpoint)
    requires e.port < 65536 && lib.parse4(e.address).Some?
    ensures var b := [5, code, 0, 1] + lib.parse4(e.address).value + [e.port / 256, e.port % 256];
            ComposeRequest(lib, Request(code, e)) == b && ComposeResponse(lib, Response(code, Some(e))) == b
  {
    EndpointOnTheWire(lib, e);
  }

  // ---------------------------------------------------------------- UDP messages

  datatype UdpMessage = UdpMessage(frag: byte, destination: Destination, data: seq<byte>)

  function InterpretUdpMessage(lib: Lib, b: seq<byte>): Result<UdpMessage, Error> {
    if |b| < 10 then Err(TooShort)
    else
      match InterpretDestination(lib, b[3..])
      case Err(e) => Err(e)
      case Ok(d) =>
        if b[2] != 0 then Err(Fragmented)
        else Ok(UdpMessage(b[2], d, From(b, if d.addressByteLength.Some? then 3 + d.addressByteLength.value else 0)))
  }

  /** Exactly which datagrams are accepted, and what is read from them. */
  lemma AcceptedDatagrams(lib: Lib, b: seq<byte>)
    ensures InterpretUdpMessage(lib, b).Ok? <==> |b| >= 10 && b[2] == 0 && InterpretDestination(lib, b[3..]).Ok?
    ensures InterpretUdpMessage(lib, b).Ok? ==>
              var m, n := InterpretUdpMessage(lib, b).value, InterpretDestination(lib, b[3..]).value.addressByteLength;
              && m.destination == InterpretDestination(lib, b[3..]).value
              && n.Some? && m.data == if 3 + n.value <= |b| then b[3 + n.value..] else []
  {
    assert |b| >= 10 ==> |b[3..]| > 1;
  }

  /**
   The payload of a datagram is recovered whole, if and only if it is not a fragment, its endpoint is carriable
   and it has ten bytes.
   */
  lemma UdpPayload(lib: Lib, reserved: seq<byte>, frag: byte, e: Endpoint, data: seq<byte>)
    requires LibOk(lib) && |reserved| == 2
    ensures InterpretUdpMessage(lib, reserved + [frag] + EndpointBytes(lib, e) + data)
         == Ok(UdpMessage(0, MakeDestination(lib, e), data))
       <==> frag == 0 && Carriable(lib, e) && |EndpointBytes(lib, e)| + |data| >= 7
  {
    var b := reserved + [frag] + EndpointBytes(lib, e) + data;
    assert b[3..] == EndpointBytes(lib, e) + data;
    SelfDelimiting(lib, e, data);
    assert From(b, 3 + |EndpointBytes(lib, e)|) == data;
  }

  // ---------------------------------------------------------------- authentication

  function ComposeAuthHandshake(auths: seq<byte>): Result<seq<byte>, Error> {
    if auths == [] then Err(NoMethods) else Ok([VERSION5, |auths| % 256] + auths)
  }

  /** The methods offered; those past the end of the buffer are undefined. */
  function MethodsAt(b: seq<byte>, n: nat): (r: seq<Option<byte>>)
    ensures |r| == n
  {
    seq(n, i requires 0 <= i < n => if 2 + i < |b| then Some(b[2 + i]) else None)
  }

  function InterpretAuthHandshake(b: seq<byte>): Result<seq<Option<byte>>, Error> {
    if b == [] || b[0] != VERSION5 then Err(WrongVersion)
    else
      var methods := MethodsAt(b, At(b, 1));
      if Some(NOAUTH) !in methods then Err(NeedsAuthentication) else Ok(methods)
  }

  /** A handshake is accepted if and only if a method that it counts, and that is there, is 0: no authentication. */
  lemma AcceptedHandshakes(b: seq<byte>)
    ensures InterpretAuthHandshake(b).Ok? <==>
            |b| >= 2 && b[0] == 5 && exists i :: 2 <= i < |b| && i < 2 + b[1] as int && b[i] == 0
  {
    var methods := MethodsAt(b, At(b, 1));
    forall i | 2 <= i < |b| && i < 2 + At(b, 1) as int && b[i] == 0
      ensures Some(0) in methods
    {
      assert methods[i - 2] == Some(0);
    }
    if Some(0) in methods {
      var j :| 0 <= j < |methods| && methods[j] == Some(0);
      assert b[2 + j] == 0;
    }
  }

  function Defined(auths: seq<byte>): seq<Option<byte>> {
    seq(|auths|, i requires 0 <= i < |auths| => Some(auths[i]))
  }

  /** The offer is understood if and only if it includes "no authentication" and counts at most 255 methods. */
  lemma AuthRoundTrip(auths: seq<byte>)
    ensures var b := ComposeAuthHandshake(auths);
            b.Ok? && InterpretAuthHandshake(b.value) == Ok(Defined(auths)) <==> NOAUTH in auths && |auths| < 256
  {
    if auths != [] {
      OfferedMethods(auths);
      if NOAUTH in auths {
        var i :| 0 <= i < |auths| && auths[i] == NOAUTH;
        assert Defined(auths)[i] == Some(NOAUTH);
      }
    }
  }

  lemma OfferedMethods(auths: seq<byte>)
    requires auths != []
    ensures MethodsAt(ComposeAuthHandshake(auths).value, |auths|) == Defined(auths)
  {
    var b := ComposeAuthHandshake(auths).value;
    forall i | 0 <= i < |auths|
      ensures MethodsAt(b, |auths|)[i] == Defined(auths)[i]
    {
      assert b[2..][i] == auths[i];
    }
  }
}
