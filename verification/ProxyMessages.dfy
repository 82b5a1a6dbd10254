/** What the two proxy sessions share: the libraries they use, and streams of buffers as channel messages. */
module ProxyMessages {
  import opened Basics
  import opened PoolChannels
  import opened SocksHeaders
  import opened SocksMessages

  datatype JsonLib = JsonLib(print_: Json -> string, parse: string -> Option<Json>)

  /** The libraries, and the addresses to which rtc-to-net refuses to connect. */
  datatype Env = Env(lib: Lib, json: JsonLib, refused: string -> bool)

  /** What is assumed of JSON: it reads back what it prints, which is never empty. */
  ghost predicate JsonOk(json: JsonLib) {
    forall j: Json :: json.parse(json.print_(j)) == Some(j) && json.print_(j) != ""
  }

  function Buffers(bs: seq<seq<byte>>): seq<Data> {
    seq(|bs|, i requires 0 <= i < |bs| => Buffer(bs[i]))
  }

  lemma BuffersOfConcat(a: seq<seq<byte>>, b: seq<seq<byte>>)
    ensures Buffers(a + b) == Buffers(a) + Buffers(b)
  {
  }

  /** The buffers among some messages. */
  function BuffersIn(ds: seq<Data>): seq<seq<byte>> {
    if ds == [] then []
    else
      var d := ds[|ds| - 1];
      BuffersIn(ds[..|ds| - 1]) + if d.Buffer? then [d.bytes] else []
  }

  lemma BuffersInMore(ds: seq<Data>, d: Data)
    ensures BuffersIn(ds + [d]) == BuffersIn(ds) + if d.Buffer? then [d.bytes] else []
  {
    assert (ds + [d])[..|ds|] == ds;
  }
}
