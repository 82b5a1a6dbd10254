/** Shared value types: bytes, optional values, and results that may carry an error. */
module Basics {

  /** One element of a Uint8Array. */
  type byte = x: int | 0 <= x < 256

  datatype Option<+T> = None | Some(value: T)

  datatype Result<+T, +E> = Ok(value: T) | Err(error: E)

  /** An address and a port. */
  datatype Endpoint = Endpoint(address: string, port: nat)

  /** The byte that `n >> 8` leaves in a Uint8Array. */
  function Hi(n: nat): byte { n / 256 % 256 }

  /** n & 0xff. */
  function Lo(n: nat): byte { n % 256 }

  /** b[i] << 8 | b[i + 1]. */
  function U16(b: seq<byte>, i: nat): nat
    requires i + 1 < |b|
  {
    var hi: nat := b[i];
    256 * hi + b[i + 1]
  }

  function Zeros(n: nat): seq<byte> { seq(n, _ => 0) }

  lemma Modulo256(n: nat, q: nat, r: nat)
    requires n == 256 * q + r && r < 256
    ensures n / 256 == q && n % 256 == r
  {
  }

  lemma Modulo65536(n: nat, q: nat, r: nat)
    requires n == 65536 * q + r && r < 65536
    ensures n % 65536 == r
  {
  }

  lemma HiLo(n: nat)
    ensures 256 * Hi(n) + Lo(n) == n % 65536
  {
    var q := n / 256;
    Modulo65536(n, q / 256, 256 * Hi(n) + Lo(n));
  }

  lemma HiLoOfU16(h: byte, l: byte)
    ensures var n: nat := 256 * h + l; Hi(n) == h && Lo(n) == l
  {
    Modulo256(256 * h + l, h, l);
  }

  /** Whether an endpoint survives the loss of all but sixteen bits of its port. */
  lemma SameEndpoint(address: string, e: Endpoint)
    ensures Endpoint(address, e.port % 65536) == e <==> address == e.address && e.port < 65536
  {
  }

  // ---------------------------------------------------------------- sequences

  /** The bytes from i on, none when i is past the end. */
  function From(b: seq<byte>, i: nat): seq<byte> {
    if i <= |b| then b[i..] else []
  }

  function Last<T>(s: seq<T>): T
    requires s != []
  {
    s[|s| - 1]
  }

  function Init<T>(s: seq<T>): seq<T>
    requires s != []
  {
    s[..|s| - 1]
  }

  /** The character codes of a string as a Uint8Array stores them. */
  function CharBytes(s: string): (r: seq<byte>)
    ensures |r| == |s|
  {
    seq(|s|, i requires 0 <= i < |s| => s[i] as int % 256)
  }
}
