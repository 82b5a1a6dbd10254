/** The Caesar transformer: it shifts every byte of a buffer, in place. */
module Caesar {
  import opened Basics

  /** shift_ is undefined until a key is set; arithmetic with it then gives NaN, which a Uint8Array stores as 0. */
  type Shift = Option<byte>

  function TransformByte(shift: Shift, i: byte): byte {
    match shift
    case None => 0
    case Some(s) => (i + s) % 256
  }

  function RestoreByte(shift: Shift, i: byte): byte {
    match shift
    case None => 0
    case Some(s) =>
      var d: int := i - s;
      (if d < 0 then d + 256 else d) % 256
  }

  function Map(f: byte -> byte, b: seq<byte>): (r: seq<byte>)
    ensures |r| == |b|
  {
    seq(|b|, i requires 0 <= i < |b| => f(b[i]))
  }

  function Transform(shift: Shift, b: seq<byte>): seq<byte> {
    Map(i => TransformByte(shift, i), b)
  }

  function Restore(shift: Shift, b: seq<byte>): seq<byte> {
    Map(i => RestoreByte(shift, i), b)
  }

  lemma BytesInverse(shift: Shift, i: byte)
    ensures RestoreByte(shift, TransformByte(shift, i)) == i <==> shift.Some? || i == 0
    ensures TransformByte(shift, RestoreByte(shift, i)) == i <==> shift.Some? || i == 0
  {
    if shift.Some? {
      var s: int := shift.value;
      assert TransformByte(shift, i) == if i + s < 256 then i + s else i + s - 256;
      assert RestoreByte(shift, i) == if i < s then i - s + 256 else i - s;
    }
  }

  /** With a key, every byte is moved up by it, around at 256. */
  lemma Shifted(s: byte, b: seq<byte>, i: nat)
    requires i < |b|
    ensures Transform(Some(s), b)[i] as int - b[i] as int - s as int in {0, -256}
  {
  }

  predicate AllZero(b: seq<byte>) {
    forall i :: 0 <= i < |b| ==> b[i] == 0
  }

  /**
   Each operation undoes the other, on any buffer, if and only if a key has been set (or there is nothing to
   lose).
   */
  lemma Inverse(shift: Shift, b: seq<byte>)
    ensures Restore(shift, Transform(shift, b)) == b <==> shift.Some? || AllZero(b)
    ensures Transform(shift, Restore(shift, b)) == b <==> shift.Some? || AllZero(b)
  {
    forall i | 0 <= i < |b|
      ensures Restore(shift, Transform(shift, b))[i] == b[i] <==> shift.Some? || b[i] == 0
      ensures Transform(shift, Restore(shift, b))[i] == b[i] <==> shift.Some? || b[i] == 0
    {
      BytesInverse(shift, b[i]);
    }
    if shift.Some? || AllZero(b) {
      assert Restore(shift, Transform(shift, b)) == b;
      assert Transform(shift, Restore(shift, b)) == b;
    }
  }

  datatype KeyError = NotOneByte

  class CaesarCipher {
    var shift_: Shift

    constructor ()
      ensures shift_ == None
    {
      shift_ := None;
    }

    method SetKey(key: array<byte>) returns (r: Result<(), KeyError>)
      modifies this
      ensures r.Ok? <==> key.Length == 1
      ensures shift_ == if r.Ok? then Some(key[0]) else old(shift_)
    {
      if key.Length != 1 {
        return Err(NotOneByte);
      }
      shift_ := Some(key[0]);
      return Ok(());
    }

    method TransformInPlace(buffer: array<byte>)
      modifies buffer
      ensures buffer[..] == Transform(shift_, old(buffer[..]))
    {
      var shift := shift_;
      MapInPlace(buffer, i => TransformByte(shift, i));
    }

    method RestoreInPlace(buffer: array<byte>)
      modifies buffer
      ensures buffer[..] == Restore(shift_, old(buffer[..]))
    {
      var shift := shift_;
      MapInPlace(buffer, i => RestoreByte(shift, i));
    }

    method MapInPlace(bytes: array<byte>, mapper: byte -> byte)
      modifies bytes
      ensures bytes[..] == Map(mapper, old(bytes[..]))
    {
      for i := 0 to bytes.Length
        invariant forall k :: 0 <= k < i ==> bytes[k] == mapper(old(bytes[k]))
        invariant forall k :: i <= k < bytes.Length ==> bytes[k] == old(bytes[k])
      {
        bytes[i] := mapper(bytes[i]);
      }
    }
  }
}
