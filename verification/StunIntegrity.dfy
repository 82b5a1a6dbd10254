/**
 MESSAGE-INTEGRITY (RFC 5389, section 15.4): a keyed hash over the message up to the
 attribute that carries it. The hash itself is a parameter with twenty-byte results.
 */
module StunIntegrity {
  import opened Basics
  import opened StunMessages
  import opened StunBuffers

  const MESSAGE_INTEGRITY := 0x08

  type Hmac = seq<byte> -> seq<byte>

  ghost predicate TwentyBytes(hmac: Hmac) {
    forall b :: |hmac(b)| == 20
  }

  /** computeHash: over all but the last 24 bytes, which are the attribute itself. */
  function ComputeHash(hmac: Hmac, b: seq<byte>): seq<byte>
    requires |b| >= 24
  {
    hmac(b[..|b| - 24])
  }

  function WithIntegrity(m: Message, hash: seq<byte>): Message {
    m.(attributes := m.attributes + [Attribute(MESSAGE_INTEGRITY, Some(hash))])
  }

  /** The last attribute is a MESSAGE-INTEGRITY that agrees with the bytes before it. */
  predicate Signed(hmac: Hmac, b: seq<byte>) {
    |b| >= 24 && b[|b| - 24..|b| - 20] == [0, 8, 0, 20] && b[|b| - 20..] == hmac(b[..|b| - 24])
  }

  /** The bytes of a message that ends in a MESSAGE-INTEGRITY attribute. */
  lemma PrintedWithIntegrity(m: Message, v: seq<byte>)
    requires |v| == 20
    ensures var body := FormatAttributes(m.attributes);
            FormatMessage(WithIntegrity(m, v)) ==
            if 8 + |m.transactionId| > 44 + |body| then Err(OutOfRange)
            else Ok(Front(m) + [0, 8, 0, 20] + v)
  {
    var a := Attribute(MESSAGE_INTEGRITY, Some(v));
    FormatAttributesSnoc(m.attributes, a);
    assert FormatAttribute(a) == [0, 8, 0, 20] + v;
    var body := FormatAttributes(m.attributes);
    var h := FormatHeader(m, |body| + 24);
    assert FormatHeader(WithIntegrity(m, v), |body| + 24) == h;
    Regroup(h, body, [0, 8, 0, 20], v);
  }

  lemma Regroup(a: seq<byte>, b: seq<byte>, c: seq<byte>, d: seq<byte>)
    ensures a + (b + (c + d)) == a + b + c + d
  {
  }

  lemma SplitLast(b: seq<byte>, front: seq<byte>, v: seq<byte>, w: seq<byte>)
    requires b == front + [0, 8, 0, 20] + v && |v| == 20 && |w| == 20
    ensures |b| >= 24 && b[..|b| - 24] == front && b[|b| - 24..|b| - 20] == [0, 8, 0, 20] && b[|b| - 20..] == v
    ensures Put(b, |b| - 20, w) == front + [0, 8, 0, 20] + w
  {
  }

  /**
   Copying the hash over the last twenty bytes is the same as having printed it there, and does not change what
   is hashed.
   */
  lemma CopyHash(m: Message, hmac: Hmac, b: seq<byte>)
    requires FormatMessage(WithIntegrity(m, Zeros(20))) == Ok(b) && TwentyBytes(hmac)
    ensures |b| >= 24
    ensures var hash := ComputeHash(hmac, b);
            var c := Put(b, |b| - 20, hash);
            && FormatMessage(WithIntegrity(m, hash)) == Ok(c)
            && ComputeHash(hmac, c) == hash && Signed(hmac, c)
  {
    var front := Front(m);
    PrintedWithIntegrity(m, Zeros(20));
    HashPut(front, b, hmac);
    PrintedWithIntegrity(m, ComputeHash(hmac, b));
  }

  /** Header and attributes in front of the MESSAGE-INTEGRITY attribute: what is hashed. */
  function Front(m: Message): seq<byte> {
    var body := FormatAttributes(m.attributes);
    FormatHeader(m, |body| + 24) + body
  }

  lemma HashPut(front: seq<byte>, b: seq<byte>, hmac: Hmac)
    requires b == front + [0, 8, 0, 20] + Zeros(20) && TwentyBytes(hmac)
    ensures |b| >= 24
    ensures var hash := ComputeHash(hmac, b);
            var c := Put(b, |b| - 20, hash);
            && c == front + [0, 8, 0, 20] + hash
            && ComputeHash(hmac, c) == hash && Signed(hmac, c)
  {
    SplitLast(b, front, Zeros(20), Zeros(20));
    var hash := ComputeHash(hmac, b);
    SplitLast(b, front, Zeros(20), hash);
    SplitLast(Put(b, |b| - 20, hash), front, hash, hash);
  }

  /** The bytes of m with the attribute appended; m.attributes grows by it, with a value that stays zero. */
  function FormatWithIntegrity(m: Message, hmac: Hmac): Result<seq<byte>, StunMessages.Error> {
    match FormatMessage(WithIntegrity(m, Zeros(20)))
    case Err(e) => Err(e)
    case Ok(b) =>
      if |b| < 24 then Err(OutOfRange)
      else
        var hash := ComputeHash(hmac, b);
        if |hash| != 20 then Err(OutOfRange) else Ok(Put(b, |b| - 20, hash))
  }

  /**
   formatStunMessageWithIntegrity: print with a zero hash, then copy the hash over it. `after` is the message
   object that was passed in, as the call leaves it.
   */
  method FormatStunMessageWithIntegrity(m: Message, hmac: Hmac)
    returns (r: Result<array<byte>, StunMessages.Error>, after: Message)
    requires TwentyBytes(hmac)
    ensures r.Ok? ==> fresh(r.value) && FormatWithIntegrity(m, hmac) == Ok(r.value[..])
    ensures r.Err? ==> FormatWithIntegrity(m, hmac) == Err(r.error)
    ensures after == WithIntegrity(m, Zeros(20))
  {
    after := m.(attributes := m.attributes + [Attribute(MESSAGE_INTEGRITY, Some(Zeros(20)))]);
    r := FormatStunMessage(after);
    if r.Ok? {
      var bytes := r.value;
      CopyHash(m, hmac, bytes[..]);
      var hashBytes := ComputeHash(hmac, bytes[..]);
      SetBytes(bytes, bytes.Length - 20, hashBytes);
    }
  }

  /** What goes out: header and attributes, type and length of the integrity attribute, and the hash of the former. */
  lemma SignedBytes(m: Message, hmac: Hmac)
    requires |m.transactionId| == 12 && TwentyBytes(hmac)
    ensures FormatWithIntegrity(m, hmac) == Ok(Front(m) + [0, 8, 0, 20] + hmac(Front(m)))
  {
    PrintedWithIntegrity(m, Zeros(20));
    var b := FormatMessage(WithIntegrity(m, Zeros(20))).value;
    HashPut(Front(m), b, hmac);
    SplitLast(b, Front(m), Zeros(20), Zeros(20));
  }

  /**
   What a receiver sees of a signed message: the hash it carries is that of the bytes in front of the attribute,
   and it reads the original attributes followed by that hash, exactly if those survive printing.
   */
  lemma SignedRoundTrip(m: Message, hmac: Hmac)
    requires |m.transactionId| == 12 && TwentyBytes(hmac)
    ensures FormatWithIntegrity(m, hmac).Ok?
    ensures var b := FormatWithIntegrity(m, hmac).value;
            && Signed(hmac, b)
            && (ParseMessage(b) == Ok(Normal(WithIntegrity(m, hmac(b[..|b| - 24]))))
                <==> Survives(m.method_, m.clazz) && AllFit(m.attributes))
  {
    CopyHash(m, hmac, FormatMessage(WithIntegrity(m, Zeros(20))).value);
    var b := FormatWithIntegrity(m, hmac).value;
    var m' := WithIntegrity(m, hmac(b[..|b| - 24]));
    MessageRoundTrip(m');
    assert forall i :: 0 <= i < |m.attributes| ==> m'.attributes[i] == m.attributes[i];
    assert Fits(m'.attributes[|m.attributes|]);
  }
}
