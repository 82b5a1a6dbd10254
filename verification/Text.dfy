/** String operations of JavaScript that the codecs rely on: split, join, decimal numerals. */
module Text {
  import opened Basics

  // ---------------------------------------------------------------- split and join

  /** s.split(c) for a one-character separator. */
  function Split(s: string, c: char): (parts: seq<string>)
    ensures parts != []
    ensures forall i :: 0 <= i < |parts| ==> c !in parts[i]
  {
    if s == "" then [""]
    else
      var rest := Split(s[1..], c);
      if s[0] == c then [""] + rest else [[s[0]] + rest[0]] + rest[1..]
  }

  /** parts.join(c) for a one-character separator. */
  function Join(parts: seq<string>, c: char): string {
    if parts == [] then ""
    else if |parts| == 1 then parts[0]
    else parts[0] + [c] + Join(parts[1..], c)
  }

  lemma {:induction false} JoinSplit(s: string, c: char)
    ensures Join(Split(s, c), c) == s
  {
    if s != "" {
      JoinSplit(s[1..], c);
      var rest := Split(s[1..], c);
      if s[0] == c {
        assert ([""] + rest)[1..] == rest;
      } else {
        var parts := [[s[0]] + rest[0]] + rest[1..];
        assert parts[1..] == rest[1..];
      }
    }
  }

  /** Splitting past a first part that holds no separator. */
  lemma {:induction false} SplitFirst(p: string, c: char, rest: string)
    requires c !in p
    ensures Split(p, c) == [p]
    ensures Split(p + [c] + rest, c) == [p] + Split(rest, c)
  {
    if p == "" {
      assert p + [c] + rest == [c] + rest;
      assert ([c] + rest)[1..] == rest;
    } else {
      SplitFirst(p[1..], c, rest);
      var s := p + [c] + rest;
      assert s[1..] == p[1..] + [c] + rest;
      assert s[0] == p[0] && p == [p[0]] + p[1..];
      var tail := [p[1..]] + Split(rest, c);
      assert Split(s[1..], c) == tail;
      assert tail[1..] == Split(rest, c);
    }
  }

  lemma {:induction false} SplitJoin(parts: seq<string>, c: char)
    requires parts != []
    requires forall i :: 0 <= i < |parts| ==> c !in parts[i]
    ensures Split(Join(parts, c), c) == parts
  {
    if |parts| == 1 {
      SplitFirst(parts[0], c, "");
    } else {
      SplitJoin(parts[1..], c);
      SplitFirst(parts[0], c, Join(parts[1..], c));
    }
  }

  lemma {:induction false} SplitConcat(a: string, c: char, b: string)
    ensures Split(a + [c] + b, c) == Split(a, c) + Split(b, c)
  {
    if a == "" {
      SplitFirst("", c, b);
    } else {
      var s := a + [c] + b;
      assert s[1..] == a[1..] + [c] + b && s[0] == a[0];
      SplitConcat(a[1..], c, b);
    }
  }

  lemma {:induction false} PartsCounted(s: string, c: char)
    ensures |Split(s, c)| == multiset(s)[c] + 1
  {
    if s != "" {
      PartsCounted(s[1..], c);
      assert s == [s[0]] + s[1..];
    }
  }

  /** The number of parts after joining and splitting, when the parts may hold separators themselves. */
  function Pieces(parts: seq<string>, c: char): nat {
    if parts == [] then 0 else |Split(parts[0], c)| + Pieces(parts[1..], c)
  }

  lemma {:induction false} PiecesOfJoin(parts: seq<string>, c: char)
    requires parts != []
    ensures |Split(Join(parts, c), c)| == Pieces(parts, c)
  {
    if |parts| > 1 {
      PiecesOfJoin(parts[1..], c);
      SplitConcat(parts[0], c, Join(parts[1..], c));
    }
  }

  lemma {:induction false} PiecesOfUpdate(parts: seq<string>, c: char, i: nat, x: string)
    requires i < |parts|
    ensures Pieces(parts[i := x], c) == Pieces(parts, c) - |Split(parts[i], c)| + |Split(x, c)|
  {
    if i == 0 {
      assert parts[i := x][1..] == parts[1..];
    } else {
      assert parts[i := x][1..] == parts[1..][i - 1 := x];
      PiecesOfUpdate(parts[1..], c, i - 1, x);
    }
  }

  lemma {:induction false} PiecesOfSplit(parts: seq<string>, c: char)
    requires forall i :: 0 <= i < |parts| ==> c !in parts[i]
    ensures Pieces(parts, c) == |parts|
  {
    if parts != [] {
      SplitFirst(parts[0], c, "");
      PiecesOfSplit(parts[1..], c);
    }
  }

  lemma OnePiece(s: string, c: char)
    ensures |Split(s, c)| == 1 <==> c !in s
  {
    JoinSplit(s, c);
    if c !in s {
      SplitFirst(s, c, "");
    }
  }

  // ---------------------------------------------------------------- decimal numerals

  predicate IsDigit(c: char) { '0' <= c <= '9' }

  function DigitOf(d: nat): char
    requires d < 10
  {
    '0' + d as char
  }

  /** The numeral of n: what converting a number to a string gives. */
  function Numeral(n: nat): (s: string)
    ensures s != ""
    ensures forall i :: 0 <= i < |s| ==> IsDigit(s[i])
    ensures s[0] == '0' ==> n == 0 && s == "0"
  {
    if n < 10 then [DigitOf(n)] else Numeral(n / 10) + [DigitOf(n % 10)]
  }

  /** The number that a string of digits denotes. */
  function DigitsValue(s: string): nat
    requires forall i :: 0 <= i < |s| ==> IsDigit(s[i])
  {
    if s == "" then 0
    else
      var last := s[|s| - 1];
      assert IsDigit(last);
      DigitsValue(s[..|s| - 1]) * 10 + (last as int - '0' as int)
  }

  lemma {:induction false} NumeralValue(n: nat)
    ensures DigitsValue(Numeral(n)) == n
  {
    var s := Numeral(n);
    if n < 10 {
      assert s[..|s| - 1] == "";
    } else {
      NumeralValue(n / 10);
      assert s[..|s| - 1] == Numeral(n / 10);
    }
  }

  /** A numeral as Numeral writes it: digits only, no leading zero. */
  predicate IsNumeral(s: string) {
    s != "" && (forall i :: 0 <= i < |s| ==> IsDigit(s[i])) && (s[0] == '0' ==> |s| == 1)
  }

  lemma {:induction false} ValueNumeral(s: string)
    requires IsNumeral(s)
    ensures Numeral(DigitsValue(s)) == s
    ensures |s| > 1 ==> DigitsValue(s) >= 10
  {
    var init, last := s[..|s| - 1], s[|s| - 1];
    assert s == init + [last];
    if |s| == 1 {
      assert init == "";
    } else {
      assert init[0] == s[0];
      ValueNumeral(init);
      var v := DigitsValue(init);
      assert v > 0 by {
        if |init| == 1 { assert init[..0] == ""; }
      }
      var d := last as int - '0' as int;
      assert (v * 10 + d) / 10 == v && (v * 10 + d) % 10 == d;
    }
  }

  /** The white space that parseInt skips. */
  predicate IsSpace(c: char) {
    var n := c as int;
    || 9 <= n <= 13 || n == 32 || n == 0xa0 || n == 0x1680 || 0x2000 <= n <= 0x200a
    || n == 0x2028 || n == 0x2029 || n == 0x202f || n == 0x205f || n == 0x3000 || n == 0xfeff
  }

  /** The value of a hexadecimal digit. */
  function HexDigit(c: char): Option<nat> {
    if IsDigit(c) then Some(c as int - '0' as int)
    else if 'a' <= c <= 'f' then Some(c as int - 'a' as int + 10)
    else if 'A' <= c <= 'F' then Some(c as int - 'A' as int + 10)
    else None
  }

  /** The number read from the leading hexadecimal digits of s, after `seen` has been read. */
  function LeadingHex(s: string, seen: Option<nat>): Option<nat>
    decreases |s|
  {
    if s == "" || HexDigit(s[0]).None? then seen
    else LeadingHex(s[1..], Some((if seen.Some? then seen.value * 16 else 0) + HexDigit(s[0]).value))
  }

  /** The leading characters of s that satisfy IsDigit. */
  function LeadingDigits(s: string): (r: string)
    ensures r <= s
    ensures forall i :: 0 <= i < |r| ==> IsDigit(r[i])
    ensures |r| < |s| ==> !IsDigit(s[|r|])
  {
    if s != "" && IsDigit(s[0]) then [s[0]] + LeadingDigits(s[1..]) else ""
  }

  /** The number that parseInt reads after white space and sign. */
  function Magnitude(t: string): Option<nat> {
    if |t| >= 2 && t[0] == '0' && (t[1] == 'x' || t[1] == 'X') then LeadingHex(t[2..], None)
    else
      var ds := LeadingDigits(t);
      if ds == "" then None else Some(DigitsValue(ds))
  }

  /** parseInt(s) without a radix; None is NaN. */
  function ParseInt(s: string): Option<int> {
    if s == "" then None
    else if IsSpace(s[0]) then ParseInt(s[1..])
    else if s[0] == '-' then
      match Magnitude(s[1..])
      case None => None
      case Some(v) => Some(0 - v)
    else if s[0] == '+' then Magnitude(s[1..])
    else Magnitude(s)
  }

  lemma {:induction false} AllDigitsLead(s: string)
    requires forall i :: 0 <= i < |s| ==> IsDigit(s[i])
    ensures LeadingDigits(s) == s
  {
    if s != "" {
      AllDigitsLead(s[1..]);
    }
  }

  lemma DigitIsPlain(c: char)
    requires IsDigit(c)
    ensures !IsSpace(c) && c != '-' && c != '+' && c != 'x' && c != 'X'
  {
  }

  lemma MagnitudeOfDigits(s: string)
    requires s != "" && forall i :: 0 <= i < |s| ==> IsDigit(s[i])
    ensures Magnitude(s) == Some(DigitsValue(s))
  {
    AllDigitsLead(s);
    if |s| >= 2 {
      DigitIsPlain(s[1]);
    }
  }

  lemma ParseIntOfDigits(s: string)
    requires s != "" && forall i :: 0 <= i < |s| ==> IsDigit(s[i])
    ensures ParseInt(s) == Some(DigitsValue(s))
  {
    DigitIsPlain(s[0]);
    MagnitudeOfDigits(s);
  }

  lemma ParseIntOfNumeral(n: nat)
    ensures ParseInt(Numeral(n)) == Some(n)
  {
    NumeralValue(n);
    ParseIntOfDigits(Numeral(n));
  }

  /** What follows the digits is ignored. */
  lemma ParseIntStops(digits: string, rest: string)
    requires digits != "" && forall i :: 0 <= i < |digits| ==> IsDigit(digits[i])
    requires rest != "" ==> !IsDigit(rest[0]) && rest[0] != 'x' && rest[0] != 'X'
    ensures ParseInt(digits + rest) == Some(DigitsValue(digits))
  {
    var s := digits + rest;
    assert s[0] == digits[0];
    DigitIsPlain(digits[0]);
    if |s| > 1 {
      assert s[1] == if |digits| > 1 then digits[1] else rest[0];
      if |digits| > 1 {
        DigitIsPlain(digits[1]);
      }
    }
    DigitsLead(digits, rest);
  }

  lemma {:induction false} DigitsLead(digits: string, rest: string)
    requires forall i :: 0 <= i < |digits| ==> IsDigit(digits[i])
    requires rest != "" ==> !IsDigit(rest[0])
    ensures LeadingDigits(digits + rest) == digits
  {
    if digits == "" {
      assert digits + rest == rest;
    } else {
      assert (digits + rest)[1..] == digits[1..] + rest;
      DigitsLead(digits[1..], rest);
    }
  }

  /** White space in front is skipped, and a plus sign makes no difference. */
  lemma ParseIntSkips(c: char, s: string)
    requires s != "" && IsDigit(s[0])
    ensures IsSpace(c) || c == '+' ==> ParseInt([c] + s) == ParseInt(s)
  {
    assert ([c] + s)[1..] == s;
    DigitIsPlain(s[0]);
  }

  /** Hexadecimal digits after 0x are read with base 16, up to the first other character. */
  lemma {:induction false} HexMore(s: string, c: char, rest: string, seen: Option<nat>)
    requires forall i :: 0 <= i < |s| ==> HexDigit(s[i]).Some?
    requires HexDigit(c).Some? && (rest != "" ==> HexDigit(rest[0]).None?)
    ensures var before := LeadingHex(s, seen);
            LeadingHex(s + [c] + rest, seen)
              == Some((if before.Some? then before.value else 0) * 16 + HexDigit(c).value)
    decreases |s|
  {
    var all := s + [c] + rest;
    if s == "" {
      assert all == [c] + rest && all[1..] == rest;
    } else {
      assert all[0] == s[0] && all[1..] == s[1..] + [c] + rest;
      HexMore(s[1..], c, rest, Some((if seen.Some? then seen.value * 16 else 0) + HexDigit(s[0]).value));
    }
  }

  lemma ParseIntOfHex(s: string)
    ensures ParseInt("0x" + s) == LeadingHex(s, None) == ParseInt("0X" + s)
  {
    assert ("0x" + s)[2..] == s && ("0X" + s)[2..] == s;
  }

  /** n.toString() for an integer. */
  function IntText(n: int): string {
    if n < 0 then "-" + Numeral(-n) else Numeral(n)
  }

  lemma ParseIntOfNegative(digits: string)
    requires Magnitude(digits).Some?
    ensures ParseInt("-" + digits) == Some(0 - Magnitude(digits).value)
  {
    var s := "-" + digits;
    assert s[0] == '-' && s[1..] == digits && !IsSpace('-');
  }

  lemma ParseIntOfIntText(n: int)
    ensures ParseInt(IntText(n)) == Some(n)
  {
    if n < 0 {
      NumeralValue(-n);
      MagnitudeOfDigits(Numeral(-n));
      ParseIntOfNegative(Numeral(-n));
    } else {
      ParseIntOfNumeral(n);
    }
  }

  lemma IntTextHasNoSpace(n: int)
    ensures ' ' !in IntText(n)
  {
    NumeralValue(if n < 0 then -n else n);
  }

  // ---------------------------------------------------------------- endpoint keys

  /** address + ':' + port, the key under which endpoints are kept. */
  function EndpointKey(e: Endpoint): string {
    e.address + ":" + Numeral(e.port)
  }

  /** A key determines its endpoint, whatever the address holds, colons included. */
  lemma EndpointKeyInjective(a: Endpoint, b: Endpoint)
    requires EndpointKey(a) == EndpointKey(b)
    ensures a == b
  {
    var k := EndpointKey(a);
    var p, q := Numeral(a.port), Numeral(b.port);
    assert k[|k| - |p| - 1] == ':' && k[|k| - |q| - 1] == ':';
    assert forall i :: |k| - |p| <= i < |k| ==> k[i] == p[i - (|k| - |p|)];
    assert forall i :: |k| - |q| <= i < |k| ==> k[i] == q[i - (|k| - |q|)];
    assert |p| == |q|;
    assert k[|k| - |p|..] == p && k[|k| - |q|..] == q;
    assert k[..|k| - |p| - 1] == a.address && k[..|k| - |q| - 1] == b.address;
    NumeralValue(a.port);
    NumeralValue(b.port);
  }
}
