/** UTF-8 as Python's `str.encode` writes it and strict `bytes.decode` reads it. */
module Utf8 {
  import opened Octets
  import opened Wrappers

  function EncodeChar(c: char): (b: Bytes)
    ensures 1 <= |b| <= 4
    ensures |b| == 1 <==> c as int < 0x80
  {
    var n := c as int;
    if n < 0x80 then [n]
    else if n < 0x800 then [0xC0 + n / 0x40, 0x80 + n % 0x40]
    else if n < 0x1_0000 then [0xE0 + n / 0x1000, 0x80 + n / 0x40 % 0x40, 0x80 + n % 0x40]
    else [0xF0 + n / 0x4_0000, 0x80 + n / 0x1000 % 0x40, 0x80 + n / 0x40 % 0x40, 0x80 + n % 0x40]
  }

  function Encode(s: string): Bytes {
    if s == [] then [] else EncodeChar(s[0]) + Encode(s[1..])
  }

  predicate Continuation(b: byte) {
    0x80 <= b < 0xC0
  }

  /** The payload bits of a byte once its marker is taken off. */
  function Bits(b: byte, marker: int): int {
    b - marker
  }

  /** A code point that is a character: no surrogates, nothing past U+10FFFF. */
  predicate Scalar(n: int) {
    0 <= n < 0xD800 || 0xE000 <= n < 0x11_0000
  }

  /** The first character of b and the number of bytes it takes; overlong forms are refused. */
  function DecodeChar(b: Bytes): (r: Option<(char, nat)>)
    ensures r.Some? ==> 1 <= r.value.1 <= |b|
  {
    if b == [] then None
    else if b[0] < 0x80 then Some((b[0] as char, 1))
    else if 0xC2 <= b[0] < 0xE0 && |b| >= 2 && Continuation(b[1]) then
      Some(((Bits(b[0], 0xC0) * 0x40 + Bits(b[1], 0x80)) as char, 2))
    else if 0xE0 <= b[0] < 0xF0 && |b| >= 3 && Continuation(b[1]) && Continuation(b[2]) then
      var n := Bits(b[0], 0xE0) * 0x1000 + Bits(b[1], 0x80) * 0x40 + Bits(b[2], 0x80);
      if 0x800 <= n && Scalar(n) then Some((n as char, 3)) else None
    else if 0xF0 <= b[0] < 0xF5 && |b| >= 4 && Continuation(b[1]) && Continuation(b[2]) && Continuation(b[3]) then
      var n := Bits(b[0], 0xF0) * 0x4_0000 + Bits(b[1], 0x80) * 0x1000 + Bits(b[2], 0x80) * 0x40 + Bits(b[3], 0x80);
      if 0x1_0000 <= n && Scalar(n) then Some((n as char, 4)) else None
    else None
  }

  /** Strict decoding: None where Python raises UnicodeDecodeError. */
  function Decode(b: Bytes): Option<string>
    decreases |b|
  {
    if b == [] then Some("")
    else
      match DecodeChar(b)
      case None => None
      case Some(head) =>
        match Decode(b[head.1..])
        case None => None
        case Some(tail) => Some([head.0] + tail)
  }

  lemma ThreeBytes(n: nat)
    requires 0x800 <= n < 0x1_0000
    ensures n / 0x1000 * 0x1000 + n / 0x40 % 0x40 * 0x40 + n % 0x40 == n
  {
  }

  lemma FourBytes(n: nat)
    requires 0x1_0000 <= n < 0x11_0000
    ensures n / 0x4_0000 * 0x4_0000 + n / 0x1000 % 0x40 * 0x1000 + n / 0x40 % 0x40 * 0x40 + n % 0x40 == n
  {
    var a := n / 0x40;
    var b := a / 0x40;
    assert n / 0x1000 == b && n / 0x4_0000 == b / 0x40;
  }

  lemma DecodeCharRoundTrip(c: char)
    ensures DecodeChar(EncodeChar(c)) == Some((c, |EncodeChar(c)|))
  {
    var n := c as int;
    if n >= 0x1_0000 {
      FourBytes(n);
    } else if n >= 0x800 {
      ThreeBytes(n);
    }
  }

  /** One character of each length, and forms that strict decoding refuses: overlong, surrogate, too large. */
  lemma Examples()
    ensures EncodeChar('A') == [0x41] && EncodeChar('\U{00E9}') == [0xC3, 0xA9]
    ensures EncodeChar('\U{20AC}') == [0xE2, 0x82, 0xAC] && EncodeChar('\U{1F600}') == [0xF0, 0x9F, 0x98, 0x80]
    ensures DecodeChar([0xC0, 0x80]) == None && DecodeChar([0xE0, 0x80, 0x80]) == None
    ensures DecodeChar([0xED, 0xA0, 0x80]) == None && DecodeChar([0xF4, 0x90, 0x80, 0x80]) == None
    ensures DecodeChar([0x80]) == None && DecodeChar([0xC3]) == None
  {
  }

  lemma DecodeCharPrefix(a: Bytes, rest: Bytes)
    requires DecodeChar(a).Some?
    ensures DecodeChar(a + rest) == DecodeChar(a)
  {
    assert forall i | 0 <= i < |a| :: (a + rest)[i] == a[i];
  }

  /** Every string survives being encoded and strictly decoded. */
  lemma {:induction false} RoundTrip(s: string)
    ensures Decode(Encode(s)) == Some(s)
  {
    if s != [] {
      var e, rest := EncodeChar(s[0]), Encode(s[1..]);
      DecodeCharRoundTrip(s[0]);
      DecodeCharPrefix(e, rest);
      assert (e + rest)[|e|..] == rest;
      RoundTrip(s[1..]);
      assert [s[0]] + s[1..] == s;
    }
  }

  predicate Ascii(s: string) {
    forall i | 0 <= i < |s| :: s[i] as int < 0x80
  }

  /** ASCII text is its own encoding. */
  lemma {:induction false} AsciiIsItself(s: string)
    requires Ascii(s)
    ensures |Encode(s)| == |s| && forall i | 0 <= i < |s| :: Encode(s)[i] == s[i] as int
  {
    if s != [] {
      AsciiIsItself(s[1..]);
    }
  }

  /** A string has at least as many bytes as characters, and as many only if it is ASCII. */
  lemma {:induction false} EncodeLength(s: string)
    ensures |Encode(s)| >= |s|
    ensures |Encode(s)| == |s| <==> Ascii(s)
  {
    if s != [] {
      EncodeLength(s[1..]);
      assert Ascii(s) <==> s[0] as int < 0x80 && Ascii(s[1..]);
    }
  }
}
