/** Printing a target on the client and parsing it on the server. */
module Targets {
  import opened Wrappers
  import opened Octets

  function DigitChar(d: nat): char
    requires d < 10
  {
    '0' + d as char
  }

  /** Decimal digits without leading zeros, as `f"{n}"` prints them. */
  function Decimal(n: nat): (s: string)
    ensures s != ""
  {
    if n < 10 then [DigitChar(n)] else Decimal(n / 10) + [DigitChar(n % 10)]
  }

  predicate IsDigit(c: char) {
    '0' <= c <= '9'
  }

  /** ASCII white space as `str.strip` and `int` see it. */
  predicate IsSpace(c: char) {
    c == ' ' || 0x09 <= c as int <= 0x0D || 0x1C <= c as int <= 0x1F
  }

  function StripLeft(s: string): string {
    if s != "" && IsSpace(s[0]) then StripLeft(s[1..]) else s
  }

  function StripRight(s: string): string {
    if s != "" && IsSpace(s[|s| - 1]) then StripRight(s[..|s| - 1]) else s
  }

  const MAX_STR_DIGITS := 4300

  /** The value of digits with single underscores between them, and how many digits there are. */
  function ParseDigits(s: string): Option<(nat, nat)> {
    if s == "" || !IsDigit(s[|s| - 1]) then None
    else
      var d := (s[|s| - 1] - '0') as nat;
      if |s| == 1 then Some((d, 1))
      else
        var rest := if s[|s| - 2] == '_' then s[..|s| - 2] else s[..|s| - 1];
        match ParseDigits(rest)
        case None => None
        case Some(v) => Some((10 * v.0 + d, v.1 + 1))
  }

  /** `int(s)` on ASCII text; None is ValueError. */
  function PyInt(s: string): Option<int> {
    var t := StripLeft(StripRight(s));
    var signed := t != "" && (t[0] == '+' || t[0] == '-');
    match ParseDigits(if signed then t[1..] else t)
    case None => None
    case Some(v) =>
      var value: int := v.0;
      if v.1 > MAX_STR_DIGITS then None
      else if signed && t[0] == '-' then Some(-value)
      else Some(value)
  }

  /** Where `rsplit(":", 1)` splits. */
  function LastColon(s: string): (r: Option<nat>)
    ensures r.Some? ==> r.value < |s| && s[r.value] == ':' && ':' !in s[r.value + 1..]
    ensures r.None? ==> ':' !in s
  {
    if s == "" then None
    else if s[|s| - 1] == ':' then Some(|s| - 1)
    else LastColon(s[..|s| - 1])
  }

  /** `_parse_target` */
  function ParseTarget(target: string): (string, int) {
    match LastColon(target)
    case None => (target, 0)
    case Some(i) =>
      match PyInt(target[i + 1..])
      case None => (target, 0)
      case Some(port) => (target[..i], port)
  }

  /** What `VirtualConn` prints. */
  function TargetOf(host: string, port: nat): string {
    host + ":" + Decimal(port)
  }

  function DecimalLength(n: nat): (k: nat)
    ensures k >= 1
  {
    if n < 10 then 1 else 1 + DecimalLength(n / 10)
  }

  predicate AllDigits(s: string) {
    forall i | 0 <= i < |s| :: IsDigit(s[i])
  }

  lemma {:induction false} DecimalDigits(n: nat)
    ensures AllDigits(Decimal(n))
    ensures ParseDigits(Decimal(n)) == Some((n, |Decimal(n)|))
    ensures |Decimal(n)| == DecimalLength(n)
  {
    if n >= 10 {
      var s := Decimal(n);
      DecimalDigits(n / 10);
      assert s[..|s| - 1] == Decimal(n / 10);
      assert s[|s| - 2] == Decimal(n / 10)[|s| - 2];
    }
  }

  lemma DigitsAreNotStripped(s: string)
    requires s != "" && AllDigits(s)
    ensures StripLeft(StripRight(s)) == s
  {
    assert IsDigit(s[|s| - 1]) && IsDigit(s[0]);
  }

  /** `int` reads a printed number back, exactly up to 4300 digits. */
  lemma DecimalRoundTrip(n: nat)
    ensures PyInt(Decimal(n)) == if DecimalLength(n) <= 4300 then Some(n) else None
  {
    DecimalDigits(n);
    DigitsAreNotStripped(Decimal(n));
    assert IsDigit(Decimal(n)[0]);
  }

  lemma PortLength(port: nat)
    requires port < 0x1_0000
    ensures DecimalLength(port) <= 5
  {
    assert DecimalLength(port / 10) <= 4 by {
      assert port / 10 / 10 / 10 / 10 < 10;
      var a := port / 10;
      assert DecimalLength(a / 10 / 10) <= 2 by { assert a / 10 / 10 / 10 < 10; }
      assert DecimalLength(a / 10) <= 3;
    }
  }

  lemma {:induction false} LastColonAt(a: string, b: string)
    requires ':' !in b
    ensures LastColon(a + ":" + b) == Some(|a|)
  {
    var s := a + ":" + b;
    assert s[|s| - 1] == if b == "" then ':' else b[|b| - 1];
    if b != "" {
      var c := b[..|b| - 1];
      LastColonAt(a, c);
      assert s[..|s| - 1] == a + ":" + c;
      assert b[|b| - 1] in b;
    }
  }

  function Pow10(n: nat): (p: nat)
    ensures p >= 1
  {
    if n == 0 then 1 else 10 * Pow10(n - 1)
  }

  /** The printed digits, the last the lowest: the i-th from the right is the i-th digit to the base ten. */
  lemma {:induction false} DecimalDigitAt(n: nat, i: nat)
    requires i < |Decimal(n)|
    ensures var s := Decimal(n);
            IsDigit(s[|s| - 1 - i]) && (s[|s| - 1 - i] - '0') as int == n / Pow10(i) % 10
    decreases i
  {
    if n >= 10 && i > 0 {
      var s := Decimal(n);
      DecimalDigitAt(n / 10, i - 1);
      assert s[..|s| - 1] == Decimal(n / 10);
      assert s[|s| - 1 - i] == Decimal(n / 10)[|s| - 1 - i];
      TenTwice(n, Pow10(i - 1));
    }
  }

  lemma TenTwice(n: nat, p: nat)
    requires p > 0
    ensures n / 10 / p == n / (10 * p)
  {
    var q := n / 10 / p;
    var r := n / 10 % p;
    assert n / 10 == p * q + r;
    assert n == 10 * (p * q + r) + n % 10;
    assert n == (10 * p) * q + (10 * r + n % 10);
    QuotientIs(n, 10 * p, q, 10 * r + n % 10);
  }

  /** Without a colon, or with something behind the last one that is no number, the whole text is the host. */
  lemma ParseTargetElse(host: string, rest: string)
    ensures ':' !in host ==> ParseTarget(host) == (host, 0)
    ensures ':' !in rest && PyInt(rest) == None ==> ParseTarget(host + ":" + rest) == (host + ":" + rest, 0)
  {
    hide PyInt;
    if ':' !in rest {
      LastColonAt(host, rest);
      var t := host + ":" + rest;
      assert t[|host| + 1..] == rest;
    }
  }

  /** What `int` makes of text that is not a plain number. */
  lemma PyIntAccepts()
    ensures PyInt("4_3") == Some(43) && PyInt("-4") == Some(-4) && PyInt("+4") == Some(4) && PyInt(" 4 ") == Some(4)
    ensures PyInt("\t4\n") == Some(4)
  {
    assert "\t4\n"[..2] == "\t4" && "\t4"[1..] == "4";
    assert StripRight("\t4\n") == "\t4";
    assert " 4 "[..2] == " 4" && " 4"[1..] == "4" && "-4"[1..] == "4" && "+4"[1..] == "4" && "4_3"[..1] == "4";
    assert StripRight(" 4 ") == " 4";
    assert ParseDigits("4") == Some((4, 1));
  }

  lemma PyIntRefuses()
    ensures PyInt("") == None && PyInt("x") == None && PyInt("4x") == None && PyInt("_4") == None && PyInt("4_") == None
    ensures PyInt("4__3") == None && PyInt("--4") == None
  {
    assert "--4"[1..] == "-4" && "-4"[..1] == "-" && "_4"[..0] == "" && "4__3"[..2] == "4_";
    assert ParseDigits("-4") == None && ParseDigits("_4") == None && ParseDigits("4__3") == None;
  }

  /** The server gets back the host and port the client printed, whatever colons the host has. */
  lemma TargetRoundTrip(host: string, port: nat)
    requires port < 0x1_0000
    ensures ParseTarget(TargetOf(host, port)) == (host, port)
  {
    var digits, t := Decimal(port), TargetOf(host, port);
    PortLength(port);
    DecimalDigits(port);
    DecimalRoundTrip(port);
    LastColonAt(host, digits);
    assert t[..|host|] == host && t[|host| + 1..] == digits;
  }
}
