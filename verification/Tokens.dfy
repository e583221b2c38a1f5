/** How strings and integers are printed, and a reader for both. */
module Tokens {
  import opened Text
  import opened Json
  import opened Options

  const QUOTE: Unit := 34
  const BACKSLASH: Unit := 92
  const MINUS: Unit := 45

  // ---------- strings ----------

  function HexDigit(d: int): (u: Unit)
    requires 0 <= d < 16
  {
    if d < 10 then 48 + d else 87 + d
  }

  function HexValue(u: Unit): Option<int> {
    if 48 <= u <= 57 then Some(u - 48) else if 97 <= u <= 102 then Some(u - 87) else None
  }

  predicate IsHigh(u: Unit) { 0xD800 <= u <= 0xDBFF }

  predicate IsLow(u: Unit) { 0xDC00 <= u <= 0xDFFF }

  /** Backslash, `u` and four hexadecimal digits. */
  function UnicodeEscape(u: Unit): Text {
    [BACKSLASH, 117, HexDigit(u / 4096), HexDigit(u / 256 % 16), HexDigit(u / 16 % 16), HexDigit(u % 16)]
  }

  /** One code unit outside a surrogate pair. */
  function EscapeUnit(u: Unit): Text {
    if u == 8 then [BACKSLASH, 98]
    else if u == 9 then [BACKSLASH, 116]
    else if u == 10 then [BACKSLASH, 110]
    else if u == 12 then [BACKSLASH, 102]
    else if u == 13 then [BACKSLASH, 114]
    else if u == QUOTE || u == BACKSLASH then [BACKSLASH, u]
    else if u < 32 || IsHigh(u) || IsLow(u) then UnicodeEscape(u)
    else [u]
  }

  /** A surrogate pair is copied; a lone surrogate is escaped. */
  function Escape(s: Text): Text {
    if s == [] then []
    else if |s| >= 2 && IsHigh(s[0]) && IsLow(s[1]) then [s[0], s[1]] + Escape(s[2..])
    else EscapeUnit(s[0]) + Escape(s[1..])
  }

  function Quoted(s: Text): Text { [QUOTE] + Escape(s) + [QUOTE] }

  /** Reads one code unit of a string body. */
  function ReadUnit(t: Text): (r: Option<(Unit, Text)>)
    ensures r.Some? ==> |r.value.1| < |t|
  {
    if t == [] || t[0] == QUOTE then None
    else if t[0] != BACKSLASH then Some((t[0], t[1..]))
    else if |t| < 2 then None
    else if t[1] == 98 then Some((8, t[2..]))
    else if t[1] == 116 then Some((9, t[2..]))
    else if t[1] == 110 then Some((10, t[2..]))
    else if t[1] == 102 then Some((12, t[2..]))
    else if t[1] == 114 then Some((13, t[2..]))
    else if t[1] == QUOTE || t[1] == BACKSLASH then Some((t[1], t[2..]))
    else if t[1] != 117 || |t| < 6 then None
    else
      match (HexValue(t[2]), HexValue(t[3]), HexValue(t[4]), HexValue(t[5]))
      case (Some(a), Some(b), Some(c), Some(d)) => Some((4096 * a + 256 * b + 16 * c + d, t[6..]))
      case (_, _, _, _) => None
  }

  /** Reads a string body up to and past its closing quote. */
  function ReadBody(t: Text): (r: Option<(Text, Text)>)
    ensures r.Some? ==> |r.value.1| < |t|
  {
    if t == [] then None
    else if t[0] == QUOTE then Some(([], t[1..]))
    else
      match ReadUnit(t)
      case None => None
      case Some(p) =>
        match ReadBody(p.1)
        case None => None
        case Some(q) => Some(([p.0] + q.0, q.1))
  }

  lemma HexDigitRead(u: Unit)
    ensures HexValue(HexDigit(u / 4096)) == Some(u / 4096)
    ensures HexValue(HexDigit(u / 256 % 16)) == Some(u / 256 % 16)
    ensures HexValue(HexDigit(u / 16 % 16)) == Some(u / 16 % 16)
    ensures HexValue(HexDigit(u % 16)) == Some(u % 16)
    ensures 4096 * (u / 4096) + 256 * (u / 256 % 16) + 16 * (u / 16 % 16) + u % 16 == u
  {
    assert u / 256 == 16 * (u / 4096) + u / 256 % 16;
    assert u / 16 == 16 * (u / 256) + u / 16 % 16;
  }

  lemma ReadEscapedUnit(u: Unit, rest: Text)
    ensures ReadUnit(EscapeUnit(u) + rest) == Some((u, rest))
    ensures (EscapeUnit(u) + rest)[0] != QUOTE
  {
    var t := EscapeUnit(u) + rest;
    HexDigitRead(u);
    assert t[|EscapeUnit(u)|..] == rest;
  }

  lemma ReadBodyStep(u: Unit, t: Text, tail: Text, s: Text, rest: Text)
    requires t != [] && t[0] != QUOTE && ReadUnit(t) == Some((u, tail))
    requires ReadBody(tail) == Some((s, rest))
    ensures ReadBody(t) == Some(([u] + s, rest))
  {
  }

  lemma ReadRawUnit(u: Unit, tail: Text)
    requires u != QUOTE && u != BACKSLASH
    ensures ReadUnit([u] + tail) == Some((u, tail))
  {
    assert ([u] + tail)[1..] == tail;
  }

  lemma ReadPair(a: Unit, b: Unit, tail: Text, s: Text, rest: Text)
    requires IsHigh(a) && IsLow(b) && ReadBody(tail) == Some((s, rest))
    ensures ReadBody([a, b] + tail) == Some(([a, b] + s, rest))
  {
    ReadRawUnit(b, tail);
    ReadBodyStep(b, [b] + tail, tail, s, rest);
    ReadRawUnit(a, [b] + tail);
    ReadBodyStep(a, [a] + ([b] + tail), [b] + tail, [b] + s, rest);
    assert [a, b] + tail == [a] + ([b] + tail);
    assert [a, b] + s == [a] + ([b] + s);
  }

  lemma ReadSingle(u: Unit, tail: Text, s: Text, rest: Text)
    requires ReadBody(tail) == Some((s, rest))
    ensures ReadBody(EscapeUnit(u) + tail) == Some(([u] + s, rest))
  {
    ReadEscapedUnit(u, tail);
    ReadBodyStep(u, EscapeUnit(u) + tail, tail, s, rest);
  }

  lemma EscapePairStep(s: Text, q: Text)
    requires |s| >= 2 && IsHigh(s[0]) && IsLow(s[1])
    ensures Escape(s) + q == [s[0], s[1]] + (Escape(s[2..]) + q)
  {
    var pair, tail := [s[0], s[1]], Escape(s[2..]);
    assert Escape(s) == pair + tail;
    Assoc(pair, tail, q);
  }

  lemma EscapeSingleStep(s: Text, q: Text)
    requires s != [] && !(|s| >= 2 && IsHigh(s[0]) && IsLow(s[1]))
    ensures Escape(s) + q == EscapeUnit(s[0]) + (Escape(s[1..]) + q)
  {
    Assoc(EscapeUnit(s[0]), Escape(s[1..]), q);
  }

  /** Escaping loses nothing: the body is read back and the reader stops at its quote. */
  lemma {:induction false} ReadEscaped(s: Text, rest: Text)
    ensures ReadBody(Escape(s) + ([QUOTE] + rest)) == Some((s, rest))
  {
    var q := [QUOTE] + rest;
    if s == [] {
      assert Escape(s) + q == q && q[1..] == rest;
    } else {
      if |s| >= 2 && IsHigh(s[0]) && IsLow(s[1]) {
        ReadEscaped(s[2..], rest);
        EscapePairStep(s, q);
        ReadPair(s[0], s[1], Escape(s[2..]) + q, s[2..], rest);
        Split(s, 2);
      } else {
        ReadEscaped(s[1..], rest);
        EscapeSingleStep(s, q);
        ReadSingle(s[0], Escape(s[1..]) + q, s[1..], rest);
        Split(s, 1);
      }
    }
  }

  // ---------- integers ----------

  predicate IsDigit(u: Unit) { 48 <= u <= 57 }

  function Decimal(n: nat): (t: Text)
    ensures t != [] && IsDigit(t[0])
  {
    if n < 10 then [48 + n] else Decimal(n / 10) + [48 + n % 10]
  }

  function PrintInt(i: int): Text {
    if i < 0 then [MINUS] + Decimal(-i) else Decimal(i)
  }

  function ReadDigits(acc: nat, t: Text): (r: (nat, Text))
    ensures |r.1| <= |t|
    decreases |t|
  {
    if t != [] && IsDigit(t[0]) then ReadDigits(10 * acc + (t[0] - 48), t[1..]) else (acc, t)
  }

  function ReadInt(t: Text): (r: Option<(int, Text)>)
    ensures r.Some? ==> |r.value.1| < |t|
  {
    if t == [] then None
    else if IsDigit(t[0]) then var r := ReadDigits(t[0] - 48, t[1..]); var v: int := r.0; Some((v, r.1))
    else if t[0] == MINUS && |t| > 1 && IsDigit(t[1]) then
      var r := ReadDigits(t[1] - 48, t[2..]); var v: int := 0 - r.0; Some((v, r.1))
    else None
  }

  /** `acc` followed by the digits of n. */
  ghost function Shift(acc: nat, n: nat): nat {
    if n < 10 then 10 * acc + n else 10 * Shift(acc, n / 10) + n % 10
  }

  lemma {:induction false} ShiftZero(n: nat)
    ensures Shift(0, n) == n
  {
    if n >= 10 { ShiftZero(n / 10); }
  }

  lemma {:induction false} ReadDecimal(acc: nat, n: nat, rest: Text)
    ensures ReadDigits(acc, Decimal(n) + rest) == ReadDigits(Shift(acc, n), rest)
  {
    if n < 10 {
      assert (Decimal(n) + rest)[1..] == rest;
    } else {
      var tail := [48 + n % 10] + rest;
      ReadDecimal(acc, n / 10, tail);
      assert Decimal(n) + rest == Decimal(n / 10) + tail;
      assert tail[1..] == rest;
    }
  }

  /** Nothing that continues an integer. */
  ghost predicate NoDigit(rest: Text) { rest == [] || !IsDigit(rest[0]) }

  lemma ReadPrintedNat(n: nat, rest: Text)
    requires NoDigit(rest)
    ensures var t := Decimal(n) + rest; ReadDigits(t[0] - 48, t[1..]) == (n, rest)
  {
    var t := Decimal(n) + rest;
    ReadDecimal(0, n, rest);
    ShiftZero(n);
    assert ReadDigits(0, t) == ReadDigits(t[0] - 48, t[1..]);
  }

  lemma ReadPrintedInt(i: int, rest: Text)
    requires NoDigit(rest)
    ensures ReadInt(PrintInt(i) + rest) == Some((i, rest))
  {
    var t := PrintInt(i) + rest;
    if i < 0 {
      ReadPrintedNat(-i, rest);
      var d := Decimal(-i) + rest;
      Assoc([MINUS], Decimal(-i), rest);
      assert t == [MINUS] + d;
      assert t[1] == d[0] && t[2..] == d[1..];
    } else {
      ReadPrintedNat(i, rest);
    }
  }
}
