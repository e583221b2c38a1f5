/**
 * DER encoding of an ECDSA signature (ITU-T X.690 section 8.3, RFC 3279 section 2.2.3) over
 * hexadecimal strings, and the parser that reads it back with low-S normalisation.
 */
module SignatureCodec {

  datatype Result<+T> = Ok(value: T) | Err(error: Error)

  datatype Error = NotDer | MissingR | MissingS | EmptyInteger

  type Byte = b: int | 0 <= b < 256

  /** The order of secp256k1. */
  const N: nat := 0xFFFFFFFF_FFFFFFFF_FFFFFFFF_FFFFFFFE_BAAEDCE6_AF48A03B_BFD25E8C_D0364141
  const HALF_N: nat := 0x7FFFFFFF_FFFFFFFF_FFFFFFFF_FFFFFFFF_5D576E73_57A4501D_DFE92F46_681B20A0
  const TWO_256: nat := 0x1_00000000_00000000_00000000_00000000_00000000_00000000_00000000_00000000

  lemma HalfOfN()
    ensures HALF_N == N / 2 && N == 2 * HALF_N + 1 && N < TWO_256
  {
  }

  // ---------- hexadecimal strings ----------

  function HexChar(d: int): (c: char)
    requires 0 <= d < 16
  {
    "0123456789abcdef"[d]
  }

  predicate IsHexChar(c: char) { '0' <= c <= '9' || 'a' <= c <= 'f' }

  function Digit(c: char): (d: int)
    ensures 0 <= d < 16
  {
    if '0' <= c <= '9' then c as int - '0' as int
    else if 'a' <= c <= 'f' then c as int - 'a' as int + 10
    else 0
  }

  ghost predicate IsHex(s: string) { forall c | c in s :: IsHexChar(c) }

  lemma DigitOfHexChar(d: int)
    requires 0 <= d < 16
    ensures IsHexChar(HexChar(d)) && Digit(HexChar(d)) == d
    ensures HexChar(d) == '0' <==> d == 0
  {
    assert d == 0 || d == 1 || d == 2 || d == 3 || d == 4 || d == 5 || d == 6 || d == 7
        || d == 8 || d == 9 || d == 10 || d == 11 || d == 12 || d == 13 || d == 14 || d == 15;
  }

  /** The number a hexadecimal string denotes. */
  function Value(s: string): nat {
    if s == "" then 0 else 16 * Value(s[..|s| - 1]) + Digit(s[|s| - 1])
  }

  /** Lower-case hexadecimal without leading zeros. */
  function ToHex(n: nat): string {
    if n < 16 then [HexChar(n)] else ToHex(n / 16) + [HexChar(n % 16)]
  }

  function Zeros(n: nat): string { seq(n, _ => '0') }

  function PadStart(s: string, width: nat): string {
    if |s| >= width then s else Zeros(width - |s|) + s
  }

  function StripZeros(s: string): string {
    if s != "" && s[0] == '0' then StripZeros(s[1..]) else s
  }

  /** A big integer as the parser prints it: a minus sign for a negative one, padded to 64. */
  function PrintScalar(i: int): string {
    PadStart(if i < 0 then "-" + ToHex(-i) else ToHex(i), 64)
  }

  /** The bytes of an even-length hexadecimal string. */
  function HexToBytes(s: string): (bytes: seq<Byte>)
    ensures |bytes| == |s| / 2
  {
    if |s| < 2 then [] else [16 * Digit(s[0]) + Digit(s[1])] + HexToBytes(s[2..])
  }

  /** The big-endian number some bytes denote. */
  function BytesValue(bytes: seq<Byte>): nat {
    if bytes == [] then 0 else 256 * BytesValue(bytes[..|bytes| - 1]) + bytes[|bytes| - 1]
  }

  // ---------- encoder ----------

  /** Length in two hexadecimal digits, when it fits. */
  function LengthHex(v: string): string { PadStart(ToHex(|v| / 2), 2) }

  function MakeEven(v: string): string { if |v| % 2 != 0 then "0" + v else v }

  /** A set high bit would read as a sign. */
  function MarkPositive(v: string): string
    requires v != ""
  {
    if Digit(v[0]) >= 8 then "00" + v else v
  }

  /** The content octets of an integer, as hexadecimal digits. */
  function IntegerContent(hex: string): string {
    var stripped := StripZeros(hex);
    MarkPositive(MakeEven(if stripped == "" then "00" else stripped))
  }

  function DerInt(hex: string): string {
    var v := IntegerContent(hex);
    "02" + LengthHex(v) + v
  }

  function DerEncodeSignature(rHex: string, sHex: string): string {
    var body := DerInt(rHex) + DerInt(sHex);
    "30" + LengthHex(body) + body
  }

  // ---------- parser ----------

  function LowS(s: int): int { if s > HALF_N then N - s else s }

  /** The bytes from `from` on, at most `len` of them. */
  function Sub(bytes: seq<Byte>, from: nat, len: nat): seq<Byte> {
    if from > |bytes| then []
    else if from + len > |bytes| then bytes[from..]
    else bytes[from..from + len]
  }

  predicate TagAt(der: seq<Byte>, at: nat) { at < |der| && der[at] == 2 }

  /** What the parser makes of any bytes: two integers at the offsets the lengths give. */
  function Normalize(der: seq<Byte>): Result<(string, string)> {
    var at := if |der| > 1 && der[1] >= 128 then 3 else 2;
    if der == [] || der[0] != 0x30 then Err(NotDer)
    else if !TagAt(der, at) then Err(MissingR)
    else if at + 1 >= |der| then Err(MissingS)
    else
      var next := at + 2 + der[at + 1];
      if !TagAt(der, next) then Err(MissingS)
      else
        var r := Sub(der, at + 2, der[at + 1]);
        var s := if next + 1 < |der| then Sub(der, next + 2, der[next + 1]) else [];
        if r == [] || s == [] then Err(EmptyInteger)
        else Ok((PrintScalar(BytesValue(r)), PrintScalar(LowS(BytesValue(s)))))
  }

  method NormalizeDerToLowS(der: seq<Byte>) returns (out: Result<(string, string)>)
    ensures out == Normalize(der)
  {
    hide PrintScalar, BytesValue, Sub;
    if der == [] || der[0] != 0x30 { return Err(NotDer); }
    var offset := 2;
    if |der| > 1 && der[1] >= 128 { offset := offset + 1; }  // long form length
    if offset >= |der| || der[offset] != 2 { return Err(MissingR); }
    offset := offset + 1;
    if offset >= |der| { return Err(MissingS); }  // no length: the next offset is not a number
    var rLen := der[offset];
    offset := offset + 1;
    var rBytes := Sub(der, offset, rLen);
    offset := offset + rLen;
    if offset >= |der| || der[offset] != 2 { return Err(MissingS); }
    offset := offset + 1;
    var sBytes := if offset < |der| then Sub(der, offset + 1, der[offset]) else [];
    if rBytes == [] || sBytes == [] { return Err(EmptyInteger); }
    var sBig: int := BytesValue(sBytes);
    if sBig > HALF_N { sBig := N - sBig; }
    return Ok((PrintScalar(BytesValue(rBytes)), PrintScalar(sBig)));
  }

  // ---------- hexadecimal arithmetic ----------

  ghost function Pow16(k: nat): nat { if k == 0 then 1 else 16 * Pow16(k - 1) }

  lemma {:induction false} Pow16Add(a: nat, b: nat)
    ensures Pow16(a + b) == Pow16(a) * Pow16(b)
  {
    if a > 0 {
      Pow16Add(a - 1, b);
      assert Pow16(a + b) == 16 * (Pow16(a - 1) * Pow16(b)) == (16 * Pow16(a - 1)) * Pow16(b);
    }
  }

  lemma Pow16Of4()
    ensures Pow16(4) == 0x1_0000
  {
    assert Pow16(3) == 16 * Pow16(2) && Pow16(2) == 256;
  }

  lemma Pow16Of64()
    ensures Pow16(64) == TWO_256
  {
    hide Pow16;
    Pow16Of4();
    Pow16Add(4, 4);
    Pow16Add(8, 8);
    Pow16Add(16, 16);
    Pow16Add(32, 32);
  }

  lemma {:induction false} ToHexFacts(n: nat)
    ensures ToHex(n) != "" && IsHex(ToHex(n)) && Value(ToHex(n)) == n
    ensures ToHex(n)[0] == '0' <==> n == 0
  {
    if n < 16 {
      DigitOfHexChar(n);
      assert ToHex(n)[..0] == "";
    } else {
      ToHexFacts(n / 16);
      DigitOfHexChar(n % 16);
      assert ToHex(n)[..|ToHex(n)| - 1] == ToHex(n / 16);
    }
  }

  lemma {:induction false} ToHexLength(n: nat, k: nat)
    requires 1 <= k && n < Pow16(k)
    ensures |ToHex(n)| <= k
  {
    if n >= 16 {
      assert k > 1 by { assert Pow16(1) == 16; }
      ToHexLength(n / 16, k - 1);
    }
  }

  lemma {:induction false} ValueLeadingZero(s: string)
    ensures Value("0" + s) == Value(s)
  {
    var t := "0" + s;
    if s == "" {
      assert t[..0] == "";
    } else {
      assert t[..|t| - 1] == "0" + s[..|s| - 1];
      ValueLeadingZero(s[..|s| - 1]);
    }
  }

  lemma {:induction false} StripPadding(k: nat, s: string)
    requires s != "" && s[0] != '0'
    ensures StripZeros(Zeros(k) + s) == s
  {
    if k > 0 {
      assert (Zeros(k) + s)[1..] == Zeros(k - 1) + s;
      StripPadding(k - 1, s);
    } else {
      assert Zeros(0) + s == s;
    }
  }

  lemma {:induction false} StripAllZeros(k: nat)
    ensures StripZeros(Zeros(k)) == ""
  {
    if k > 0 {
      assert Zeros(k)[1..] == Zeros(k - 1);
      StripAllZeros(k - 1);
    }
  }

  lemma ZeroPadded()
    ensures PadStart(ToHex(0), 64) == Zeros(64)
  {
    assert ToHex(0) == "0";
  }

  /** A scalar below 2^256 prints as 64 digits that denote it. */
  lemma PrintScalarFacts(n: nat)
    requires n < TWO_256
    ensures |PrintScalar(n)| == 64 && IsHex(PrintScalar(n))
    ensures StripZeros(PrintScalar(n)) == if n == 0 then "" else ToHex(n)
  {
    hide ToHex, Pow16, StripZeros, Value, TWO_256;
    ToHexFacts(n);
    Pow16Of64();
    ToHexLength(n, 64);
    var k := 64 - |ToHex(n)|;
    assert PrintScalar(n) == Zeros(k) + ToHex(n);
    if n == 0 {
      ZeroPadded();
      StripAllZeros(64);
    } else {
      StripPadding(k, ToHex(n));
    }
  }

  lemma {:induction false} PaddingKeepsValue(k: nat, s: string)
    ensures Value(Zeros(k) + s) == Value(s)
  {
    if k == 0 {
      assert Zeros(0) + s == s;
    } else {
      assert Zeros(k) + s == "0" + (Zeros(k - 1) + s);
      ValueLeadingZero(Zeros(k - 1) + s);
      PaddingKeepsValue(k - 1, s);
    }
  }

  /** The printed scalar determines the scalar. */
  lemma PrintScalarValue(n: nat)
    ensures Value(PrintScalar(n)) == n
  {
    ToHexFacts(n);
    if |ToHex(n)| < 64 { PaddingKeepsValue(64 - |ToHex(n)|, ToHex(n)); }
  }

  lemma {:induction false} HexToBytesConcat(a: string, b: string)
    requires |a| % 2 == 0
    ensures HexToBytes(a + b) == HexToBytes(a) + HexToBytes(b)
  {
    if a == "" {
      assert a + b == b;
    } else {
      assert (a + b)[2..] == a[2..] + b;
      HexToBytesConcat(a[2..], b);
    }
  }

  lemma {:induction false} BytesOfHexValue(s: string)
    requires |s| % 2 == 0
    ensures BytesValue(HexToBytes(s)) == Value(s)
  {
    if s != "" {
      var n := |s|;
      var front, last := s[..n - 2], s[n - 2..];
      BytesOfHexValue(front);
      HexToBytesConcat(front, last);
      assert s == front + last && last[2..] == "";
      var b: Byte := 16 * Digit(s[n - 2]) + Digit(s[n - 1]);
      assert HexToBytes(last) == [b];
      var bytes := HexToBytes(s);
      assert bytes == HexToBytes(front) + [b];
      assert bytes[..|bytes| - 1] == HexToBytes(front);
      assert s[..n - 1][..n - 2] == front;
      assert Value(s[..n - 1]) == 16 * Value(front) + Digit(s[n - 2]);
    }
  }

  // ---------- the encoding ----------

  /** Content octets as section 8.3.2 of X.690 wants them, for a non-negative integer. */
  ghost predicate MinimalNonNegative(content: seq<Byte>) {
    content != [] && content[0] < 128 && (|content| > 1 && content[0] == 0 ==> content[1] >= 128)
  }

  ghost function Content(n: nat): seq<Byte> { HexToBytes(IntegerContent(PrintScalar(n))) }

  lemma MakeEvenFacts(v: string)
    requires v != "" && v[0] != '0' && IsHex(v)
    ensures var e := MakeEven(v);
            |e| % 2 == 0 && |v| <= |e| <= |v| + 1 && Value(e) == Value(v) && !(e[0] == '0' && e[1] == '0')
  {
    ValueLeadingZero(v);
  }

  lemma MarkPositiveFacts(e: string)
    requires e != "" && |e| % 2 == 0
    ensures var m := MarkPositive(e);
            && |m| % 2 == 0 && |m| <= |e| + 2 && Value(m) == Value(e) && Digit(m[0]) < 8
            && (m == e || (m[2] == e[0] && Digit(e[0]) >= 8))
  {
    hide Value;
    TwoLeadingZeros(e);
  }

  lemma TwoLeadingZeros(e: string)
    ensures Value("00" + e) == Value(e)
  {
    hide Value;
    ValueLeadingZero(e);
    ValueLeadingZero("0" + e);
    assert "0" + ("0" + e) == "00" + e;
  }

  lemma IntegerContentFacts(n: nat)
    requires n < TWO_256
    ensures var v := IntegerContent(PrintScalar(n));
            2 <= |v| <= 66 && |v| % 2 == 0 && Value(v) == n && Digit(v[0]) < 8
            && (|v| > 2 && v[0] == '0' && v[1] == '0' ==> Digit(v[2]) >= 8)
  {
    hide PrintScalar, Value, ToHex, StripZeros, TWO_256;
    PrintScalarFacts(n);
    ToHexFacts(n);
    if n == 0 {
      ZeroContent();
    } else {
      Pow16Of64();
      ToHexLength(n, 64);
      MakeEvenFacts(ToHex(n));
      MarkPositiveFacts(MakeEven(ToHex(n)));
    }
  }

  lemma ZeroContent()
    ensures MarkPositive(MakeEven("00")) == "00" && Value("00") == 0
  {
    assert "00"[..1] == "0" && "0"[..0] == "";
  }

  lemma ContentFacts(n: nat)
    requires n < TWO_256
    ensures 1 <= |Content(n)| <= 33 && BytesValue(Content(n)) == n && MinimalNonNegative(Content(n))
  {
    var v := IntegerContent(PrintScalar(n));
    IntegerContentFacts(n);
    BytesOfHexValue(v);
    if |v| > 2 {
      assert Content(n)[0] == 16 * Digit(v[0]) + Digit(v[1]);
      assert Content(n)[1] == HexToBytes(v[2..])[0] == 16 * Digit(v[2]) + Digit(v[3]);
      assert IsHex(v) by { ContentIsHex(n); }
      ZeroByte(v[0], v[1]);
    }
  }

  lemma ZeroByte(a: char, b: char)
    requires IsHexChar(a) && IsHexChar(b)
    ensures 16 * Digit(a) + Digit(b) == 0 ==> a == '0' && b == '0'
  {
  }

  lemma {:induction false} StripKeepsHex(s: string)
    requires IsHex(s)
    ensures IsHex(StripZeros(s))
  {
    if s != "" && s[0] == '0' {
      assert forall c | c in s[1..] :: c in s;
      StripKeepsHex(s[1..]);
    }
  }

  lemma ContentIsHex(n: nat)
    requires n < TWO_256
    ensures IsHex(IntegerContent(PrintScalar(n)))
  {
    PrintScalarFacts(n);
    StripKeepsHex(PrintScalar(n));
  }

  lemma LengthByte(v: string)
    requires |v| / 2 < 256
    ensures |LengthHex(v)| == 2 && HexToBytes(LengthHex(v)) == [|v| / 2]
  {
    var k := |v| / 2;
    ToHexFacts(k);
    assert Pow16(2) == 256;
    ToHexLength(k, 2);
    var h := LengthHex(v);
    if |ToHex(k)| == 1 {
      assert h == Zeros(1) + ToHex(k);
      PaddingKeepsValue(1, ToHex(k));
    }
    BytesOfHexValue(h);
    assert HexToBytes(h)[..0] == [];
  }

  /** Tag, one-byte length, content. */
  ghost function Tlv(tag: Byte, content: seq<Byte>): seq<Byte>
    requires |content| < 256
  {
    [tag, |content|] + content
  }

  lemma TagByte(tag: string)
    requires |tag| == 2
    ensures HexToBytes(tag) == [16 * Digit(tag[0]) + Digit(tag[1])]
  {
    assert tag[2..] == "";
  }

  lemma TlvBytes(tag: string, v: string)
    requires |tag| == 2 && |v| % 2 == 0 && |v| / 2 < 256
    ensures HexToBytes(tag + LengthHex(v) + v) == Tlv(16 * Digit(tag[0]) + Digit(tag[1]), HexToBytes(v))
  {
    hide LengthHex, HexToBytes, Digit;
    TagByte(tag);
    LengthByte(v);
    var len := LengthHex(v);
    HexToBytesConcat(tag + len, v);
    HexToBytesConcat(tag, len);
    TwoBytes(16 * Digit(tag[0]) + Digit(tag[1]), |v| / 2);
  }

  lemma TwoBytes(a: Byte, b: Byte)
    ensures [a] + [b] == [a, b]
  {
  }

  /** The encoding of two scalars below 2^256, byte by byte. */
  lemma EncodingBytes(r: nat, s: nat)
    requires r < TWO_256 && s < TWO_256
    ensures 1 <= |Content(r)| <= 33 && 1 <= |Content(s)| <= 33
    ensures HexToBytes(DerEncodeSignature(PrintScalar(r), PrintScalar(s)))
         == Tlv(0x30, Tlv(2, Content(r)) + Tlv(2, Content(s)))
  {
    hide IntegerContent, PrintScalar, LengthHex, HexToBytes, Value;
    IntegerContentFacts(r);
    IntegerContentFacts(s);
    var rv, sv := IntegerContent(PrintScalar(r)), IntegerContent(PrintScalar(s));
    var rPart, sPart := DerInt(PrintScalar(r)), DerInt(PrintScalar(s));
    LengthByte(rv);
    LengthByte(sv);
    TlvBytes("02", rv);
    TlvBytes("02", sv);
    HexToBytesConcat(rPart, sPart);
    TlvBytes("30", rPart + sPart);
  }

  /** Minimal, non-negative, and short enough for a one-byte length. */
  lemma EncodingIsDer(r: nat, s: nat)
    requires r < TWO_256 && s < TWO_256
    ensures var der := HexToBytes(DerEncodeSignature(PrintScalar(r), PrintScalar(s)));
            && 8 <= |der| <= 72 && der[0] == 0x30 && der[1] == |der| - 2 < 128
            && exists rc, sc :: MinimalNonNegative(rc) && MinimalNonNegative(sc)
                 && BytesValue(rc) == r && BytesValue(sc) == s && |rc| <= 33 && |sc| <= 33
                 && der[2..] == Tlv(2, rc) + Tlv(2, sc)
  {
    EncodingBytes(r, s);
    ContentFacts(r);
    ContentFacts(s);
  }

  // ---------- round trip ----------

  lemma ParseTlvs(rc: seq<Byte>, sc: seq<Byte>)
    requires 1 <= |rc| <= 33 && 1 <= |sc| <= 33
    ensures Normalize(Tlv(0x30, Tlv(2, rc) + Tlv(2, sc)))
         == Ok((PrintScalar(BytesValue(rc)), PrintScalar(LowS(BytesValue(sc)))))
  {
    hide Normalize, PrintScalar, BytesValue, LowS;
    var body := Tlv(2, rc) + Tlv(2, sc);
    var head, mid := [0x30, |body|] + [2, |rc|], [2, |sc|];
    Regroup([0x30, |body|], [2, |rc|], rc, [2, |sc|], sc);
    assert Tlv(0x30, body) == head + rc + mid + sc;
    HeadBytes(0x30, |body|, 2, |rc|);
    ParseParts(head, rc, mid, sc);
  }

  lemma HeadBytes(a: Byte, b: Byte, c: Byte, d: Byte)
    ensures [a, b] + [c, d] == [a, b, c, d]
  {
  }

  lemma Regroup(a: seq<Byte>, b: seq<Byte>, c: seq<Byte>, d: seq<Byte>, e: seq<Byte>)
    ensures a + ((b + c) + (d + e)) == (a + b) + c + d + e
  {
  }

  lemma ParseParts(head: seq<Byte>, rc: seq<Byte>, mid: seq<Byte>, sc: seq<Byte>)
    requires rc != [] && sc != []
    requires |head| == 4 && head[0] == 0x30 && head[1] < 128 && head[2] == 2 && head[3] == |rc|
    requires |mid| == 2 && mid[0] == 2 && mid[1] == |sc|
    ensures Normalize(head + rc + mid + sc)
         == Ok((PrintScalar(BytesValue(rc)), PrintScalar(LowS(BytesValue(sc)))))
  {
    hide PrintScalar, BytesValue, LowS;
    var der := head + rc + mid + sc;
    var next := 4 + |rc|;
    assert der[0] == 0x30 && der[1] < 128 && der[2] == 2 && der[3] == |rc|;
    assert der[next] == 2 && der[next + 1] == |sc|;
    assert Sub(der, 4, |rc|) == rc;
    assert Sub(der, next + 2, |sc|) == sc;
  }

  lemma LowSFacts(s: int)
    ensures 0 <= LowS(s) <= HALF_N <==> 0 <= s <= N
    ensures LowS(s) == s || LowS(s) == N - s
    ensures 0 <= s <= N ==> LowS(s) == (if s <= N - s then s else N - s) && LowS(LowS(s)) == LowS(s)
  {
    HalfOfN();
  }

  /** Decoding an encoded signature gives r unchanged and the smaller of s and N - s. */
  lemma RoundTrip(r: nat, s: nat)
    requires r < TWO_256 && s < TWO_256
    ensures Normalize(HexToBytes(DerEncodeSignature(PrintScalar(r), PrintScalar(s))))
         == Ok((PrintScalar(r), PrintScalar(LowS(s))))
  {
    EncodingBytes(r, s);
    ContentFacts(r);
    ContentFacts(s);
    ParseTlvs(Content(r), Content(s));
  }

  /** For s below N both results are 64 digits, s is low, and a second round trip changes nothing. */
  lemma RoundTripStable(r: nat, s: nat)
    requires r < TWO_256 && s < N
    ensures var low := if s <= N - s then s else N - s;
            && 0 <= low <= HALF_N
            && |PrintScalar(r)| == 64 && |PrintScalar(low)| == 64
            && Value(PrintScalar(r)) == r && Value(PrintScalar(low)) == low
            && Normalize(HexToBytes(DerEncodeSignature(PrintScalar(r), PrintScalar(s))))
               == Ok((PrintScalar(r), PrintScalar(low)))
            && Normalize(HexToBytes(DerEncodeSignature(PrintScalar(r), PrintScalar(low))))
               == Ok((PrintScalar(r), PrintScalar(low)))
  {
    HalfOfN();
    LowSFacts(s);
    RoundTrip(r, s);
    RoundTrip(r, LowS(s));
    PrintScalarFacts(r);
    PrintScalarFacts(LowS(s));
    PrintScalarValue(r);
    PrintScalarValue(LowS(s));
  }

  /** An s above N, which no signer makes, is the one case whose result is not a low s. */
  lemma LowExactlyUpToN(r: nat, s: nat)
    requires r < TWO_256 && s < TWO_256
    ensures var out := Normalize(HexToBytes(DerEncodeSignature(PrintScalar(r), PrintScalar(s))));
            out.Ok? && (s <= N <==> IsHex(out.value.1) && Value(out.value.1) <= HALF_N)
  {
    HalfOfN();
    RoundTrip(r, s);
    LowSFacts(s);
    var low := LowS(s);
    if s <= N {
      PrintScalarFacts(low);
      PrintScalarValue(low);
    } else {
      assert '-' in "-" + ToHex(-low) by { assert ("-" + ToHex(-low))[0] == '-'; }
      assert '-' in PrintScalar(low);
    }
  }

  /** Different scalars have different encodings. */
  lemma EncodingInjective(r: nat, s: nat, r': nat, s': nat)
    requires r < TWO_256 && s < TWO_256 && r' < TWO_256 && s' < TWO_256
    ensures DerEncodeSignature(PrintScalar(r), PrintScalar(s)) == DerEncodeSignature(PrintScalar(r'), PrintScalar(s'))
            ==> r == r' && s == s'
  {
    if DerEncodeSignature(PrintScalar(r), PrintScalar(s)) == DerEncodeSignature(PrintScalar(r'), PrintScalar(s')) {
      EncodingBytes(r, s);
      EncodingBytes(r', s');
      ContentFacts(r);
      ContentFacts(s);
      ContentFacts(r');
      ContentFacts(s');
      TlvsInjective(Content(r), Content(s), Content(r'), Content(s'));
    }
  }

  lemma TlvsInjective(a: seq<Byte>, b: seq<Byte>, c: seq<Byte>, d: seq<Byte>)
    requires |a| <= 33 && |b| <= 33 && |c| <= 33 && |d| <= 33
    requires Tlv(0x30, Tlv(2, a) + Tlv(2, b)) == Tlv(0x30, Tlv(2, c) + Tlv(2, d))
    ensures a == c && b == d
  {
    var x, y := Tlv(0x30, Tlv(2, a) + Tlv(2, b)), Tlv(0x30, Tlv(2, c) + Tlv(2, d));
    assert x[3] == |a| && y[3] == |c|;
    assert a == x[4..4 + |a|] && c == y[4..4 + |c|];
    assert b == x[6 + |a|..] && d == y[6 + |c|..];
  }

  // ---------- what the parser accepts ----------

  /**
   * A sequence tag, a length of one octet, or of two if the first has its high bit set, two integers with their
   * lengths, and anything after them. The second integer may be cut short by the end.
   */
  ghost predicate Splits(der: seq<Byte>, head: seq<Byte>, rc: seq<Byte>, sLen: Byte, sc: seq<Byte>, rest: seq<Byte>) {
    && 1 <= |rc| < 256 && 1 <= |sc| <= sLen && (|sc| < sLen ==> rest == [])
    && head != [] && head[0] == 0x30
    && ((|head| == 2 && head[1] < 128) || (|head| == 3 && head[1] >= 128))
    && der == head + [2, |rc|] + rc + [2, sLen] + sc + rest
  }

  lemma SplitIsAccepted(der: seq<Byte>, head: seq<Byte>, rc: seq<Byte>, sLen: Byte, sc: seq<Byte>, rest: seq<Byte>)
    requires Splits(der, head, rc, sLen, sc, rest)
    ensures var s := BytesValue(sc);
            Normalize(der) == Ok((PrintScalar(BytesValue(rc)), PrintScalar(if s > HALF_N then N - s else s)))
  {
    hide PrintScalar, BytesValue;
    var at := |head|;
    var next := at + 2 + |rc|;
    assert der[0] == head[0] && der[1] == head[1] && der[at] == 2 && der[at + 1] == |rc|;
    assert Sub(der, at + 2, |rc|) == rc;
    assert der[next] == 2 && der[next + 1] == sLen;
    assert Sub(der, next + 2, sLen) == sc;
  }

  lemma Pieces(der: seq<Byte>, i: nat, j: nat, k: nat, l: nat, m: nat)
    requires i <= j <= k <= l <= m <= |der|
    ensures der == der[..i] + der[i..j] + der[j..k] + der[k..l] + der[l..m] + der[m..]
  {
  }

  lemma TwoAt(der: seq<Byte>, i: nat)
    requires i + 2 <= |der|
    ensures der[i..i + 2] == [der[i], der[i + 1]]
  {
  }

  lemma AcceptedSplits(der: seq<Byte>)
    returns (head: seq<Byte>, rc: seq<Byte>, sLen: Byte, sc: seq<Byte>, rest: seq<Byte>)
    requires Normalize(der).Ok?
    ensures Splits(der, head, rc, sLen, sc, rest)
  {
    hide PrintScalar, BytesValue;
    var at: nat := if der[1] >= 128 then 3 else 2;
    var next := at + 2 + der[at + 1];
    sLen := der[next + 1];
    var end := if next + 2 + sLen <= |der| then next + 2 + sLen else |der|;
    head, rc, sc, rest := der[..at], der[at + 2..next], der[next + 2..end], der[end..];
    hide Normalize;
    Pieces(der, at, at + 2, next, next + 2, end);
    TwoAt(der, at);
    TwoAt(der, next);
  }

  /**
   * The parser accepts exactly the byte strings that split so: it reads neither the outer length nor what follows
   * the second integer, and takes a second integer that is cut short. An input that does not begin with the
   * sequence tag is refused as no signature.
   */
  lemma AcceptedExactlyWhenSplit(der: seq<Byte>)
    ensures Normalize(der).Ok? <==> exists head, rc, sLen, sc, rest :: Splits(der, head, rc, sLen, sc, rest)
    ensures Normalize(der) == Err(NotDer) <==> der == [] || der[0] != 0x30
  {
    hide Splits;
    if Normalize(der).Ok? {
      var head, rc, sLen, sc, rest := AcceptedSplits(der);
    }
    if head, rc, sLen, sc, rest :| Splits(der, head, rc, sLen, sc, rest) {
      SplitIsAccepted(der, head, rc, sLen, sc, rest);
    }
  }

  /** Where the first integer's tag is expected. */
  ghost function TagPlace(der: seq<Byte>): nat { if |der| > 1 && der[1] >= 128 then 3 else 2 }

  /**
   * Why an input is refused, in this order: it does not begin as a sequence; no integer follows; after the length it
   * gives, or without one, no second integer follows; or one of the two is empty.
   */
  lemma RefusedFor(der: seq<Byte>, why: Error)
    ensures var at := TagPlace(der);
            Normalize(der) == Err(why)
            <==> if der == [] || der[0] != 0x30 then why == NotDer
                 else if !(at < |der| && der[at] == 2) then why == MissingR
                 else if !(at + 1 < |der| && at + 2 + der[at + 1] < |der| && der[at + 2 + der[at + 1]] == 2) then why == MissingS
                 else
                   var next := at + 2 + der[at + 1];
                   why == EmptyInteger && (der[at + 1] == 0 || next + 2 >= |der| || der[next + 1] == 0)
  {
    hide PrintScalar, BytesValue;
  }
}
