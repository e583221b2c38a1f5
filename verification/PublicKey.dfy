/**
 * Point compression (SEC 1 section 2.3.3) of the public key in a SubjectPublicKeyInfo, found
 * by searching its hexadecimal form for the uncompressed point's tag.
 */
module PublicKey {
  import opened SignatureCodec

  datatype KeyError = NoPoint | ShortPoint

  datatype Compressed = Key(hex: string) | Bad(error: KeyError)

  function BytesToHex(bytes: seq<Byte>): (s: string)
    ensures |s| == 2 * |bytes|
  {
    if bytes == [] then ""
    else BytesToHex(bytes[..|bytes| - 1]) + [HexChar(bytes[|bytes| - 1] / 16), HexChar(bytes[|bytes| - 1] % 16)]
  }

  predicate TagHere(hex: string, i: nat) { i + 2 <= |hex| && hex[i..i + 2] == "04" }

  /** `hex.indexOf('04', from)`. */
  function IndexOfTag(hex: string, from: nat): (at: int)
    ensures at >= 0 ==> from <= at && TagHere(hex, at)
    ensures forall i: nat | from <= i && (at < 0 || i < at) :: !TagHere(hex, i)
    decreases |hex| - from
  {
    if from >= |hex| then -1
    else if TagHere(hex, from) then from
    else IndexOfTag(hex, from + 1)
  }

  function ExtractCompressedPublicKey(spki: seq<Byte>): Compressed {
    var hex := BytesToHex(spki);
    var at := IndexOfTag(hex, 40);
    if at < 0 then Bad(NoPoint)
    else if |hex| < at + 130 then Bad(ShortPoint)
    else
      var yLast := 16 * Digit(hex[at + 128]) + Digit(hex[at + 129]);
      Key((if yLast % 2 == 0 then "02" else "03") + hex[at + 2..at + 66])
  }

  /** What stands before the point for a secp256k1 key: algorithm, curve and bit string headers. */
  const HEADER: seq<Byte> := [0x30, 0x56, 0x30, 0x10, 0x06, 0x07, 0x2a, 0x86, 0x48, 0xce, 0x3d, 0x02, 0x01,
                              0x06, 0x05, 0x2b, 0x81, 0x04, 0x00, 0x0a, 0x03, 0x42, 0x00]

  function Spki(x: seq<Byte>, y: seq<Byte>): seq<Byte> { HEADER + [4] + x + y }

  /** Compression of a point given by its coordinates. */
  function Compress(x: seq<Byte>, y: seq<Byte>): string
    requires y != []
  {
    (if y[|y| - 1] % 2 == 0 then "02" else "03") + BytesToHex(x)
  }

  lemma {:induction false} BytesToHexConcat(a: seq<Byte>, b: seq<Byte>)
    ensures BytesToHex(a + b) == BytesToHex(a) + BytesToHex(b)
  {
    if b == [] {
      assert a + b == a;
    } else {
      assert (a + b)[..|a + b| - 1] == a + b[..|b| - 1];
      BytesToHexConcat(a, b[..|b| - 1]);
    }
  }

  lemma {:induction false} BytesToHexAt(bytes: seq<Byte>, k: nat)
    requires k < |bytes|
    ensures BytesToHex(bytes)[2 * k] == HexChar(bytes[k] / 16) && BytesToHex(bytes)[2 * k + 1] == HexChar(bytes[k] % 16)
  {
    if k < |bytes| - 1 { BytesToHexAt(bytes[..|bytes| - 1], k); }
  }

  /** The end of the header holds no tag at any offset, so the search stops at the point's. */
  lemma TagAfterHeader(rest: seq<Byte>)
    ensures IndexOfTag(BytesToHex(HEADER + [4] + rest), 40) == 46
  {
    hide BytesToHex;
    var bytes := HEADER + [4] + rest;
    var hex := BytesToHex(bytes);
    BytesToHexAt(bytes, 20);
    BytesToHexAt(bytes, 21);
    BytesToHexAt(bytes, 22);
    BytesToHexAt(bytes, 23);
    assert hex[40] == '0' && hex[41] == '3' && hex[42] == '4' && hex[43] == '2' && hex[44] == '0' && hex[45] == '0';
    assert hex[46] == '0' && hex[47] == '4';
    forall i: nat | 40 <= i < 46 ensures !TagHere(hex, i) {
      assert hex[i..i + 2][0] == hex[i] && hex[i..i + 2][1] == hex[i + 1];
    }
    assert hex[46..48] == "04";
    assert TagHere(hex, 46);
  }

  lemma HexOfParts(x: seq<Byte>, y: seq<Byte>)
    requires |x| == 32 && |y| == 32
    ensures BytesToHex(Spki(x, y))[48..112] == BytesToHex(x)
  {
    hide BytesToHex;
    BytesToHexConcat(HEADER + [4] + x, y);
    BytesToHexConcat(HEADER + [4], x);
  }

  lemma LastOctet(x: seq<Byte>, y: seq<Byte>)
    requires |x| == 32 && |y| == 32
    ensures var hex := BytesToHex(Spki(x, y)); 16 * Digit(hex[174]) + Digit(hex[175]) == y[31]
  {
    hide BytesToHex;
    BytesToHexAt(Spki(x, y), 87);
    assert Spki(x, y)[87] == y[31];
    DigitOfHexChar(y[31] / 16);
    DigitOfHexChar(y[31] % 16);
  }

  /** From a secp256k1 key the extractor returns exactly the compressed point. */
  lemma ExtractsThePoint(x: seq<Byte>, y: seq<Byte>)
    requires |x| == 32 && |y| == 32
    ensures ExtractCompressedPublicKey(Spki(x, y)) == Key(Compress(x, y))
  {
    hide BytesToHex, Digit, IndexOfTag;
    assert Spki(x, y) == HEADER + [4] + (x + y);
    TagAfterHeader(x + y);
    HexOfParts(x, y);
    LastOctet(x, y);
    hide Spki;
  }

  lemma {:induction false} BytesToHexInjective(a: seq<Byte>, b: seq<Byte>)
    requires BytesToHex(a) == BytesToHex(b)
    ensures a == b
  {
    assert |a| == |b|;
    forall k: nat | k < |a| ensures a[k] == b[k] {
      BytesToHexAt(a, k);
      BytesToHexAt(b, k);
      DigitOfHexChar(a[k] / 16);
      DigitOfHexChar(a[k] % 16);
      DigitOfHexChar(b[k] / 16);
      DigitOfHexChar(b[k] % 16);
    }
  }

  /** The prime of the field secp256k1 is over. */
  const P: nat := 0xFFFFFFFF_FFFFFFFF_FFFFFFFF_FFFFFFFF_FFFFFFFF_FFFFFFFF_FFFFFFFE_FFFFFC2F

  lemma LastByteParity(bytes: seq<Byte>)
    requires bytes != []
    ensures BytesValue(bytes) % 2 == bytes[|bytes| - 1] % 2
  {
  }

  /** Two keys compress alike exactly when they share x and the parity of y; so the two points with one x are told apart. */
  lemma CompressionTellsApart(x: seq<Byte>, y: seq<Byte>, x': seq<Byte>, y': seq<Byte>)
    requires |x| == |y| == |x'| == |y'| == 32
    ensures Compress(x, y) == Compress(x', y') <==> x == x' && BytesValue(y) % 2 == BytesValue(y') % 2
    ensures BytesValue(y) + BytesValue(y') == P ==> Compress(x, y) != Compress(x', y')
  {
    LastByteParity(y);
    LastByteParity(y');
    var c, c' := Compress(x, y), Compress(x', y');
    assert c[2..] == BytesToHex(x) && c'[2..] == BytesToHex(x');
    assert c[1] == (if y[31] % 2 == 0 then '2' else '3') && c'[1] == (if y'[31] % 2 == 0 then '2' else '3');
    if c == c' { BytesToHexInjective(x, x'); }
  }

  predicate ReadsTag(hex: string, i: nat) { i + 1 < |hex| && hex[i] == '0' && hex[i + 1] == '4' }

  /** The first place from the fortieth digit on where the tag of an uncompressed point stands. */
  ghost predicate FirstTag(hex: string, i: nat) {
    40 <= i && ReadsTag(hex, i) && forall j: nat | 40 <= j < i :: !ReadsTag(hex, j)
  }

  lemma TagByDigits(hex: string, i: nat)
    ensures TagHere(hex, i) <==> ReadsTag(hex, i)
  {
    if i + 2 <= |hex| { assert hex[i..i + 2] == [hex[i], hex[i + 1]]; }
  }

  /** The key is a prefix and the 64 digits after the tag, of the 128 that follow it. */
  predicate KeyAt(hex: string, key: string, i: nat) {
    i + 130 <= |hex| && |key| == 66 && key[2..] == hex[i + 2..i + 66]
  }

  /**
   * Whatever the input, the search stops at the first tag from the fortieth digit on; there is no key without one, nor
   * when fewer than 128 digits follow it, and else the key has the 64 that follow it.
   */
  lemma RefusedExactlyWhen(spki: seq<Byte>)
    ensures var hex := BytesToHex(spki);
            && (ExtractCompressedPublicKey(spki) == Bad(NoPoint) <==> forall i: nat | 40 <= i :: !ReadsTag(hex, i))
            && (ExtractCompressedPublicKey(spki) == Bad(ShortPoint) <==> exists i: nat :: FirstTag(hex, i) && |hex| < i + 130)
            && forall key: string :: ExtractCompressedPublicKey(spki) == Key(key) ==> exists i: nat :: FirstTag(hex, i) && KeyAt(hex, key, i)
  {
    hide BytesToHex, TagHere;
    var hex := BytesToHex(spki);
    var at := IndexOfTag(hex, 40);
    forall i: nat ensures TagHere(hex, i) <==> ReadsTag(hex, i) { TagByDigits(hex, i); }
    if at >= 0 {
      var i: nat := at;
      OneFirstTag(hex, i);
      if i + 130 <= |hex| { KeyFromTag(spki, hex, i); }
    }
  }

  lemma OneFirstTag(hex: string, i: nat)
    requires FirstTag(hex, i)
    ensures forall j: nat | FirstTag(hex, j) :: j == i
  {
    forall j: nat | FirstTag(hex, j) ensures j == i {
      assert !(i < j) && !(j < i);
    }
  }

  lemma KeyFromTag(spki: seq<Byte>, hex: string, i: nat)
    requires hex == BytesToHex(spki) && IndexOfTag(hex, 40) == i && i + 130 <= |hex|
    ensures ExtractCompressedPublicKey(spki).Key? && KeyAt(hex, ExtractCompressedPublicKey(spki).hex, i)
  {
    hide BytesToHex, IndexOfTag;
    var key := ExtractCompressedPublicKey(spki).hex;
    assert key[2..] == hex[i + 2..i + 66];
  }
}
