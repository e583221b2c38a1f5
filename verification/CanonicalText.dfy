/** What the canonical printer writes, in plain text: the words, the separators, the escapes, the order. */
module CanonicalText {
  import opened Text
  import opened Json
  import opened Tokens
  import opened Canonical

  // ---------- composed values ----------

  /** Texts one after the other with a separator between each two. */
  ghost function Joined(parts: seq<Text>, separator: Text): Text {
    if parts == [] then []
    else if |parts| == 1 then parts[0]
    else Joined(parts[..|parts| - 1], separator) + separator + parts[|parts| - 1]
  }

  lemma {:induction false} JoinedFront(parts: seq<Text>, separator: Text)
    requires |parts| >= 2
    ensures Joined(parts, separator) == parts[0] + (separator + Joined(parts[1..], separator))
  {
    var n := |parts| - 1;
    if n == 1 {
      assert parts[..1] == [parts[0]] && parts[1..] == [parts[1]];
      Assoc(parts[0], separator, parts[1]);
    } else {
      JoinedFront(parts[..n], separator);
      assert parts[..n][1..] == parts[1..][..n - 1];
      var middle := Joined(parts[1..][..n - 1], separator);
      Regrouped(parts[0], separator, middle, separator, parts[n]);
    }
  }

  lemma Regrouped(a: Text, b: Text, c: Text, d: Text, e: Text)
    ensures (a + (b + c)) + d + e == a + (b + ((c + d) + e))
  {
    Assoc(a, b + c, d);
    Assoc(a, (b + c) + d, e);
    Assoc(b, c, d);
    Assoc(b, c + d, e);
  }

  ghost function ElementTexts(es: seq<Json>): seq<Text> {
    seq(|es|, i requires 0 <= i < |es| => Canonicalize(es[i]))
  }

  ghost function MemberTexts(ms: seq<Member>): seq<Text> {
    seq(|ms|, i requires 0 <= i < |ms| => Quoted(ms[i].key) + (Ascii(":") + Canonicalize(ms[i].value)))
  }

  lemma {:induction false} ElementsJoined(es: seq<Json>, parent: Json)
    requires forall i | 0 <= i < |es| :: es[i] < parent
    ensures PrintElems(es, parent) == Joined(ElementTexts(es), Ascii(","))
    decreases |es|
  {
    hide Canonicalize;
    if |es| >= 2 {
      ElementsJoined(es[1..], parent);
      assert ElementTexts(es)[1..] == ElementTexts(es[1..]);
      JoinedFront(ElementTexts(es), Ascii(","));
      assert Ascii(",") == [COMMA];
    }
  }

  lemma {:induction false} MembersJoined(ms: seq<Member>, parent: Json)
    requires forall m | m in ms :: m.value < parent
    ensures PrintMembers(ms, parent) == Joined(MemberTexts(ms), Ascii(","))
    decreases |ms|
  {
    hide Canonicalize;
    assert Ascii(",") == [COMMA] && Ascii(":") == [COLON];
    if |ms| >= 2 {
      MembersJoined(ms[1..], parent);
      assert MemberTexts(ms)[1..] == MemberTexts(ms[1..]);
      JoinedFront(MemberTexts(ms), Ascii(","));
    }
  }

  /** An array prints its elements in place, between brackets, with commas between them. */
  lemma ArraysPrintInPlace(es: seq<Json>)
    ensures Canonicalize(Arr(es)) == Ascii("[") + Joined(ElementTexts(es), Ascii(",")) + Ascii("]")
  {
    ElementsJoined(es, Arr(es));
    assert Ascii("[") == [OPEN_ARRAY] && Ascii("]") == [CLOSE_ARRAY];
  }

  /**
   * An object prints all its members between braces, with commas between them, a key that is a proper beginning
   * of another or has the smaller code unit at the first difference coming first.
   */
  lemma ObjectsPrintInKeyOrder(ms: seq<Member>) returns (ps: seq<Member>)
    requires DistinctKeys(ms)
    ensures multiset(ps) == multiset(ms) && InKeyOrder(ps)
    ensures Canonicalize(Obj(ms)) == Ascii("{") + Joined(MemberTexts(ps), Ascii(",")) + Ascii("}")
  {
    hide InKeyOrder;
    SortedInKeyOrder(ms);
    SortMembers(ms);
    ps := Sort(ms);
    MembersJoined(ps, Obj(ms));
    assert Ascii("{") == [OPEN_OBJECT] && Ascii("}") == [CLOSE_OBJECT];
  }

  // ---------- simple values ----------

  lemma WordsPrintAsThemselves()
    ensures Canonicalize(Null) == Ascii("null") && Canonicalize(Undefined) == Ascii("undefined")
    ensures Canonicalize(Bool(true)) == Ascii("true") && Canonicalize(Bool(false)) == Ascii("false")
  {
  }

  ghost predicate AllDigits(t: Text) { forall k | 0 <= k < |t| :: Ascii("0")[0] <= t[k] <= Ascii("9")[0] }

  /** The number that digits stand for. */
  ghost function ValueOf(t: Text): int {
    if t == [] then 0 else 10 * ValueOf(t[..|t| - 1]) + t[|t| - 1] as int - Ascii("0")[0] as int
  }

  /** Digits without a leading zero, except for zero itself. */
  ghost predicate IsDecimalOf(t: Text, n: nat) {
    t != [] && AllDigits(t) && ValueOf(t) == n && (t[0] == Ascii("0")[0] ==> |t| == 1)
  }

  lemma {:induction false} DecimalDigits(n: nat)
    ensures IsDecimalOf(Decimal(n), n) && (n > 0 ==> Decimal(n)[0] != Ascii("0")[0])
  {
    var t := Decimal(n);
    if n < 10 {
      assert ValueOf(t[..0]) == 0;
    } else {
      DecimalDigits(n / 10);
      assert t[..|t| - 1] == Decimal(n / 10);
    }
  }

  /** An integer prints as its decimal digits, after a minus sign if it is negative. */
  lemma IntegersPrintInDecimal(i: SafeInt) returns (digits: Text)
    ensures IsDecimalOf(digits, if i < 0 then -i else i)
    ensures Canonicalize(Int(i)) == (if i < 0 then Ascii("-") else []) + digits
  {
    digits := Decimal(if i < 0 then -i else i);
    DecimalDigits(if i < 0 then -i else i);
    assert Ascii("-") == [MINUS];
  }

  // ---------- strings ----------

  const SPECIAL: Text := [8, 9, 10, 12, 13, 34, 92]
  const LETTERS := "btnfr\"\\"
  const HEX := "0123456789abcdef"

  /** How one code unit is written, by section 7 of RFC 8259, with the shortest escape and lower-case digits. */
  ghost predicate WrittenAs(u: Unit, t: Text) {
    if u in SPECIAL then
      exists k: nat :: k < |SPECIAL| && SPECIAL[k] == u && t == Ascii("\\") + [Ascii(LETTERS)[k]]
    else if u < 0x20 || 0xD800 <= u < 0xE000 then
      exists a: nat, b: nat, c: nat, d: nat ::
        && a < 16 && b < 16 && c < 16 && d < 16 && ((a * 16 + b) * 16 + c) * 16 + d == u
        && t == Ascii("\\u") + [Ascii(HEX)[a], Ascii(HEX)[b], Ascii(HEX)[c], Ascii(HEX)[d]]
    else t == [u]
  }

  lemma HexDigitIs(d: nat)
    requires d < 16
    ensures HexDigit(d) == Ascii(HEX)[d]
  {
  }

  lemma SpecialUnit(k: nat)
    requires k < |SPECIAL|
    ensures EscapeUnit(SPECIAL[k]) == Ascii("\\") + [Ascii(LETTERS)[k]]
  {
  }

  lemma UnicodeUnit(u: Unit, a: nat, b: nat, c: nat, d: nat)
    requires u !in SPECIAL && (u < 0x20 || 0xD800 <= u < 0xE000)
    requires a == u / 4096 && b == u / 256 % 16 && c == u / 16 % 16 && d == u % 16
    ensures EscapeUnit(u) == Ascii("\\u") + [Ascii(HEX)[a], Ascii(HEX)[b], Ascii(HEX)[c], Ascii(HEX)[d]]
  {
    hide HexDigit;
    HexDigitIs(a);
    HexDigitIs(b);
    HexDigitIs(c);
    HexDigitIs(d);
    Plain(u);
    assert Ascii("\\u") == [BACKSLASH, 117];
  }

  lemma Plain(u: Unit)
    requires u !in SPECIAL
    ensures EscapeUnit(u) == if u < 0x20 || 0xD800 <= u < 0xE000 then UnicodeEscape(u) else [u]
  {
    assert SPECIAL[0] == 8 && SPECIAL[1] == 9 && SPECIAL[2] == 10 && SPECIAL[3] == 12 && SPECIAL[4] == 13;
    assert SPECIAL[5] == 34 && SPECIAL[6] == 92;
  }

  lemma UnitsAreWritten(u: Unit)
    ensures WrittenAs(u, EscapeUnit(u))
  {
    hide EscapeUnit, Ascii;
    if u in SPECIAL {
      var k: nat :| k < |SPECIAL| && SPECIAL[k] == u;
      SpecialUnit(k);
    } else if u < 0x20 || 0xD800 <= u < 0xE000 {
      HexDigitRead(u);
      UnicodeUnit(u, u / 4096, u / 256 % 16, u / 16 % 16, u % 16);
    } else {
      Plain(u);
    }
  }

  ghost predicate PairAt(s: Text, k: nat) {
    k + 1 < |s| && 0xD800 <= s[k] < 0xDC00 && 0xDC00 <= s[k + 1] < 0xE000
  }

  /** Piece by piece: a surrogate pair as it is, every other code unit as it is written. */
  ghost predicate SpelledBy(s: Text, parts: seq<Text>, k: nat)
    decreases |parts|
  {
    if k >= |s| then k == |s| && parts == []
    else
      && parts != []
      && if PairAt(s, k) then parts[0] == s[k..k + 2] && SpelledBy(s, parts[1..], k + 2)
         else WrittenAs(s[k], parts[0]) && SpelledBy(s, parts[1..], k + 1)
  }

  lemma {:induction false} Spelled(s: Text, k: nat) returns (parts: seq<Text>)
    requires k <= |s|
    ensures SpelledBy(s, parts, k) && Joined(parts, []) == Escape(s[k..])
    decreases |s| - k
  {
    hide WrittenAs, EscapeUnit;
    parts := [];
    if k < |s| {
      var n := if PairAt(s, k) then k + 2 else k + 1;
      var rest := Spelled(s, n);
      var first := if PairAt(s, k) then s[k..k + 2] else EscapeUnit(s[k]);
      if !PairAt(s, k) { UnitsAreWritten(s[k]); }
      parts := [first] + rest;
      assert parts[1..] == rest && s[k..][n - k..] == s[n..];
      assert PairAt(s, k) ==> first == [s[k], s[k + 1]];
      if rest != [] {
        JoinedFront(parts, []);
        assert [] + Joined(rest, []) == Joined(rest, []);
      } else {
        assert Escape(s[n..]) == [];
      }
    }
  }

  /** A string prints between quotes, code unit by code unit. */
  lemma StringsPrintEscaped(s: Text) returns (parts: seq<Text>)
    ensures SpelledBy(s, parts, 0)
    ensures Canonicalize(Str(s)) == Ascii("\"") + Joined(parts, []) + Ascii("\"")
  {
    parts := Spelled(s, 0);
    assert s[0..] == s;
    assert Ascii("\"") == [QUOTE];
  }
}
