/** Strings as the source's runtime has them: sequences of UTF-16 code units. */
module Text {
  type Unit = u: int | 0 <= u < 0x10000
  type Text = seq<Unit>

  /** The code units of an ASCII literal. */
  function Ascii(s: string): (t: Text)
    ensures |t| == |s|
  {
    seq(|s|, i requires 0 <= i < |s| => (s[i] as int) % 0x10000)
  }

  lemma Assoc(a: Text, b: Text, c: Text)
    ensures (a + b) + c == a + (b + c)
  {
  }

  lemma Split(s: Text, n: nat)
    requires n <= 2 && n <= |s|
    ensures n == 1 ==> [s[0]] + s[1..] == s
    ensures n == 2 ==> [s[0], s[1]] + s[2..] == s
  {
  }

  /** Order by code units, the order of the runtime's default array sort. */
  predicate Less(a: Text, b: Text) {
    if b == [] then false
    else if a == [] then true
    else if a[0] != b[0] then a[0] < b[0]
    else Less(a[1..], b[1..])
  }

  lemma {:induction false} LessIrreflexive(a: Text)
    ensures !Less(a, a)
  {
    if a != [] { LessIrreflexive(a[1..]); }
  }

  lemma {:induction false} LessTransitive(a: Text, b: Text, c: Text)
    requires Less(a, b) && Less(b, c)
    ensures Less(a, c)
  {
    if a != [] && a[0] == b[0] == c[0] { LessTransitive(a[1..], b[1..], c[1..]); }
  }

  lemma {:induction false} LessTotal(a: Text, b: Text)
    ensures Less(a, b) || Less(b, a) || a == b
  {
    if a != [] && b != [] && a[0] == b[0] {
      LessTotal(a[1..], b[1..]);
      assert a == [a[0]] + a[1..] && b == [b[0]] + b[1..];
    }
  }

  /** The first k code units are the same. */
  ghost predicate AgreeUpTo(a: Text, b: Text, k: nat) {
    k <= |a| && k <= |b| && a[..k] == b[..k]
  }

  /** a comes first: it is a proper beginning of b, or its code unit is smaller where they first differ. */
  ghost predicate ComesFirst(a: Text, b: Text) {
    || (|a| < |b| && AgreeUpTo(a, b, |a|))
    || exists k: nat :: AgreeUpTo(a, b, k) && k < |a| && k < |b| && a[k] < b[k]
  }

  lemma AgreeShifted(a: Text, b: Text, k: nat)
    requires a != [] && b != [] && a[0] == b[0]
    ensures AgreeUpTo(a[1..], b[1..], k) <==> AgreeUpTo(a, b, k + 1)
  {
    var c, d := a[1..], b[1..];
    if k <= |c| && k <= |d| {
      assert a[..k + 1] == [a[0]] + c[..k] && b[..k + 1] == [b[0]] + d[..k];
      assert c[..k] == a[..k + 1][1..] && d[..k] == b[..k + 1][1..];
    }
  }

  /** The recursive order is the order by the first difference. */
  lemma {:induction false} LessExactlyWhenFirst(a: Text, b: Text)
    ensures Less(a, b) <==> ComesFirst(a, b)
  {
    if a != [] && b != [] && a[0] == b[0] {
      var c, d := a[1..], b[1..];
      LessExactlyWhenFirst(c, d);
      AgreeShifted(a, b, |c|);
      if k: nat :| AgreeUpTo(c, d, k) && k < |c| && k < |d| && c[k] < d[k] {
        AgreeShifted(a, b, k);
        assert a[k + 1] < b[k + 1];
      }
      if k: nat :| AgreeUpTo(a, b, k) && k < |a| && k < |b| && a[k] < b[k] {
        AgreeShifted(a, b, k - 1);
        assert c[k - 1] < d[k - 1];
      }
    } else if a != [] && b != [] {
      assert AgreeUpTo(a, b, 0);
      forall k: nat | k > 0 ensures !AgreeUpTo(a, b, k) {
        assert k <= |a| && k <= |b| ==> a[..k][0] == a[0] && b[..k][0] == b[0];
      }
    }
  }
}
