/** The reader inverts the printer, and printing decides equality of values. */
module CanonicalForm {
  import opened Text
  import opened Json
  import opened Options
  import opened Tokens
  import opened Canonical

  /** What may follow a value inside a larger text. */
  ghost predicate Delimited(rest: Text) {
    rest == [] || rest[0] == COMMA || rest[0] == CLOSE_ARRAY || rest[0] == CLOSE_OBJECT
  }

  lemma ReadPrintedWord(word: Text, v: Json, rest: Text)
    requires word != []
    ensures ReadWord(word, v, word + rest) == Some((v, rest))
  {
    assert (word + rest)[..|word|] == word && (word + rest)[|word|..] == rest;
  }

  lemma ReadPrintedString(s: Text, rest: Text)
    ensures var t := Quoted(s) + rest;
            t[0] == QUOTE && ReadBody(t[1..]) == Some((s, rest))
  {
    var q := [QUOTE] + rest;
    ReadEscaped(s, rest);
    Assoc([QUOTE] + Escape(s), [QUOTE], rest);
    Assoc([QUOTE], Escape(s), q);
    assert ([QUOTE] + (Escape(s) + q))[1..] == Escape(s) + q;
  }

  lemma CanonicalHead(v: Json)
    ensures Canonicalize(v) != []
    ensures Canonicalize(v)[0] != CLOSE_ARRAY && Canonicalize(v)[0] != CLOSE_OBJECT
  {
  }

  lemma Bracketed(open: Unit, body: Text, close: Unit, rest: Text)
    ensures ([open] + body + [close]) + rest == [open] + (body + ([close] + rest))
    ensures ([open] + body + [close] + rest)[1..] == body + ([close] + rest)
  {
    Assoc([open] + body, [close], rest);
    Assoc([open], body, [close] + rest);
  }

  /** Unique readability: whatever follows, the value is read back and nothing more. */
  lemma {:induction false} ReadPrinted(v: Json, rest: Text)
    requires WellFormed(v) && Delimited(rest)
    ensures Read(Canonicalize(v) + rest) == Some((Norm(v), rest))
    decreases v, 1
  {
    match v
    case Undefined => ReadPrintedWord(UNDEFINED_WORD, v, rest);
    case Null => ReadPrintedWord(NULL_WORD, v, rest);
    case Bool(b) => ReadPrintedWord(if b then TRUE_WORD else FALSE_WORD, v, rest);
    case Int(i) => ReadPrintedInt(i, rest);
    case Str(s) => ReadPrintedString(s, rest);
    case Arr(es) => ReadPrintedArray(v, rest);
    case Obj(ms) => ReadPrintedObject(v, rest);
  }

  lemma {:induction false} ReadPrintedArray(v: Json, rest: Text)
    requires v.Arr? && WellFormed(v) && Delimited(rest)
    ensures Read(Canonicalize(v) + rest) == Some((Norm(v), rest))
    decreases v, 0, 2, 0
  {
    var es := v.elems;
    var body := PrintElems(es, v);
    var tail := body + ([CLOSE_ARRAY] + rest);
    Bracketed(OPEN_ARRAY, body, CLOSE_ARRAY, rest);
    assert Read(Canonicalize(v) + rest) == ReadArray(tail);
    if es == [] {
      assert tail == [CLOSE_ARRAY] + rest && tail[1..] == rest;
    } else {
      CanonicalHead(es[0]);
      ReadPrintedElems(es, v, rest);
      assert tail[0] == Canonicalize(es[0])[0];
    }
  }

  lemma {:induction false} ReadPrintedElems(es: seq<Json>, parent: Json, rest: Text)
    requires es != [] && forall i | 0 <= i < |es| :: es[i] < parent && WellFormed(es[i])
    requires Delimited(rest)
    ensures ReadElems(PrintElems(es, parent) + ([CLOSE_ARRAY] + rest)) == Some((NormElems(es, parent), rest))
    decreases parent, 0, 0, |es|
  {
    var close := [CLOSE_ARRAY] + rest;
    if |es| == 1 {
      ReadPrinted(es[0], close);
      assert close[1..] == rest;
      assert NormElems(es, parent) == [Norm(es[0])];
    } else {
      var more := PrintElems(es[1..], parent) + close;
      var tail := [COMMA] + more;
      ReadPrintedElems(es[1..], parent, rest);
      ReadPrinted(es[0], tail);
      Assoc(Canonicalize(es[0]), [COMMA] + PrintElems(es[1..], parent), close);
      Assoc([COMMA], PrintElems(es[1..], parent), close);
      assert tail[1..] == more;
    }
  }

  lemma {:induction false} ReadPrintedObject(v: Json, rest: Text)
    requires v.Obj? && WellFormed(v) && Delimited(rest)
    ensures Read(Canonicalize(v) + rest) == Some((Norm(v), rest))
    decreases v, 0, 2, 0
  {
    SortMembers(v.members);
    var ms := Sort(v.members);
    var body := PrintMembers(ms, v);
    var tail := body + ([CLOSE_OBJECT] + rest);
    Bracketed(OPEN_OBJECT, body, CLOSE_OBJECT, rest);
    assert Read(Canonicalize(v) + rest) == ReadObject(tail);
    if ms == [] {
      assert tail == [CLOSE_OBJECT] + rest && tail[1..] == rest;
    } else {
      forall i | 0 <= i < |ms| ensures ms[i].value < v && WellFormed(ms[i].value) {
        assert ms[i] in v.members;
      }
      ReadPrintedMembers(ms, v, rest);
      assert tail[0] == QUOTE;
    }
  }

  lemma {:induction false} ReadPrintedMember(m: Member, parent: Json, rest: Text)
    requires m.value < parent && WellFormed(m.value) && Delimited(rest)
    ensures ReadMember(PrintMember(m, parent) + rest) == Some((Member(m.key, Norm(m.value)), rest))
    decreases parent, 0, 0, 0
  {
    var value := Canonicalize(m.value) + rest;
    var tail := [COLON] + value;
    ReadPrintedString(m.key, tail);
    ReadPrinted(m.value, rest);
    Assoc(Quoted(m.key), [COLON] + Canonicalize(m.value), rest);
    Assoc([COLON], Canonicalize(m.value), rest);
    assert tail[1..] == value;
  }

  lemma {:induction false} ReadPrintedMembers(ms: seq<Member>, parent: Json, rest: Text)
    requires ms != [] && forall i | 0 <= i < |ms| :: ms[i].value < parent && WellFormed(ms[i].value)
    requires Delimited(rest)
    ensures ReadMembers(PrintMembers(ms, parent) + ([CLOSE_OBJECT] + rest))
         == Some((NormMembers(ms, parent), rest))
    decreases parent, 0, 1, |ms|
  {
    var close := [CLOSE_OBJECT] + rest;
    if |ms| == 1 {
      ReadPrintedMember(ms[0], parent, close);
      assert close[1..] == rest;
      assert NormMembers(ms, parent) == [Member(ms[0].key, Norm(ms[0].value))];
    } else {
      var more := PrintMembers(ms[1..], parent) + close;
      var tail := [COMMA] + more;
      ReadPrintedMembers(ms[1..], parent, rest);
      ReadPrintedMember(ms[0], parent, tail);
      Assoc(PrintMember(ms[0], parent), [COMMA] + PrintMembers(ms[1..], parent), close);
      Assoc([COMMA], PrintMembers(ms[1..], parent), close);
      assert tail[1..] == more;
    }
  }

  // ---------- equality ----------

  lemma KeysOfNormMembers(ms: seq<Member>, parent: Json)
    requires forall m | m in ms :: m.value < parent
    ensures StrictlySorted(ms) ==> StrictlySorted(NormMembers(ms, parent))
  {
  }

  /** Position by position, two sorted member lists normalise alike. */
  ghost predicate AlikeMembers(ms: seq<Member>, ns: seq<Member>) {
    |ms| == |ns| && forall i | 0 <= i < |ms| :: ms[i].key == ns[i].key && Norm(ms[i].value) == Norm(ns[i].value)
  }

  lemma NormObject(v: Json, w: Json)
    requires v.Obj? && w.Obj?
    ensures Norm(v) == Norm(w) <==> AlikeMembers(Sort(v.members), Sort(w.members))
  {
    SortMembers(v.members);
    SortMembers(w.members);
    var ms, ns := Sort(v.members), Sort(w.members);
    var a, b := NormMembers(ms, v), NormMembers(ns, w);
    if AlikeMembers(ms, ns) {
      assert a == b;
    }
    if a == b {
      forall i | 0 <= i < |ms| ensures ms[i].key == ns[i].key && Norm(ms[i].value) == Norm(ns[i].value) {
        assert a[i] == b[i];
      }
    }
  }

  lemma NormArray(v: Json, w: Json)
    requires v.Arr? && w.Arr?
    ensures Norm(v) == Norm(w) <==>
            |v.elems| == |w.elems| && forall i | 0 <= i < |v.elems| :: Norm(v.elems[i]) == Norm(w.elems[i])
  {
    var a, b := NormElems(v.elems, v), NormElems(w.elems, w);
    if |a| == |b| && forall i | 0 <= i < |v.elems| :: Norm(v.elems[i]) == Norm(w.elems[i]) {
      assert a == b;
    }
    if a == b {
      forall i | 0 <= i < |v.elems| ensures Norm(v.elems[i]) == Norm(w.elems[i]) {
        assert a[i] == b[i];
      }
    }
  }

  lemma AtSameKey(ms: seq<Member>, i: nat, j: nat)
    requires DistinctKeys(ms) && i < |ms| && j < |ms| && ms[i].key == ms[j].key
    ensures i == j
  {
  }

  /** The same keys, and values that normalise alike under each. */
  ghost predicate Keywise(ms: seq<Member>, ns: seq<Member>) {
    && Keys(ms) == Keys(ns)
    && forall i, j | 0 <= i < |ms| && 0 <= j < |ns| && ms[i].key == ns[j].key ::
         Norm(ms[i].value) == Norm(ns[j].value)
  }

  lemma AlikeIsKeywise(ms: seq<Member>, ns: seq<Member>)
    requires DistinctKeys(ms) && DistinctKeys(ns) && AlikeMembers(Sort(ms), Sort(ns))
    ensures Keywise(ms, ns)
  {
    var a, b := Sort(ms), Sort(ns);
    SortMembers(ms);
    SortMembers(ns);
    SameKeySets(a, b);
    SortSorted(ms);
    SortedIsDistinct(a);
    forall i, j | 0 <= i < |ms| && 0 <= j < |ns| && ms[i].key == ns[j].key
      ensures Norm(ms[i].value) == Norm(ns[j].value)
    {
      AtSameKey(a, Place(a, ms[i]), Place(b, ns[j]));
    }
  }

  lemma KeywiseIsAlike(ms: seq<Member>, ns: seq<Member>)
    requires DistinctKeys(ms) && DistinctKeys(ns) && Keywise(ms, ns)
    ensures AlikeMembers(Sort(ms), Sort(ns))
  {
    var a, b := Sort(ms), Sort(ns);
    SortMembers(ms);
    SortMembers(ns);
    SortSorted(ms);
    SortSorted(ns);
    SortedKeysUnique(a, b);
    forall p | 0 <= p < |a| ensures Norm(a[p].value) == Norm(b[p].value) {
      assert a[p] in ms && b[p] in ns;
      var i := Place(ms, a[p]);
      var j := Place(ns, b[p]);
    }
  }

  ghost function Place(ms: seq<Member>, m: Member): (i: nat)
    requires m in ms
    ensures i < |ms| && ms[i] == m
  {
    var i :| 0 <= i < |ms| && ms[i] == m; i
  }

  lemma SortedIsDistinct(ms: seq<Member>)
    requires StrictlySorted(ms)
    ensures DistinctKeys(ms)
  {
    forall i, j | 0 <= i < j < |ms| ensures ms[i].key != ms[j].key {
      LessIrreflexive(ms[i].key);
    }
  }

  lemma SameKeySets(a: seq<Member>, b: seq<Member>)
    requires AlikeMembers(a, b)
    ensures Keys(a) == Keys(b)
  {
    forall m | m in a ensures m.key in Keys(b) { assert b[Place(a, m)] in b; }
    forall m | m in b ensures m.key in Keys(a) { assert a[Place(b, m)] in a; }
  }

  /** Values are equal exactly when they have one normal form. */
  lemma {:induction false} SameIffNorm(v: Json, w: Json)
    requires WellFormed(v) && WellFormed(w)
    ensures Same(v, w) <==> Norm(v) == Norm(w)
    decreases v
  {
    match (v, w)
    case (Arr(es), Arr(fs)) =>
      if |es| == |fs| {
        forall i | 0 <= i < |es| ensures Same(es[i], fs[i]) <==> Norm(es[i]) == Norm(fs[i]) {
          SameIffNorm(es[i], fs[i]);
        }
      }
      NormArray(v, w);
    case (Obj(ms), Obj(ns)) =>
      forall i, j | 0 <= i < |ms| && 0 <= j < |ns|
        ensures Same(ms[i].value, ns[j].value) <==> Norm(ms[i].value) == Norm(ns[j].value)
      {
        SameIffNorm(ms[i].value, ns[j].value);
      }
      if Keywise(ms, ns) { KeywiseIsAlike(ms, ns); }
      if AlikeMembers(Sort(ms), Sort(ns)) { AlikeIsKeywise(ms, ns); }
      NormObject(v, w);
    case (_, _) =>
  }

  /** A value and its normal form print alike. */
  lemma {:induction false} PrintNorm(v: Json)
    ensures WellFormed(v) ==> Canonicalize(Norm(v)) == Canonicalize(v)
    decreases v, 1
  {
    if WellFormed(v) {
      match v
      case Arr(es) => PrintNormElems(es, NormElems(es, v), v, Norm(v));
      case Obj(ms) =>
        SortMembers(ms);
        SortSorted(ms);
        var a := Sort(ms);
        var b := NormMembers(a, v);
        KeysOfNormMembers(a, v);
        SortFixed(b);
        forall m | m in a ensures m.value < v && WellFormed(m.value) {
          var i := Place(ms, m);
        }
        PrintNormMembers(a, b, v, Norm(v));
      case _ =>
    }
  }

  lemma {:induction false} PrintNormElems(es: seq<Json>, fs: seq<Json>, v: Json, w: Json)
    requires forall i | 0 <= i < |es| :: es[i] < v && WellFormed(es[i])
    requires |fs| == |es| && forall i | 0 <= i < |es| :: fs[i] == Norm(es[i]) && fs[i] < w
    ensures PrintElems(fs, w) == PrintElems(es, v)
    decreases v, 0, |es|
  {
    if es != [] {
      PrintNorm(es[0]);
      PrintNormElems(es[1..], fs[1..], v, w);
    }
  }

  lemma {:induction false} PrintNormMembers(ms: seq<Member>, ns: seq<Member>, v: Json, w: Json)
    requires forall m | m in ms :: m.value < v && WellFormed(m.value)
    requires |ns| == |ms| && forall m | m in ns :: m.value < w
    requires forall i | 0 <= i < |ms| :: ns[i] == Member(ms[i].key, Norm(ms[i].value))
    ensures PrintMembers(ns, w) == PrintMembers(ms, v)
    decreases v, 0, |ms|
  {
    if ms != [] {
      PrintNorm(ms[0].value);
      PrintNormMembers(ms[1..], ns[1..], v, w);
    }
  }

  /** Equal output says equal values and nothing else. */
  lemma CanonicalIffSame(v: Json, w: Json)
    requires WellFormed(v) && WellFormed(w)
    ensures Canonicalize(v) == Canonicalize(w) <==> Same(v, w)
  {
    SameIffNorm(v, w);
    if Canonicalize(v) == Canonicalize(w) {
      ReadPrinted(v, []);
      ReadPrinted(w, []);
      assert Canonicalize(v) + [] == Canonicalize(w) + [];
    }
    if Norm(v) == Norm(w) {
      PrintNorm(v);
      PrintNorm(w);
    }
  }

  /** Reordering the members of an object never changes the output. */
  lemma PermutedMembersPrintAlike(ms: seq<Member>, ns: seq<Member>)
    requires WellFormed(Obj(ms)) && multiset(ms) == multiset(ns)
    ensures Canonicalize(Obj(ms)) == Canonicalize(Obj(ns))
  {
    forall m ensures m in ms <==> m in ns {
      assert m in multiset(ms) <==> m in multiset(ns);
    }
    forall i, j | 0 <= i < j < |ns| && ns[i].key == ns[j].key ensures false {
      var p, q := Place(ms, ns[i]), Place(ms, ns[j]);
      AtSameKey(ms, p, q);
      RepeatedMember(ns, i, j);
      OnceInDistinct(ms, ns[i]);
    }
    forall j | 0 <= j < |ns| ensures WellFormed(ns[j].value) {
      var p := Place(ms, ns[j]);
    }
    forall i, j | 0 <= i < |ms| && 0 <= j < |ns| && ms[i].key == ns[j].key
      ensures Same(ms[i].value, ns[j].value)
    {
      AtSameKey(ms, i, Place(ms, ns[j]));
      SameIffNorm(ms[i].value, ns[j].value);
    }
    assert Keys(ms) == Keys(ns);
    CanonicalIffSame(Obj(ms), Obj(ns));
  }

  lemma RepeatedMember(ns: seq<Member>, i: nat, j: nat)
    requires i < j < |ns| && ns[i] == ns[j]
    ensures multiset(ns)[ns[i]] >= 2
  {
    assert ns == ns[..j] + [ns[j]] + ns[j + 1..];
    assert ns[i] in ns[..j];
  }

  lemma {:induction false} OnceInDistinct(ms: seq<Member>, m: Member)
    requires DistinctKeys(ms)
    ensures multiset(ms)[m] <= 1
  {
    if ms != [] {
      OnceInDistinct(ms[1..], m);
      assert ms == [ms[0]] + ms[1..];
      if m == ms[0] { assert m !in ms[1..]; }
    }
  }
}
