/**
 * The canonical printer of the evidence SDK and a reader for it. The reader inverts the
 * printer up to member order, so two values print alike exactly when they are equal.
 */
module Canonical {
  import opened Text
  import opened Json
  import opened Options
  import opened Tokens

  const COMMA: Unit := 44
  const COLON: Unit := 58
  const OPEN_ARRAY: Unit := 91
  const CLOSE_ARRAY: Unit := 93
  const OPEN_OBJECT: Unit := 123
  const CLOSE_OBJECT: Unit := 125

  const UNDEFINED_WORD: Text := [117, 110, 100, 101, 102, 105, 110, 101, 100]
  const NULL_WORD: Text := [110, 117, 108, 108]
  const TRUE_WORD: Text := [116, 114, 117, 101]
  const FALSE_WORD: Text := [102, 97, 108, 115, 101]

  // ---------- the printer ----------

  /** Objects print their members in key order, arrays their elements in place. */
  function Canonicalize(v: Json): Text
    decreases v, 1
  {
    match v
    case Undefined => UNDEFINED_WORD
    case Null => NULL_WORD
    case Bool(b) => if b then TRUE_WORD else FALSE_WORD
    case Int(i) => PrintInt(i)
    case Str(s) => Quoted(s)
    case Arr(es) => [OPEN_ARRAY] + PrintElems(es, v) + [CLOSE_ARRAY]
    case Obj(ms) => SortMembers(ms); [OPEN_OBJECT] + PrintMembers(Sort(ms), v) + [CLOSE_OBJECT]
  }

  /** Comma-separated elements of (part of) `parent`. */
  function PrintElems(es: seq<Json>, ghost parent: Json): Text
    requires forall i | 0 <= i < |es| :: es[i] < parent
    decreases parent, 0, |es|
  {
    if es == [] then []
    else if |es| == 1 then Canonicalize(es[0])
    else Canonicalize(es[0]) + ([COMMA] + PrintElems(es[1..], parent))
  }

  function PrintMember(m: Member, ghost parent: Json): Text
    requires m.value < parent
    decreases parent, 0, 0
  {
    Quoted(m.key) + ([COLON] + Canonicalize(m.value))
  }

  function PrintMembers(ms: seq<Member>, ghost parent: Json): Text
    requires forall m | m in ms :: m.value < parent
    decreases parent, 0, |ms|
  {
    if ms == [] then []
    else if |ms| == 1 then PrintMember(ms[0], parent)
    else PrintMember(ms[0], parent) + ([COMMA] + PrintMembers(ms[1..], parent))
  }

  // ---------- the reader ----------

  function Expect(word: Text, t: Text): (r: Option<Text>)
    ensures r.Some? ==> |r.value| == |t| - |word|
  {
    if |word| <= |t| && t[..|word|] == word then Some(t[|word|..]) else None
  }

  function ReadWord(word: Text, v: Json, t: Text): (r: Option<(Json, Text)>)
    requires word != []
    ensures r.Some? ==> |r.value.1| < |t|
  {
    match Expect(word, t)
    case None => None
    case Some(rest) => Some((v, rest))
  }

  /** Reads one value from the front of `t`. */
  function Read(t: Text): (r: Option<(Json, Text)>)
    ensures r.Some? ==> |r.value.1| < |t|
    decreases |t|, 1
  {
    if t == [] then None
    else if t[0] == 117 then ReadWord(UNDEFINED_WORD, Undefined, t)
    else if t[0] == 110 then ReadWord(NULL_WORD, Null, t)
    else if t[0] == 116 then ReadWord(TRUE_WORD, Bool(true), t)
    else if t[0] == 102 then ReadWord(FALSE_WORD, Bool(false), t)
    else if t[0] == QUOTE then
      (match ReadBody(t[1..])
       case None => None
       case Some(p) => Some((Str(p.0), p.1)))
    else if t[0] == OPEN_ARRAY then ReadArray(t[1..])
    else if t[0] == OPEN_OBJECT then ReadObject(t[1..])
    else
      match ReadInt(t)
      case None => None
      case Some(p) =>
        if -9007199254740991 <= p.0 <= 9007199254740991 then Some((Int(p.0), p.1)) else None
  }

  function ReadArray(t: Text): (r: Option<(Json, Text)>)
    ensures r.Some? ==> |r.value.1| <= |t|
    decreases |t|, 3
  {
    if t != [] && t[0] == CLOSE_ARRAY then Some((Arr([]), t[1..]))
    else
      match ReadElems(t)
      case None => None
      case Some(p) => Some((Arr(p.0), p.1))
  }

  /** Elements up to and past the closing bracket. */
  function ReadElems(t: Text): (r: Option<(seq<Json>, Text)>)
    ensures r.Some? ==> |r.value.1| <= |t|
    decreases |t|, 2
  {
    match Read(t)
    case None => None
    case Some(p) =>
      if p.1 == [] then None
      else if p.1[0] == CLOSE_ARRAY then Some(([p.0], p.1[1..]))
      else if p.1[0] != COMMA then None
      else
        match ReadElems(p.1[1..])
        case None => None
        case Some(q) => Some(([p.0] + q.0, q.1))
  }

  function ReadObject(t: Text): (r: Option<(Json, Text)>)
    ensures r.Some? ==> |r.value.1| <= |t|
    decreases |t|, 3
  {
    if t != [] && t[0] == CLOSE_OBJECT then Some((Obj([]), t[1..]))
    else
      match ReadMembers(t)
      case None => None
      case Some(p) => Some((Obj(p.0), p.1))
  }

  /** A quoted key, a colon and a value. */
  function ReadMember(t: Text): (r: Option<(Member, Text)>)
    ensures r.Some? ==> |r.value.1| < |t|
    decreases |t|, 0
  {
    if t == [] || t[0] != QUOTE then None
    else
      match ReadBody(t[1..])
      case None => None
      case Some(k) =>
        if k.1 == [] || k.1[0] != COLON then None
        else
          match Read(k.1[1..])
          case None => None
          case Some(v) => Some((Member(k.0, v.0), v.1))
  }

  function ReadMembers(t: Text): (r: Option<(seq<Member>, Text)>)
    ensures r.Some? ==> |r.value.1| <= |t|
    decreases |t|, 2
  {
    match ReadMember(t)
    case None => None
    case Some(p) =>
      if p.1 == [] then None
      else if p.1[0] == CLOSE_OBJECT then Some(([p.0], p.1[1..]))
      else if p.1[0] != COMMA then None
      else
        match ReadMembers(p.1[1..])
        case None => None
        case Some(q) => Some(([p.0] + q.0, q.1))
  }

  // ---------- normal form ----------

  /** The value with every object's members in key order. */
  ghost function Norm(v: Json): Json
    decreases v, 1
  {
    match v
    case Arr(es) => Arr(NormElems(es, v))
    case Obj(ms) => SortMembers(ms); Obj(NormMembers(Sort(ms), v))
    case _ => v
  }

  ghost function NormElems(es: seq<Json>, parent: Json): (r: seq<Json>)
    requires forall i | 0 <= i < |es| :: es[i] < parent
    ensures |r| == |es| && forall i | 0 <= i < |es| :: r[i] == Norm(es[i])
    decreases parent, 0, |es|
  {
    if es == [] then [] else [Norm(es[0])] + NormElems(es[1..], parent)
  }

  ghost function NormMembers(ms: seq<Member>, parent: Json): (r: seq<Member>)
    requires forall m | m in ms :: m.value < parent
    ensures |r| == |ms|
    ensures forall i | 0 <= i < |ms| :: r[i] == Member(ms[i].key, Norm(ms[i].value))
    decreases parent, 0, |ms|
  {
    if ms == [] then []
    else [Member(ms[0].key, Norm(ms[0].value))] + NormMembers(ms[1..], parent)
  }
}
