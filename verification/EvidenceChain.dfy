/**
 * The hash chain of the evidence SDK. The hash is any function on texts: a result that
 * needs it collision-free says so for the finitely many texts the chains feed to it.
 */
module EvidenceChain {
  import opened Text
  import opened Json
  import opened Options
  import opened Tokens
  import opened Canonical
  import opened CanonicalForm

  type Hash = Text -> Text

  datatype Event = Event(
    chainScope: Option<Text>,
    aggregateType: Text,
    aggregateId: Text,
    eventType: Text,
    payload: Json,
    payloadHash: Text,
    prevHash: Option<Text>)

  datatype VerifyResult =
    | Intact(chainLength: nat, headHash: Option<Text>)
    | Broken(failedAt: nat, expected: Text, actual: Text, length: nat)

  const SCOPE := Ascii("chainScope")
  const AGGREGATE_TYPE := Ascii("aggregateType")
  const AGGREGATE_ID := Ascii("aggregateId")
  const EVENT_TYPE := Ascii("eventType")
  const PAYLOAD := Ascii("payload")
  const PREV_HASH := Ascii("prevHash")

  function MakeChainScope(aggregateType: Text, aggregateId: Text): Text {
    aggregateType + [COLON] + aggregateId
  }

  /** The scope an event is hashed under. */
  function ScopeOf(e: Event): Text {
    match e.chainScope
    case Some(s) => s
    case None => MakeChainScope(e.aggregateType, e.aggregateId)
  }

  function HashOrNull(prev: Option<Text>): Json {
    match prev
    case Some(h) => Str(h)
    case None => Null
  }

  function HashedFields(e: Event, prev: Option<Text>): seq<Member> {
    [ Member(SCOPE, Str(ScopeOf(e))),
      Member(AGGREGATE_TYPE, Str(e.aggregateType)),
      Member(AGGREGATE_ID, Str(e.aggregateId)),
      Member(EVENT_TYPE, Str(e.eventType)),
      Member(PAYLOAD, e.payload),
      Member(PREV_HASH, HashOrNull(prev)) ]
  }

  /** The text that is hashed for an event after `prev`. */
  function Preimage(e: Event, prev: Option<Text>): Text {
    Canonicalize(Obj(HashedFields(e, prev)))
  }

  function HashEvent(h: Hash, e: Event, prev: Option<Text>): Text {
    h(Preimage(e, prev))
  }

  // ---------- what a preimage determines ----------

  /** The hashed fields agree, payloads up to member order. */
  ghost predicate SameContent(e: Event, f: Event) {
    && ScopeOf(e) == ScopeOf(f)
    && e.aggregateType == f.aggregateType
    && e.aggregateId == f.aggregateId
    && e.eventType == f.eventType
    && Same(e.payload, f.payload)
  }

  lemma FieldsWellFormed(e: Event, prev: Option<Text>)
    requires WellFormed(e.payload)
    ensures WellFormed(Obj(HashedFields(e, prev)))
  {
    var ms := HashedFields(e, prev);
    assert |ms[0].key| == 10 && |ms[1].key| == 13 && |ms[2].key| == 11;
    assert |ms[3].key| == 9 && |ms[4].key| == 7 && |ms[5].key| == 8;
  }

  lemma SameAt(ms: seq<Member>, ns: seq<Member>, k: nat)
    requires Same(Obj(ms), Obj(ns)) && k < |ms| && k < |ns| && ms[k].key == ns[k].key
    ensures Same(ms[k].value, ns[k].value)
  {
  }

  lemma SameFieldsBind(e: Event, p: Option<Text>, f: Event, q: Option<Text>)
    requires Same(Obj(HashedFields(e, p)), Obj(HashedFields(f, q)))
    ensures SameContent(e, f) && p == q
  {
    var ms, ns := HashedFields(e, p), HashedFields(f, q);
    SameAt(ms, ns, 0);
    SameAt(ms, ns, 1);
    SameAt(ms, ns, 2);
    SameAt(ms, ns, 3);
    SameAt(ms, ns, 4);
    SameAt(ms, ns, 5);
  }

  lemma SameContentFields(e: Event, p: Option<Text>, f: Event)
    requires WellFormed(Obj(HashedFields(e, p))) && SameContent(e, f)
    ensures Same(Obj(HashedFields(e, p)), Obj(HashedFields(f, p)))
  {
    SamePositionwise(HashedFields(e, p), HashedFields(f, p));
  }

  /** The hashed text determines the event's content and its predecessor's hash. */
  lemma PreimageBinds(e: Event, p: Option<Text>, f: Event, q: Option<Text>)
    requires WellFormed(e.payload) && WellFormed(f.payload)
    ensures Preimage(e, p) == Preimage(f, q) <==> SameContent(e, f) && p == q
  {
    hide Canonicalize, HashedFields;
    var v, w := Obj(HashedFields(e, p)), Obj(HashedFields(f, q));
    FieldsWellFormed(e, p);
    FieldsWellFormed(f, q);
    CanonicalIffSame(v, w);
    if Same(v, w) { SameFieldsBind(e, p, f, q); }
    if SameContent(e, f) && p == q { SameContentFields(e, p, f); }
  }

  lemma SamePositionwise(ms: seq<Member>, ns: seq<Member>)
    requires DistinctKeys(ms) && |ms| == |ns|
    requires forall k | 0 <= k < |ms| :: ms[k].key == ns[k].key && Same(ms[k].value, ns[k].value)
    ensures Same(Obj(ms), Obj(ns))
  {
    forall m | m in ms ensures m.key in Keys(ns) { assert ns[Place(ms, m)] in ns; }
    forall n | n in ns ensures n.key in Keys(ms) { assert ms[Place(ns, n)] in ms; }
    forall i, j | 0 <= i < |ms| && 0 <= j < |ns| && ms[i].key == ns[j].key
      ensures Same(ms[i].value, ns[j].value)
    {
      AtSameKey(ms, i, j);
    }
  }

  // ---------- verification ----------

  function PrevOf(events: seq<Event>, i: nat): Option<Text>
    requires i < |events|
  {
    if i == 0 then None else Some(events[i - 1].payloadHash)
  }

  /** The text hashed for event i when the chain is verified. */
  function PreimageAt(events: seq<Event>, i: nat): Text
    requires i < |events|
  {
    Preimage(events[i], PrevOf(events, i))
  }

  /** The stored hash of event i is the hash of its content after its predecessor's stored hash. */
  ghost predicate Linked(h: Hash, events: seq<Event>, i: nat)
    requires i < |events|
  {
    events[i].payloadHash == h(PreimageAt(events, i))
  }

  ghost predicate Verified(h: Hash, events: seq<Event>) {
    forall i | 0 <= i < |events| :: Linked(h, events, i)
  }

  /** i is the first event whose stored hash is wrong. */
  ghost predicate FailsAt(h: Hash, events: seq<Event>, i: nat) {
    i < |events| && !Linked(h, events, i) && forall j | 0 <= j < i :: Linked(h, events, j)
  }

  function Head(events: seq<Event>): Option<Text> {
    if events == [] then None else Some(events[|events| - 1].payloadHash)
  }

  method VerifyChain(h: Hash, events: seq<Event>) returns (r: VerifyResult)
    ensures r.Intact? <==> Verified(h, events)
    ensures r.Intact? ==> r == Intact(|events|, Head(events))
    ensures r.Broken? ==>
              && FailsAt(h, events, r.failedAt)
              && r.actual == events[r.failedAt].payloadHash != r.expected
              && r.expected == h(PreimageAt(events, r.failedAt))
              && r.length == |events|
  {
    var prevHash := None;
    for i := 0 to |events|
      invariant prevHash == if i == 0 then None else Some(events[i - 1].payloadHash)
      invariant forall j | 0 <= j < i :: Linked(h, events, j)
    {
      var event := events[i];
      var expected := HashEvent(h, event, prevHash);
      if expected != event.payloadHash {
        assert !Linked(h, events, i);
        return Broken(i, expected, event.payloadHash, |events|);
      }
      prevHash := Some(event.payloadHash);
    }
    return Intact(|events|, prevHash);
  }

  // ---------- what the hashes bind ----------

  ghost predicate Wf(events: seq<Event>) {
    forall e | e in events :: WellFormed(e.payload)
  }

  /** No text hashed for `a` collides with a different text hashed for `b`. */
  ghost predicate NoCollision(h: Hash, a: seq<Event>, b: seq<Event>) {
    forall i, j | 0 <= i < |a| && 0 <= j < |b| && h(PreimageAt(a, i)) == h(PreimageAt(b, j)) ::
      PreimageAt(a, i) == PreimageAt(b, j)
  }

  /** Equal hashes of two chains' events: equal content and equal predecessors. */
  lemma LinkBinds(h: Hash, a: seq<Event>, i: nat, b: seq<Event>, j: nat)
    requires i < |a| && j < |b| && Wf(a) && Wf(b) && NoCollision(h, a, b)
    requires Linked(h, a, i) && Linked(h, b, j) && a[i].payloadHash == b[j].payloadHash
    ensures SameContent(a[i], b[j]) && PrevOf(a, i) == PrevOf(b, j)
  {
    hide Canonicalize;
    PreimageBinds(a[i], PrevOf(a, i), b[j], PrevOf(b, j));
  }

  /** Walking back from equal hashes, the chains agree and start together. */
  lemma {:induction false} TailBinds(h: Hash, a: seq<Event>, i: nat, b: seq<Event>, j: nat)
    requires i < |a| && j < |b| && Wf(a) && Wf(b) && Verified(h, a) && Verified(h, b)
    requires NoCollision(h, a, b) && a[i].payloadHash == b[j].payloadHash
    ensures i == j && forall k | 0 <= k <= i :: SameContent(a[k], b[k])
  {
    hide PreimageAt;
    LinkBinds(h, a, i, b, j);
    if i > 0 && j > 0 {
      TailBinds(h, a, i - 1, b, j - 1);
    }
  }

  /** The head hash binds the whole history. */
  lemma HeadBindsHistory(h: Hash, a: seq<Event>, b: seq<Event>)
    requires Wf(a) && Wf(b) && Verified(h, a) && Verified(h, b) && NoCollision(h, a, b)
    requires Head(a) == Head(b) && Head(a).Some?
    ensures |a| == |b| && forall k | 0 <= k < |a| :: SameContent(a[k], b[k])
  {
    hide PreimageAt;
    TailBinds(h, a, |a| - 1, b, |b| - 1);
  }

  /** In a verified chain no hash occurs twice. */
  lemma HashesDistinct(h: Hash, a: seq<Event>, i: nat, j: nat)
    requires i < |a| && j < |a| && Wf(a) && Verified(h, a) && NoCollision(h, a, a)
    requires a[i].payloadHash == a[j].payloadHash
    ensures i == j
  {
    TailBinds(h, a, i, a, j);
  }

  lemma PredecessorsDistinct(h: Hash, a: seq<Event>, i: nat, j: nat)
    requires i < |a| && j < |a| && i != j && Wf(a) && Verified(h, a) && NoCollision(h, a, a)
    ensures PrevOf(a, i) != PrevOf(a, j)
  {
    hide PreimageAt;
    if i > 0 && j > 0 && PrevOf(a, i) == PrevOf(a, j) {
      HashesDistinct(h, a, i - 1, j - 1);
    }
  }

  // ---------- where tampering shows ----------

  /** What is needed to locate a change of `a` into `b`. */
  ghost predicate Locatable(h: Hash, a: seq<Event>, b: seq<Event>) {
    Wf(a) && Wf(b) && Verified(h, a) && NoCollision(h, a, a) && NoCollision(h, a, b)
  }

  lemma PrefixLinked(h: Hash, a: seq<Event>, b: seq<Event>, i: nat)
    requires i <= |a| && i <= |b| && b[..i] == a[..i] && Verified(h, a)
    ensures forall k | 0 <= k < i :: Linked(h, b, k)
  {
    hide Preimage;
    forall k | 0 <= k < i ensures Linked(h, b, k) {
      assert Linked(h, a, k);
      assert b[k] == b[..i][k] == a[k];
      assert k > 0 ==> b[k - 1] == b[..i][k - 1] == a[k - 1];
    }
  }

  /** An event that keeps its stored hash but was hashed as something else breaks the chain. */
  lemma UnlinkedHere(h: Hash, a: seq<Event>, j: nat, b: seq<Event>, i: nat)
    requires j < |a| && i < |b| && Locatable(h, a, b)
    requires b[i].payloadHash == a[j].payloadHash
    requires !SameContent(a[j], b[i]) || PrevOf(a, j) != PrevOf(b, i)
    ensures !Linked(h, b, i)
  {
    hide PreimageAt;
    assert Linked(h, a, j);
    if Linked(h, b, i) { LinkBinds(h, a, j, b, i); }
  }

  /** An event standing after a predecessor that is not its own breaks the chain there. */
  lemma DisplacedFails(h: Hash, a: seq<Event>, b: seq<Event>, i: nat, j: nat)
    requires i < |b| && i < |a| && j < |a| && i != j && Locatable(h, a, b)
    requires b[..i] == a[..i] && b[i] == a[j]
    ensures FailsAt(h, b, i)
  {
    hide PreimageAt;
    PredecessorsDistinct(h, a, i, j);
    assert i > 0 ==> b[i - 1] == b[..i][i - 1] == a[..i][i - 1];
    UnlinkedHere(h, a, j, b, i);
    PrefixLinked(h, a, b, i);
  }

  /** Rewriting an event's content while keeping its hash is found at that event. */
  lemma RewrittenEventFails(h: Hash, a: seq<Event>, i: nat, e: Event)
    requires i < |a| && Locatable(h, a, a[i := e])
    requires e.payloadHash == a[i].payloadHash && !SameContent(a[i], e)
    ensures FailsAt(h, a[i := e], i)
  {
    hide PreimageAt;
    UnlinkedHere(h, a, i, a[i := e], i);
    PrefixLinked(h, a, a[i := e], i);
  }

  /** Dropping an event that is not the last is found where it stood. */
  lemma DroppedEventFails(h: Hash, a: seq<Event>, i: nat)
    requires i + 1 < |a| && Locatable(h, a, a[..i] + a[i + 1..])
    ensures FailsAt(h, a[..i] + a[i + 1..], i)
  {
    hide PreimageAt;
    var b := a[..i] + a[i + 1..];
    assert b[..i] == a[..i] && b[i] == a[i + 1];
    DisplacedFails(h, a, b, i, i + 1);
  }

  /** Swapping two events is found at the earlier place. */
  lemma SwappedEventsFail(h: Hash, a: seq<Event>, i: nat, j: nat)
    requires i < j < |a| && Locatable(h, a, a[i := a[j]][j := a[i]])
    ensures FailsAt(h, a[i := a[j]][j := a[i]], i)
  {
    hide PreimageAt;
    var b := a[i := a[j]][j := a[i]];
    assert b[..i] == a[..i] && b[i] == a[j];
    DisplacedFails(h, a, b, i, j);
  }

  /** Cutting the chain short is the one change verification alone does not see. */
  lemma PrefixVerified(h: Hash, a: seq<Event>, n: nat)
    requires n <= |a| && Verified(h, a)
    ensures Verified(h, a[..n])
  {
    PrefixLinked(h, a, a[..n], n);
  }
}
