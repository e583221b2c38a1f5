/** The very text that is hashed for an evidence event. */
module EvidenceText {
  import opened Text
  import opened Json
  import opened Options
  import opened Tokens
  import opened Canonical
  import opened CanonicalText
  import opened EvidenceChain

  /** The six hashed fields in the order they are printed in, each under its own name. */
  ghost function PrintedFields(e: Event, prev: Option<Text>): seq<Member> {
    [ Member(Ascii("aggregateId"), Str(e.aggregateId)),
      Member(Ascii("aggregateType"), Str(e.aggregateType)),
      Member(Ascii("chainScope"), Str(match e.chainScope
                                      case Some(scope) => scope
                                      case None => e.aggregateType + Ascii(":") + e.aggregateId)),
      Member(Ascii("eventType"), Str(e.eventType)),
      Member(Ascii("payload"), e.payload),
      Member(Ascii("prevHash"), match prev case Some(hash) => Str(hash) case None => Null) ]
  }

  lemma FirstDifference(a: Text, b: Text, k: nat)
    requires k < |a| && k < |b| && a[..k] == b[..k] && a[k] < b[k]
    ensures Less(a, b)
  {
    assert AgreeUpTo(a, b, k);
    LessExactlyWhenFirst(a, b);
  }

  lemma NamesInOrder()
    ensures Less(Ascii("aggregateId"), Ascii("aggregateType")) && Less(Ascii("aggregateType"), Ascii("chainScope"))
    ensures Less(Ascii("chainScope"), Ascii("eventType")) && Less(Ascii("eventType"), Ascii("payload"))
    ensures Less(Ascii("payload"), Ascii("prevHash"))
  {
    hide Less;
    FirstDifference(Ascii("aggregateId"), Ascii("aggregateType"), 9);
    FirstDifference(Ascii("aggregateType"), Ascii("chainScope"), 0);
    FirstDifference(Ascii("chainScope"), Ascii("eventType"), 0);
    FirstDifference(Ascii("eventType"), Ascii("payload"), 0);
    FirstDifference(Ascii("payload"), Ascii("prevHash"), 1);
  }

  lemma {:induction false} NeighboursSuffice(ms: seq<Member>)
    requires forall i | 0 <= i < |ms| - 1 :: Less(ms[i].key, ms[i + 1].key)
    ensures StrictlySorted(ms)
  {
    hide Less;
    if |ms| > 1 {
      NeighboursSuffice(ms[..|ms| - 1]);
      forall i | 0 <= i < |ms| - 1 ensures Less(ms[i].key, ms[|ms| - 1].key) {
        if i < |ms| - 2 { LessTransitive(ms[i].key, ms[|ms| - 2].key, ms[|ms| - 1].key); }
      }
      forall i, j | 0 <= i < j < |ms| ensures Less(ms[i].key, ms[j].key) {
        assert j < |ms| - 1 ==> ms[..|ms| - 1][i] == ms[i] && ms[..|ms| - 1][j] == ms[j];
      }
    }
  }

  lemma FieldsSorted(e: Event, prev: Option<Text>)
    ensures StrictlySorted(PrintedFields(e, prev))
  {
    hide Less, Ascii;
    NamesInOrder();
    NeighboursSuffice(PrintedFields(e, prev));
  }

  lemma Rearranged<T>(a: T, b: T, c: T, rest: seq<T>)
    ensures multiset([c, b, a] + rest) == multiset([a, b, c] + rest)
  {
  }

  lemma SameFields(e: Event, prev: Option<Text>)
    ensures multiset(HashedFields(e, prev)) == multiset(PrintedFields(e, prev))
  {
    hide Ascii;
    ScopeText(e);
    var ms, ps := HashedFields(e, prev), PrintedFields(e, prev);
    assert ms == [ps[2], ps[1], ps[0]] + ps[3..] && ps == [ps[0], ps[1], ps[2]] + ps[3..];
    Rearranged(ps[0], ps[1], ps[2], ps[3..]);
  }

  lemma ScopeText(e: Event)
    ensures ScopeOf(e) == match e.chainScope case Some(scope) => scope case None => e.aggregateType + Ascii(":") + e.aggregateId
  {
    assert Ascii(":") == [COLON];
  }

  /** Members that are sorted already are what sorting any arrangement of them gives. */
  lemma {:induction false} SortedArrangement(ms: seq<Member>, ps: seq<Member>)
    requires multiset(ms) == multiset(ps) && StrictlySorted(ps)
    ensures Sort(ms) == ps
  {
    hide Less;
    SortMultiset(ms);
    forall i, j | 0 <= i < j < |ms| ensures ms[i].key != ms[j].key { DistinctInArrangement(ms, ps, i, j); }
    SortSorted(ms);
    forall m ensures m in Sort(ms) <==> m in ps {
      assert m in multiset(Sort(ms)) <==> m in Sort(ms);
      assert m in multiset(ps) <==> m in ps;
    }
    SortedKeysUnique(Sort(ms), ps);
    forall i | 0 <= i < |ps| ensures Sort(ms)[i] == ps[i] {
      assert ps[i] in Sort(ms);
      var j :| 0 <= j < |Sort(ms)| && Sort(ms)[j] == ps[i];
      KeysTell(ps, i, j);
    }
  }

  lemma KeysTell(ps: seq<Member>, i: nat, j: nat)
    requires StrictlySorted(ps) && i < |ps| && j < |ps| && ps[i].key == ps[j].key
    ensures i == j
  {
    hide Less;
    LessIrreflexive(ps[i].key);
  }

  lemma DistinctInArrangement(ms: seq<Member>, ps: seq<Member>, i: nat, j: nat)
    requires multiset(ms) == multiset(ps) && StrictlySorted(ps) && i < j < |ms|
    ensures ms[i].key != ms[j].key
  {
    hide Less;
    assert ms[i] in multiset(ms) && ms[j] in multiset(ms);
    var k :| 0 <= k < |ps| && ps[k] == ms[i];
    var l :| 0 <= l < |ps| && ps[l] == ms[j];
    if ms[i].key == ms[j].key {
      KeysTell(ps, k, l);
      TwiceInArrangement(ms, i, j);
      OnceWhereSorted(ps, k);
    }
  }

  lemma TwiceInArrangement(ms: seq<Member>, i: nat, j: nat)
    requires i < j < |ms| && ms[i] == ms[j]
    ensures multiset(ms)[ms[i]] >= 2
  {
    assert ms == ms[..i] + [ms[i]] + ms[i + 1..j] + [ms[j]] + ms[j + 1..];
  }

  lemma OnceWhereSorted(ps: seq<Member>, k: nat)
    requires StrictlySorted(ps) && k < |ps|
    ensures multiset(ps)[ps[k]] == 1
  {
    hide Less;
    LessIrreflexive(ps[k].key);
    assert ps == ps[..k] + [ps[k]] + ps[k + 1..];
    assert ps[k] !in ps[..k] && ps[k] !in ps[k + 1..];
  }

  /**
   * The text hashed for an event is its six fields under their names, in this order, between braces: the aggregate's
   * id and type, the scope it is chained under, the event's type, its payload, and its predecessor's hash or null.
   */
  lemma HashedTextIs(e: Event, prev: Option<Text>)
    ensures Preimage(e, prev) == Ascii("{") + Joined(MemberTexts(PrintedFields(e, prev)), Ascii(",")) + Ascii("}")
  {
    hide Canonicalize, Less, Joined, MemberTexts, PrintedFields, HashedFields;
    var ms, ps := HashedFields(e, prev), PrintedFields(e, prev);
    FieldsSorted(e, prev);
    SameFields(e, prev);
    SortedArrangement(ms, ps);
    PrintsSorted(ms);
  }

  lemma PrintsSorted(ms: seq<Member>)
    ensures Canonicalize(Obj(ms)) == Ascii("{") + Joined(MemberTexts(Sort(ms)), Ascii(",")) + Ascii("}")
  {
    SortMembers(ms);
    MembersJoined(Sort(ms), Obj(ms));
    assert Ascii("{") == [OPEN_OBJECT] && Ascii("}") == [CLOSE_OBJECT];
  }
}
