/** The values that can be printed canonically, and the order of object members. */
module Json {
  import opened Text

  /** Integers the runtime prints exactly. */
  type SafeInt = i: int | -9007199254740991 <= i <= 9007199254740991

  datatype Member = Member(key: Text, value: Json)

  /** `Undefined` stands for a member whose value is undefined; it is no element of an array. */
  datatype Json =
    | Undefined
    | Null
    | Bool(b: bool)
    | Int(i: SafeInt)
    | Str(s: Text)
    | Arr(elems: seq<Json>)
    | Obj(members: seq<Member>)

  ghost predicate DistinctKeys(ms: seq<Member>) {
    forall i, j | 0 <= i < j < |ms| :: ms[i].key != ms[j].key
  }

  /** The domain: no undefined array element, no duplicate member. */
  ghost predicate WellFormed(v: Json) {
    match v
    case Arr(es) => forall i | 0 <= i < |es| :: es[i] != Undefined && WellFormed(es[i])
    case Obj(ms) => DistinctKeys(ms) && forall i | 0 <= i < |ms| :: WellFormed(ms[i].value)
    case _ => true
  }

  ghost function Keys(ms: seq<Member>): set<Text> {
    set m | m in ms :: m.key
  }

  /** Equal values: arrays position by position, objects member by member in any order. */
  ghost predicate Same(v: Json, w: Json) {
    match (v, w)
    case (Arr(es), Arr(fs)) => |es| == |fs| && forall i | 0 <= i < |es| :: Same(es[i], fs[i])
    case (Obj(ms), Obj(ns)) =>
      && Keys(ms) == Keys(ns)
      && forall i, j | 0 <= i < |ms| && 0 <= j < |ns| && ms[i].key == ns[j].key ::
           Same(ms[i].value, ns[j].value)
    case (_, _) => v == w
  }

  function Insert(m: Member, ms: seq<Member>): seq<Member> {
    if ms == [] || Less(m.key, ms[0].key) then [m] + ms else [ms[0]] + Insert(m, ms[1..])
  }

  /** Members in key order. */
  function Sort(ms: seq<Member>): seq<Member> {
    if ms == [] then [] else Insert(ms[0], Sort(ms[1..]))
  }

  ghost predicate StrictlySorted(ms: seq<Member>) {
    forall i, j | 0 <= i < j < |ms| :: Less(ms[i].key, ms[j].key)
  }

  lemma {:induction false} InsertMultiset(m: Member, ms: seq<Member>)
    ensures multiset(Insert(m, ms)) == multiset{m} + multiset(ms)
  {
    if ms != [] && !Less(m.key, ms[0].key) {
      InsertMultiset(m, ms[1..]);
      assert ms == [ms[0]] + ms[1..];
    }
  }

  lemma {:induction false} SortMultiset(ms: seq<Member>)
    ensures multiset(Sort(ms)) == multiset(ms)
    ensures |Sort(ms)| == |ms|
  {
    if ms != [] {
      SortMultiset(ms[1..]);
      InsertMultiset(ms[0], Sort(ms[1..]));
      assert ms == [ms[0]] + ms[1..];
    }
    assert |multiset(Sort(ms))| == |Sort(ms)| && |multiset(ms)| == |ms|;
  }

  lemma SortMembers(ms: seq<Member>)
    ensures |Sort(ms)| == |ms|
    ensures forall m :: m in Sort(ms) <==> m in ms
    ensures Keys(Sort(ms)) == Keys(ms)
  {
    SortMultiset(ms);
    forall m ensures m in Sort(ms) <==> m in ms {
      assert m in multiset(Sort(ms)) <==> m in Sort(ms);
      assert m in multiset(ms) <==> m in ms;
    }
  }

  lemma {:induction false} InsertSorted(m: Member, ms: seq<Member>)
    requires StrictlySorted(ms) && m.key !in Keys(ms)
    ensures StrictlySorted(Insert(m, ms))
  {
    if ms == [] {
    } else if Less(m.key, ms[0].key) {
      forall j | 0 < j < |ms| ensures Less(m.key, ms[j].key) {
        LessTransitive(m.key, ms[0].key, ms[j].key);
      }
    } else {
      assert ms[0] in ms;
      LessTotal(m.key, ms[0].key);
      forall x | x in ms[1..] ensures x in ms {}
      InsertSorted(m, ms[1..]);
      InsertMultiset(m, ms[1..]);
      forall j | 0 <= j < |Insert(m, ms[1..])| ensures Less(ms[0].key, Insert(m, ms[1..])[j].key) {
        var x := Insert(m, ms[1..])[j];
        assert x in multiset(Insert(m, ms[1..]));
        assert x == m || x in ms[1..];
      }
    }
  }

  lemma {:induction false} SortSorted(ms: seq<Member>)
    requires DistinctKeys(ms)
    ensures StrictlySorted(Sort(ms))
  {
    if ms != [] {
      SortSorted(ms[1..]);
      SortMembers(ms[1..]);
      assert ms[0].key !in Keys(ms[1..]);
      InsertSorted(ms[0], Sort(ms[1..]));
    }
  }

  /** Members in the order of their keys' first differences. */
  ghost predicate InKeyOrder(ms: seq<Member>) {
    forall i, j | 0 <= i < j < |ms| :: ComesFirst(ms[i].key, ms[j].key)
  }

  lemma SortedInKeyOrder(ms: seq<Member>)
    requires DistinctKeys(ms)
    ensures InKeyOrder(Sort(ms)) && multiset(Sort(ms)) == multiset(ms)
  {
    hide Less, ComesFirst;
    SortSorted(ms);
    SortMultiset(ms);
    forall i, j | 0 <= i < j < |Sort(ms)| ensures ComesFirst(Sort(ms)[i].key, Sort(ms)[j].key) {
      LessExactlyWhenFirst(Sort(ms)[i].key, Sort(ms)[j].key);
    }
  }

  /** Sorting a sorted sequence changes nothing. */
  lemma {:induction false} SortFixed(ms: seq<Member>)
    requires StrictlySorted(ms)
    ensures Sort(ms) == ms
  {
    if |ms| > 0 {
      SortFixed(ms[1..]);
      assert |ms| > 1 ==> Less(ms[0].key, ms[1].key);
      assert ms == [ms[0]] + ms[1..];
    }
  }

  lemma KeysEmpty(ms: seq<Member>)
    ensures Keys(ms) == {} <==> ms == []
  {
    assert ms != [] ==> ms[0] in ms && ms[0].key in Keys(ms);
  }

  /** Two sorted sequences over one key set carry the same keys in the same places. */
  lemma {:induction false} SortedKeysUnique(ms: seq<Member>, ns: seq<Member>)
    requires StrictlySorted(ms) && StrictlySorted(ns) && Keys(ms) == Keys(ns)
    ensures |ms| == |ns| && forall i | 0 <= i < |ms| :: ms[i].key == ns[i].key
  {
    KeysEmpty(ms);
    KeysEmpty(ns);
    if ms != [] && ns != [] {
      HeadIsLeast(ms, ns);
      HeadIsLeast(ns, ms);
      LessTotal(ms[0].key, ns[0].key);
      TailKeys(ms);
      TailKeys(ns);
      SortedKeysUnique(ms[1..], ns[1..]);
      forall i | 0 < i < |ms| ensures ms[i].key == ns[i].key {
        assert ms[i] == ms[1..][i - 1] && ns[i] == ns[1..][i - 1];
      }
    }
  }

  lemma HeadIsLeast(ms: seq<Member>, ns: seq<Member>)
    requires StrictlySorted(ms) && ms != [] && ns != [] && Keys(ms) == Keys(ns)
    ensures !Less(ns[0].key, ms[0].key)
  {
    assert ns[0].key in Keys(ns);
    var m :| m in ms && m.key == ns[0].key;
    var i :| 0 <= i < |ms| && ms[i] == m;
    if Less(ns[0].key, ms[0].key) {
      if i > 0 { LessTransitive(ms[0].key, ns[0].key, ms[0].key); }
      LessIrreflexive(ms[0].key);
    }
  }

  lemma TailKeys(ms: seq<Member>)
    requires StrictlySorted(ms) && ms != []
    ensures Keys(ms[1..]) == Keys(ms) - {ms[0].key}
  {
    forall m | m in ms[1..] ensures m.key != ms[0].key && m in ms {
      var i :| 0 <= i < |ms[1..]| && ms[1..][i] == m;
      assert ms[i + 1] == m;
      LessIrreflexive(ms[0].key);
    }
    forall m | m in ms && m.key != ms[0].key ensures m in ms[1..] {
      var i :| 0 <= i < |ms| && ms[i] == m;
      assert ms[1..][i - 1] == m;
    }
  }
}
