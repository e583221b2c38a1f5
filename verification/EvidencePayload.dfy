/** What an evidence event stores of the payload its caller gave. */
module EvidencePayload {
  import opened Text
  import opened Json
  import opened Options
  import opened Tokens
  import opened Canonical
  import opened EvidenceChain

  const ACTOR := Ascii("actor")
  const ACTION := Ascii("action")
  const VERSION_FIELD := Ascii("_evidenceVersion")
  const WARNINGS_FIELD := Ascii("_warnings")

  // ---------- building an event ----------

  /** The member's value, undefined when there is none. */
  function Get(ms: seq<Member>, key: Text): Json {
    if ms == [] then Undefined else if ms[0].key == key then ms[0].value else Get(ms[1..], key)
  }

  /** Overwrites in place, or adds at the end. */
  function Set(ms: seq<Member>, key: Text, value: Json): seq<Member> {
    if ms == [] then [Member(key, value)]
    else if ms[0].key == key then [Member(key, value)] + ms[1..]
    else [ms[0]] + Set(ms[1..], key, value)
  }

  predicate Falsy(v: Json) {
    v == Undefined || v == Null || v == Bool(false) || v == Int(0) || v == Str([])
  }

  function ValidatePayload(payload: seq<Member>): seq<Json> {
    (if Falsy(Get(payload, ACTOR)) then [Str(Ascii("missing_actor"))] else []) +
    (if Falsy(Get(payload, ACTION)) then [Str(Ascii("missing_action"))] else [])
  }

  function Enrich(payload: seq<Member>): seq<Member> {
    var warnings := ValidatePayload(payload);
    Set(Set(payload, VERSION_FIELD, Str(Ascii("2.0"))),
        WARNINGS_FIELD, if warnings == [] then Undefined else Arr(warnings))
  }

  function CreateEvidenceEvent(h: Hash, aggregateType: Text, aggregateId: Text, eventType: Text,
                               payload: seq<Member>, prevHash: Option<Text>): (e: Event)
    ensures e.payloadHash == h(Preimage(e, prevHash)) && e.prevHash == prevHash
    ensures e.chainScope == Some(MakeChainScope(aggregateType, aggregateId))
    ensures e.aggregateType == aggregateType && e.aggregateId == aggregateId
    ensures e.eventType == eventType && e.payload == Obj(Enrich(payload))
  {
    var e := Event(Some(MakeChainScope(aggregateType, aggregateId)), aggregateType, aggregateId,
                   eventType, Obj(Enrich(payload)), [], prevHash);
    e.(payloadHash := HashEvent(h, e, prevHash))
  }

  lemma KeysCons(m: Member, ms: seq<Member>)
    ensures Keys([m] + ms) == {m.key} + Keys(ms)
  {
    forall x | x in [m] + ms ensures x == m || x in ms {}
    assert m in [m] + ms && forall x | x in ms :: x in [m] + ms;
  }

  lemma DistinctCons(m: Member, ms: seq<Member>)
    requires DistinctKeys(ms)
    ensures DistinctKeys([m] + ms) <==> m.key !in Keys(ms)
  {
    var all := [m] + ms;
    if m.key in Keys(ms) {
      var x :| x in ms && x.key == m.key;
      var k :| 0 <= k < |ms| && ms[k] == x;
      assert all[0].key == all[k + 1].key;
    } else {
      forall k | 0 <= k < |ms| ensures ms[k].key != m.key { assert ms[k] in ms; }
    }
  }

  lemma ConsDomain(m: Member, ms: seq<Member>)
    ensures WellFormed(Obj([m] + ms)) <==>
            WellFormed(m.value) && WellFormed(Obj(ms)) && m.key !in Keys(ms)
  {
    var all := [m] + ms;
    assert all[0] == m && forall k | 0 <= k < |ms| :: all[k + 1] == ms[k];
    if DistinctKeys(all) {
      forall i, j | 0 <= i < j < |ms| ensures ms[i].key != ms[j].key {
        assert all[i + 1].key != all[j + 1].key;
      }
    }
    if DistinctKeys(ms) { DistinctCons(m, ms); }
    if WellFormed(Obj(all)) {
      forall k | 0 <= k < |ms| ensures WellFormed(ms[k].value) { assert all[k + 1] == ms[k]; }
    }
  }

  lemma {:induction false} SetKeepsDomain(ms: seq<Member>, key: Text, value: Json)
    requires WellFormed(Obj(ms)) && WellFormed(value)
    ensures WellFormed(Obj(Set(ms, key, value)))
    ensures Keys(Set(ms, key, value)) == Keys(ms) + {key}
  {
    hide WellFormed, Keys;
    if ms == [] {
      assert Set(ms, key, value) == [Member(key, value)] + [];
      ConsDomain(Member(key, value), []);
      KeysCons(Member(key, value), []);
      KeysEmpty([]);
    } else {
      assert ms == [ms[0]] + ms[1..];
      ConsDomain(ms[0], ms[1..]);
      KeysCons(ms[0], ms[1..]);
      if ms[0].key == key {
        ConsDomain(Member(key, value), ms[1..]);
        KeysCons(Member(key, value), ms[1..]);
      } else {
        SetKeepsDomain(ms[1..], key, value);
        ConsDomain(ms[0], Set(ms[1..], key, value));
        KeysCons(ms[0], Set(ms[1..], key, value));
      }
    }
  }

  lemma EnrichKeepsDomain(payload: seq<Member>)
    requires WellFormed(Obj(payload))
    ensures WellFormed(Obj(Enrich(payload)))
  {
    var versioned := Set(payload, VERSION_FIELD, Str(Ascii("2.0")));
    SetKeepsDomain(payload, VERSION_FIELD, Str(Ascii("2.0")));
    var warnings := ValidatePayload(payload);
    SetKeepsDomain(versioned, WARNINGS_FIELD, if warnings == [] then Undefined else Arr(warnings));
  }

  // ---------- what is stored ----------

  /** The payload gives the field a value that counts. */
  ghost predicate Gives(payload: seq<Member>, key: Text) {
    exists value: Json :: Member(key, value) in payload && value !in {Undefined, Null, Bool(false), Int(0), Str([])}
  }

  /** The warnings for a payload, undefined if there is none. */
  ghost function WarningsFor(payload: seq<Member>): Json {
    var actor, action := Gives(payload, Ascii("actor")), Gives(payload, Ascii("action"));
    if actor && action then Undefined
    else if action then Arr([Str(Ascii("missing_actor"))])
    else if actor then Arr([Str(Ascii("missing_action"))])
    else Arr([Str(Ascii("missing_actor")), Str(Ascii("missing_action"))])
  }

  /** Every field of the payload is stored with its value, and besides only the version and the warnings. */
  ghost predicate Stores(stored: seq<Member>, payload: seq<Member>) {
    && DistinctKeys(stored)
    && (forall m: Member | m.key !in {Ascii("_evidenceVersion"), Ascii("_warnings")} :: m in stored <==> m in payload)
    && Member(Ascii("_evidenceVersion"), Str(Ascii("2.0"))) in stored
    && Member(Ascii("_warnings"), WarningsFor(payload)) in stored
  }

  lemma OneOfAKey(ms: seq<Member>, m: Member, n: Member)
    requires DistinctKeys(ms) && m in ms && n in ms && m.key == n.key
    ensures m == n
  {
  }

  lemma {:induction false} SetMembers(ms: seq<Member>, key: Text, value: Json, m: Member)
    requires DistinctKeys(ms)
    ensures m in Set(ms, key, value) <==> if m.key == key then m.value == value else m in ms
  {
    if ms != [] {
      assert ms == [ms[0]] + ms[1..];
      if ms[0].key == key {
        assert m in ms[1..] ==> m.key != key;
        assert m in Set(ms, key, value) <==> m == Member(key, value) || m in ms[1..];
      } else {
        SetMembers(ms[1..], key, value, m);
        assert m in Set(ms, key, value) <==> m == ms[0] || m in Set(ms[1..], key, value);
      }
    }
  }

  lemma {:induction false} SetDistinct(ms: seq<Member>, key: Text, value: Json)
    requires DistinctKeys(ms)
    ensures DistinctKeys(Set(ms, key, value)) && Keys(Set(ms, key, value)) == Keys(ms) + {key}
  {
    hide Keys, DistinctKeys;
    if ms == [] {
      KeysCons(Member(key, value), []);
      KeysEmpty([]);
      assert [Member(key, value)] == [Member(key, value)] + [];
      DistinctOne(Member(key, value));
    } else {
      assert ms == [ms[0]] + ms[1..];
      KeysCons(ms[0], ms[1..]);
      DistinctTail(ms);
      DistinctCons(ms[0], ms[1..]);
      if ms[0].key == key {
        DistinctCons(Member(key, value), ms[1..]);
        KeysCons(Member(key, value), ms[1..]);
      } else {
        SetDistinct(ms[1..], key, value);
        DistinctCons(ms[0], Set(ms[1..], key, value));
        KeysCons(ms[0], Set(ms[1..], key, value));
      }
    }
  }

  lemma DistinctOne(m: Member)
    ensures DistinctKeys([m])
  {
  }

  lemma DistinctTail(ms: seq<Member>)
    requires DistinctKeys(ms) && ms != []
    ensures DistinctKeys(ms[1..])
  {
  }

  lemma {:induction false} GetFinds(ms: seq<Member>, key: Text)
    ensures (exists value: Json :: Member(key, value) in ms) ==> Member(key, Get(ms, key)) in ms
    ensures !(exists value: Json :: Member(key, value) in ms) ==> Get(ms, key) == Undefined
  {
    if ms != [] {
      assert ms == [ms[0]] + ms[1..];
      if ms[0].key == key {
        assert Member(key, ms[0].value) == ms[0];
      } else {
        GetFinds(ms[1..], key);
      }
    }
  }

  lemma FalsyExactlyWhenNotGiven(payload: seq<Member>, key: Text)
    requires DistinctKeys(payload)
    ensures Falsy(Get(payload, key)) <==> !Gives(payload, key)
  {
    GetFinds(payload, key);
    if value: Json :| Member(key, value) in payload {
      OneOfAKey(payload, Member(key, value), Member(key, Get(payload, key)));
    }
  }

  lemma AddedFieldsDiffer()
    ensures VERSION_FIELD == Ascii("_evidenceVersion") && WARNINGS_FIELD == Ascii("_warnings")
    ensures VERSION_FIELD != WARNINGS_FIELD
  {
    assert |Ascii("_evidenceVersion")| == 16 && |Ascii("_warnings")| == 9;
  }

  lemma WarningsAre(payload: seq<Member>)
    requires DistinctKeys(payload)
    ensures (if ValidatePayload(payload) == [] then Undefined else Arr(ValidatePayload(payload))) == WarningsFor(payload)
  {
    hide Falsy, Get, Gives;
    FalsyExactlyWhenNotGiven(payload, ACTOR);
    FalsyExactlyWhenNotGiven(payload, ACTION);
  }

  /** What is stored is what the caller gave, with just the version and the warnings added. */
  lemma EnrichStores(payload: seq<Member>)
    requires DistinctKeys(payload)
    ensures Stores(Enrich(payload), payload)
  {
    hide DistinctKeys, Keys, ValidatePayload, WarningsFor, Set;
    AddedFieldsDiffer();
    hide Ascii;
    WarningsAre(payload);
    var version := Str(Ascii("2.0"));
    var versioned := Set(payload, VERSION_FIELD, version);
    SetDistinct(payload, VERSION_FIELD, version);
    SetDistinct(versioned, WARNINGS_FIELD, WarningsFor(payload));
    forall m: Member
      ensures m in Enrich(payload) <==> if m.key == WARNINGS_FIELD then m.value == WarningsFor(payload)
                                        else if m.key == VERSION_FIELD then m.value == version else m in payload
    {
      SetMembers(payload, VERSION_FIELD, version, m);
      SetMembers(versioned, WARNINGS_FIELD, WarningsFor(payload), m);
    }
  }

  /** Two payloads have the same fields with equal values, but for the two that are added. */
  ghost predicate SameApartFromAdded(p: seq<Member>, q: seq<Member>) {
    forall key: Text | key !in {Ascii("_evidenceVersion"), Ascii("_warnings")} ::
      && (key in Keys(p) <==> key in Keys(q))
      && forall m, n | m in p && n in q && m.key == key == n.key :: Same(m.value, n.value)
  }

  lemma SameStoredSameSaid(s: seq<Member>, p: seq<Member>, t: seq<Member>, q: seq<Member>)
    requires Stores(s, p) && Stores(t, q) && Same(Obj(s), Obj(t))
    ensures SameApartFromAdded(p, q)
  {
    hide WarningsFor, DistinctKeys;
    forall key: Text | key !in {Ascii("_evidenceVersion"), Ascii("_warnings")}
      ensures key in Keys(p) <==> key in Keys(q)
      ensures forall m, n | m in p && n in q && m.key == key == n.key :: Same(m.value, n.value)
    {
      forall m, n | m in p && n in q && m.key == key == n.key ensures Same(m.value, n.value) {
        assert m in s && n in t;
        var i :| 0 <= i < |s| && s[i] == m;
        var j :| 0 <= j < |t| && t[j] == n;
      }
      SameKeysStored(s, p, key);
      SameKeysStored(t, q, key);
    }
  }

  lemma SameKeysStored(s: seq<Member>, p: seq<Member>, key: Text)
    requires Stores(s, p) && key !in {Ascii("_evidenceVersion"), Ascii("_warnings")}
    ensures key in Keys(p) <==> key in Keys(s)
  {
    hide WarningsFor, DistinctKeys, Ascii;
    if m :| m in p && m.key == key { assert m in s; }
    if m :| m in s && m.key == key { assert m in p; }
  }
}
