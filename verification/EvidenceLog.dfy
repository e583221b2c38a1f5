/**
 * The evidence log of the memory database: one append-only list shared by all aggregates,
 * appended to by chain scope and read back by aggregate type and id.
 */
module EvidenceLog {
  import opened Text
  import opened Json
  import opened Options
  import opened Tokens
  import opened Canonical
  import opened EvidenceChain
  import opened EvidencePayload

  // ---------- the log ----------

  /** The events appended under one chain scope. */
  function OfScope(log: seq<Event>, scope: Text): seq<Event> {
    if log == [] then []
    else
      var front, e := log[..|log| - 1], log[|log| - 1];
      OfScope(front, scope) + if e.chainScope == Some(scope) then [e] else []
  }

  /** The events read back for one aggregate. */
  function OfAggregate(log: seq<Event>, aggregateType: Text, aggregateId: Text): seq<Event> {
    if log == [] then []
    else
      var front, e := log[..|log| - 1], log[|log| - 1];
      OfAggregate(front, aggregateType, aggregateId) +
      if e.aggregateType == aggregateType && e.aggregateId == aggregateId then [e] else []
  }

  datatype Append = Append(aggregateType: Text, aggregateId: Text, eventType: Text, payload: seq<Member>) {
    function Scope(): Text { MakeChainScope(aggregateType, aggregateId) }

    predicate SameAggregate(other: Append) {
      aggregateType == other.aggregateType && aggregateId == other.aggregateId
    }
  }

  /** The event a call adds to the log. */
  function NextEvent(h: Hash, log: seq<Event>, call: Append): Event {
    CreateEvidenceEvent(h, call.aggregateType, call.aggregateId, call.eventType, call.payload,
                        Head(OfScope(log, call.Scope())))
  }

  // ---------- whole runs ----------

  /** The log after a run of appends. */
  ghost function Replay(h: Hash, calls: seq<Append>): seq<Event> {
    if calls == [] then []
    else
      var log := Replay(h, calls[..|calls| - 1]);
      log + [NextEvent(h, log, calls[|calls| - 1])]
  }

  /** Calls of the run that hit one aggregate. */
  ghost function CountFor(calls: seq<Append>, aggregateType: Text, aggregateId: Text): nat {
    if calls == [] then 0
    else
      var call := calls[|calls| - 1];
      CountFor(calls[..|calls| - 1], aggregateType, aggregateId) +
      if call.aggregateType == aggregateType && call.aggregateId == aggregateId then 1 else 0
  }

  /** No two aggregates of the run share a chain scope. */
  ghost predicate ScopesDistinct(calls: seq<Append>) {
    forall c, d | c in calls && d in calls && c.Scope() == d.Scope() :: c.SameAggregate(d)
  }

  ghost predicate PayloadsInDomain(calls: seq<Append>) {
    forall c | c in calls :: WellFormed(Obj(c.payload))
  }

  lemma ReplayLast(h: Hash, front: seq<Append>, call: Append)
    ensures Replay(h, front + [call]) == Replay(h, front) + [NextEvent(h, Replay(h, front), call)]
  {
    hide NextEvent;
    assert (front + [call])[..|front|] == front;
  }

  lemma OfScopeLast(log: seq<Event>, e: Event, scope: Text)
    ensures OfScope(log + [e], scope)
         == if e.chainScope == Some(scope) then OfScope(log, scope) + [e] else OfScope(log, scope)
  {
    assert (log + [e])[..|log|] == log;
  }

  lemma OfAggregateLast(log: seq<Event>, e: Event, t: Text, id: Text)
    ensures OfAggregate(log + [e], t, id)
         == if e.aggregateType == t && e.aggregateId == id then OfAggregate(log, t, id) + [e]
            else OfAggregate(log, t, id)
  {
    assert (log + [e])[..|log|] == log;
  }

  lemma CountForLast(front: seq<Append>, call: Append, t: Text, id: Text)
    ensures CountFor(front + [call], t, id)
         == CountFor(front, t, id) + if call.aggregateType == t && call.aggregateId == id then 1 else 0
  {
    assert (front + [call])[..|front|] == front;
  }

  lemma LastCall(calls: seq<Append>) returns (front: seq<Append>, call: Append)
    requires calls != []
    ensures calls == front + [call] && |front| < |calls|
    ensures forall c :: c in calls <==> c in front || c == call
  {
    front, call := calls[..|calls| - 1], calls[|calls| - 1];
    assert calls == front + [call];
  }

  lemma NextEventIs(h: Hash, log: seq<Event>, call: Append)
    ensures var e := NextEvent(h, log, call);
            && e.aggregateType == call.aggregateType && e.aggregateId == call.aggregateId
            && e.chainScope == Some(call.Scope()) && e.eventType == call.eventType && e.payload == Obj(Enrich(call.payload))
            && e.prevHash == Head(OfScope(log, call.Scope()))
            && e.payloadHash == h(Preimage(e, e.prevHash))
  {
    hide CreateEvidenceEvent, Preimage;
  }

  /** The event carries what its call named. */
  ghost predicate Carries(e: Event, call: Append) {
    && e.aggregateType == call.aggregateType && e.aggregateId == call.aggregateId
    && e.chainScope == Some(call.Scope()) && e.eventType == call.eventType
    && (DistinctKeys(call.payload) ==> e.payload.Obj? && Stores(e.payload.members, call.payload))
  }

  lemma NextEventCarries(h: Hash, log: seq<Event>, call: Append)
    ensures Carries(NextEvent(h, log, call), call)
  {
    hide NextEvent, Stores, Enrich, DistinctKeys, Preimage, OfScope;
    NextEventIs(h, log, call);
    if DistinctKeys(call.payload) { EnrichStores(call.payload); }
  }

  lemma {:induction false} ReplayShape(h: Hash, calls: seq<Append>)
    ensures |Replay(h, calls)| == |calls|
    ensures forall k | 0 <= k < |calls| :: Carries(Replay(h, calls)[k], calls[k])
  {
    if calls != [] {
      hide NextEvent, Replay, Carries;
      var front, call := LastCall(calls);
      ReplayLast(h, front, call);
      NextEventCarries(h, Replay(h, front), call);
      ReplayShape(h, front);
    }
  }

  /** Filtering by scope and by aggregate agree where a scope belongs to one aggregate. */
  lemma {:induction false} FiltersAgree(log: seq<Event>, t: Text, id: Text)
    requires forall e | e in log :: e.chainScope == Some(MakeChainScope(e.aggregateType, e.aggregateId))
    requires forall e | e in log && e.chainScope == Some(MakeChainScope(t, id)) ::
               e.aggregateType == t && e.aggregateId == id
    ensures OfScope(log, MakeChainScope(t, id)) == OfAggregate(log, t, id)
  {
    if log != [] {
      assert forall e | e in log[..|log| - 1] :: e in log;
      FiltersAgree(log[..|log| - 1], t, id);
      assert log[|log| - 1] in log;
    }
  }

  lemma ExtendVerified(h: Hash, chain: seq<Event>, e: Event)
    requires Verified(h, chain) && e.payloadHash == h(Preimage(e, Head(chain)))
    ensures Verified(h, chain + [e])
  {
    hide Preimage;
    forall i | 0 <= i < |chain + [e]| ensures Linked(h, chain + [e], i) {
      if i < |chain| {
        assert Linked(h, chain, i);
        assert i > 0 ==> (chain + [e])[i - 1] == chain[i - 1];
      }
    }
  }

  lemma ScopesDistinctFront(calls: seq<Append>, front: seq<Append>, call: Append)
    requires ScopesDistinct(calls) && forall c :: c in calls <==> c in front || c == call
    ensures ScopesDistinct(front)
    ensures forall c | c in front && c.Scope() == call.Scope() :: c.SameAggregate(call)
  {
  }

  lemma {:induction false} ReplayedChainLength(h: Hash, calls: seq<Append>, t: Text, id: Text)
    ensures |OfAggregate(Replay(h, calls), t, id)| == CountFor(calls, t, id)
    decreases |calls|
  {
    if calls != [] {
      hide NextEvent, Replay, OfAggregate, CountFor;
      var front, call := LastCall(calls);
      var log := Replay(h, front);
      ReplayedChainLength(h, front, t, id);
      ReplayLast(h, front, call);
      NextEventIs(h, log, call);
      OfAggregateLast(log, NextEvent(h, log, call), t, id);
      CountForLast(front, call, t, id);
    }
  }

  lemma {:induction false} ReplayedChainsVerify(h: Hash, calls: seq<Append>, t: Text, id: Text)
    requires ScopesDistinct(calls)
    ensures Verified(h, OfAggregate(Replay(h, calls), t, id))
    decreases |calls|
  {
    if calls != [] {
      hide NextEvent, Replay, OfAggregate, Verified, Preimage, ScopesDistinct;
      var front, call := LastCall(calls);
      ScopesDistinctFront(calls, front, call);
      var log := Replay(h, front);
      var e := NextEvent(h, log, call);
      ReplayedChainsVerify(h, front, t, id);
      ReplayLast(h, front, call);
      NextEventIs(h, log, call);
      OfAggregateLast(log, e, t, id);
      if call.aggregateType == t && call.aggregateId == id {
        OwnScope(h, front, call);
        ExtendVerified(h, OfAggregate(log, t, id), e);
      }
    }
  }

  /** Events of one scope all belong to the caller's aggregate, so both filters see its chain. */
  lemma OwnScope(h: Hash, front: seq<Append>, call: Append)
    requires forall c | c in front && c.Scope() == call.Scope() :: c.SameAggregate(call)
    ensures OfScope(Replay(h, front), call.Scope())
         == OfAggregate(Replay(h, front), call.aggregateType, call.aggregateId)
  {
    hide Replay, OfScope, OfAggregate;
    ReplayShape(h, front);
    var log := Replay(h, front);
    forall e | e in log
      ensures e.chainScope == Some(MakeChainScope(e.aggregateType, e.aggregateId))
      ensures e.chainScope == Some(call.Scope()) ==>
                e.aggregateType == call.aggregateType && e.aggregateId == call.aggregateId
    {
      var k :| 0 <= k < |log| && log[k] == e;
      assert front[k] in front;
    }
    FiltersAgree(log, call.aggregateType, call.aggregateId);
  }

  /** The hash tells each logged event from the same event put first in a chain. */
  ghost predicate StartsTold(h: Hash, log: seq<Event>) {
    forall e | e in log && h(Preimage(e, None)) == h(Preimage(e, e.prevHash)) ::
      Preimage(e, None) == Preimage(e, e.prevHash)
  }

  lemma {:induction false} ScopeNonempty(h: Hash, calls: seq<Append>, c: Append)
    requires c in calls
    ensures OfScope(Replay(h, calls), c.Scope()) != []
    decreases |calls|
  {
    hide NextEvent, Replay, OfScope;
    var front, call := LastCall(calls);
    var log := Replay(h, front);
    ReplayLast(h, front, call);
    NextEventIs(h, log, call);
    OfScopeLast(log, NextEvent(h, log, call), c.Scope());
    if call != c {
      ScopeNonempty(h, front, c);
    }
  }

  lemma {:induction false} NoEventsBefore(h: Hash, calls: seq<Append>, t: Text, id: Text)
    requires forall c | c in calls :: !(c.aggregateType == t && c.aggregateId == id)
    ensures OfAggregate(Replay(h, calls), t, id) == []
    decreases |calls|
  {
    if calls != [] {
      hide NextEvent, Replay, OfAggregate;
      var front, call := LastCall(calls);
      var log := Replay(h, front);
      NoEventsBefore(h, front, t, id);
      ReplayLast(h, front, call);
      NextEventIs(h, log, call);
      OfAggregateLast(log, NextEvent(h, log, call), t, id);
    }
  }

  lemma UnverifiedStays(h: Hash, log: seq<Event>, e: Event, t: Text, id: Text)
    requires !Verified(h, OfAggregate(log, t, id))
    ensures !Verified(h, OfAggregate(log + [e], t, id))
  {
    hide Verified;
    var chain, longer := OfAggregate(log, t, id), OfAggregate(log + [e], t, id);
    OfAggregateLast(log, e, t, id);
    assert longer[..|chain|] == chain;
    if Verified(h, longer) { PrefixVerified(h, longer, |chain|); }
  }

  /** When two aggregates share a scope, the chain of one of them does not verify. */
  lemma {:induction false} SharedScopeBreaks(h: Hash, calls: seq<Append>) returns (t: Text, id: Text)
    requires !ScopesDistinct(calls) && PayloadsInDomain(calls) && StartsTold(h, Replay(h, calls))
    ensures !Verified(h, OfAggregate(Replay(h, calls), t, id))
    decreases |calls|
  {
    hide NextEvent, Replay, OfAggregate, Verified, Preimage;
    var front, call := LastCall(calls);
    var log := Replay(h, front);
    var e := NextEvent(h, log, call);
    ReplayLast(h, front, call);
    NextEventIs(h, log, call);
    if !ScopesDistinct(front) {
      t, id := SharedScopeBreaks(h, front);
      UnverifiedStays(h, log, e, t, id);
    } else {
      t, id := call.aggregateType, call.aggregateId;
      var other := Sharing(front, call);
      NoSuchCall(front, other, call);
      NoEventsBefore(h, front, t, id);
      ScopeNonempty(h, front, other);
      assert e in Replay(h, calls);
      FirstInForeignScope(h, e, call);
      OfAggregateLast(log, e, t, id);
      assert OfAggregate(Replay(h, calls), t, id) == [e];
    }
  }

  lemma Sharing(front: seq<Append>, call: Append) returns (other: Append)
    requires ScopesDistinct(front) && !ScopesDistinct(front + [call])
    ensures other in front && other.Scope() == call.Scope() && !other.SameAggregate(call)
  {
    var c, d :| c in front + [call] && d in front + [call] && c.Scope() == d.Scope() && !c.SameAggregate(d);
    assert !(c in front && d in front);
    other := if c in front then c else d;
  }

  lemma NoSuchCall(front: seq<Append>, other: Append, call: Append)
    requires ScopesDistinct(front) && other in front
    requires other.Scope() == call.Scope() && !other.SameAggregate(call)
    ensures forall c | c in front :: !(c.aggregateType == call.aggregateType && c.aggregateId == call.aggregateId)
  {
    forall c | c in front ensures !(c.aggregateType == call.aggregateType && c.aggregateId == call.aggregateId) {
      assert c.Scope() == other.Scope() ==> c.SameAggregate(other);
    }
  }

  lemma FirstInForeignScope(h: Hash, e: Event, call: Append)
    requires e.payload == Obj(Enrich(call.payload)) && WellFormed(Obj(call.payload)) && e.prevHash.Some?
    requires e.payloadHash == h(Preimage(e, e.prevHash)) && StartsTold(h, [e]) && e in [e]
    ensures !Verified(h, [e])
  {
    hide Canonicalize;
    EnrichKeepsDomain(call.payload);
    PreimageBinds(e, None, e, e.prevHash);
    assert !Linked(h, [e], 0);
  }

  // ---------- any log that appends leave ----------

  /** Names an append; its event is looked at only where the append is named. */
  ghost predicate Position(i: nat) { true }

  /** The log some appends leave: each event continues its scope in the log before it. */
  ghost predicate Logged(h: Hash, calls: seq<Append>, log: seq<Event>) {
    |log| == |calls|
    && forall i: nat {:trigger Position(i)} | i < |calls| && Position(i) :: log[i] == NextEvent(h, log[..i], calls[i])
  }

  lemma {:induction false} LoggedIsReplay(h: Hash, calls: seq<Append>, log: seq<Event>)
    requires Logged(h, calls, log)
    ensures log == Replay(h, calls)
    decreases |calls|
  {
    hide NextEvent;
    if calls != [] {
      var n: nat := |calls| - 1;
      forall i: nat | i < n && Position(i) ensures log[..n][i] == NextEvent(h, log[..n][..i], calls[..n][i]) {
        assert log[..n][..i] == log[..i];
      }
      LoggedIsReplay(h, calls[..n], log[..n]);
      assert Position(n);
      assert log == log[..n] + [log[n]];
    }
  }

  lemma {:induction false} ReplayIsLogged(h: Hash, calls: seq<Append>)
    ensures Logged(h, calls, Replay(h, calls))
    decreases |calls|
  {
    hide NextEvent;
    if calls != [] {
      var n: nat := |calls| - 1;
      var front, log := Replay(h, calls[..n]), Replay(h, calls);
      ReplayIsLogged(h, calls[..n]);
      forall i: nat | i < |calls| && Position(i) ensures log[i] == NextEvent(h, log[..i], calls[i]) {
        assert log[..i] == front[..i];
        if i == n { assert front[..n] == front; }
      }
    }
  }

  /** After any appends to any aggregates, each aggregate's chain verifies if no two share a scope. */
  lemma InterleavedChainsVerify(h: Hash, calls: seq<Append>, log: seq<Event>, t: Text, id: Text)
    requires Logged(h, calls, log) && ScopesDistinct(calls)
    ensures Verified(h, OfAggregate(log, t, id))
  {
    hide Verified, OfAggregate, Replay, NextEvent;
    LoggedIsReplay(h, calls, log);
    ReplayedChainsVerify(h, calls, t, id);
  }

  /** And it holds exactly the appends made to it. */
  lemma ChainLength(h: Hash, calls: seq<Append>, log: seq<Event>, t: Text, id: Text)
    requires Logged(h, calls, log)
    ensures |OfAggregate(log, t, id)| == CountFor(calls, t, id)
  {
    hide OfAggregate, Replay, NextEvent, CountFor;
    LoggedIsReplay(h, calls, log);
    ReplayedChainLength(h, calls, t, id);
  }

  /** The exact condition under which every chain read back verifies. */
  lemma ChainsVerifyIffScopesDistinct(h: Hash, calls: seq<Append>, log: seq<Event>)
    requires Logged(h, calls, log) && PayloadsInDomain(calls) && StartsTold(h, log)
    ensures (forall t, id :: Verified(h, OfAggregate(log, t, id))) <==> ScopesDistinct(calls)
  {
    hide Verified, OfAggregate, Replay, NextEvent, StartsTold;
    LoggedIsReplay(h, calls, log);
    if ScopesDistinct(calls) {
      forall t, id ensures Verified(h, OfAggregate(log, t, id)) {
        InterleavedChainsVerify(h, calls, log, t, id);
      }
    } else {
      var t, id := SharedScopeBreaks(h, calls);
    }
  }

  // ---------- what the callers said ----------

  /** Every logged event carries its call's aggregate and type, and its payload with just the two fields added. */
  lemma EventsCarryTheirCalls(h: Hash, calls: seq<Append>, log: seq<Event>, k: nat)
    requires Logged(h, calls, log) && k < |calls|
    ensures k < |log| && Carries(log[k], calls[k])
  {
    hide Replay, NextEvent, Carries;
    LoggedIsReplay(h, calls, log);
    ReplayShape(h, calls);
  }

  /** The calls of the run that hit one aggregate, in order. */
  ghost function CallsFor(calls: seq<Append>, aggregateType: Text, aggregateId: Text): seq<Append> {
    if calls == [] then []
    else
      var call := calls[|calls| - 1];
      CallsFor(calls[..|calls| - 1], aggregateType, aggregateId) +
      if call.aggregateType == aggregateType && call.aggregateId == aggregateId then [call] else []
  }

  lemma CallsForLast(front: seq<Append>, call: Append, t: Text, id: Text)
    ensures CallsFor(front + [call], t, id)
         == if call.aggregateType == t && call.aggregateId == id then CallsFor(front, t, id) + [call] else CallsFor(front, t, id)
  {
    assert (front + [call])[..|front|] == front;
  }

  ghost predicate EachCarries(events: seq<Event>, calls: seq<Append>) {
    |events| == |calls| && forall k | 0 <= k < |events| :: Carries(events[k], calls[k])
  }

  lemma {:induction false} ReplayedChainCarries(h: Hash, calls: seq<Append>, t: Text, id: Text)
    ensures EachCarries(OfAggregate(Replay(h, calls), t, id), CallsFor(calls, t, id))
    decreases |calls|
  {
    if calls != [] {
      hide NextEvent, Replay, OfAggregate, CallsFor, Carries;
      var front, call := LastCall(calls);
      var log := Replay(h, front);
      ReplayedChainCarries(h, front, t, id);
      ReplayLast(h, front, call);
      NextEventIs(h, log, call);
      NextEventCarries(h, log, call);
      OfAggregateLast(log, NextEvent(h, log, call), t, id);
      CallsForLast(front, call, t, id);
    }
  }

  /** The chain read back for an aggregate is the calls made to it, each event carrying its call. */
  lemma ChainCarriesItsCalls(h: Hash, calls: seq<Append>, log: seq<Event>, t: Text, id: Text)
    requires Logged(h, calls, log)
    ensures EachCarries(OfAggregate(log, t, id), CallsFor(calls, t, id))
  {
    hide OfAggregate, Replay, NextEvent, CallsFor, Carries;
    LoggedIsReplay(h, calls, log);
    ReplayedChainCarries(h, calls, t, id);
  }

  /** Two calls name the same aggregate and event type and say the same, apart from the two added fields. */
  ghost predicate SaysTheSame(c: Append, d: Append) {
    c.SameAggregate(d) && c.eventType == d.eventType && SameApartFromAdded(c.payload, d.payload)
  }

  lemma {:induction false} CallsForAreCalls(calls: seq<Append>, t: Text, id: Text)
    ensures forall c | c in CallsFor(calls, t, id) :: c in calls
  {
    if calls != [] { CallsForAreCalls(calls[..|calls| - 1], t, id); }
  }

  lemma ChainInDomain(h: Hash, calls: seq<Append>, log: seq<Event>, t: Text, id: Text)
    requires Logged(h, calls, log) && PayloadsInDomain(calls)
    ensures Wf(OfAggregate(log, t, id))
  {
    hide OfAggregate, Replay, NextEvent, WellFormed;
    LoggedIsReplay(h, calls, log);
    ReplayInDomain(h, calls);
    OfAggregateIn(log, t, id);
  }

  lemma {:induction false} OfAggregateIn(log: seq<Event>, t: Text, id: Text)
    ensures forall e | e in OfAggregate(log, t, id) :: e in log
  {
    if log != [] { OfAggregateIn(log[..|log| - 1], t, id); }
  }

  lemma {:induction false} ReplayInDomain(h: Hash, calls: seq<Append>)
    requires PayloadsInDomain(calls)
    ensures Wf(Replay(h, calls))
    decreases |calls|
  {
    if calls != [] {
      hide NextEvent, Replay, WellFormed, Enrich;
      var front, call := LastCall(calls);
      ReplayInDomain(h, front);
      ReplayLast(h, front, call);
      NextEventIs(h, Replay(h, front), call);
      EnrichKeepsDomain(call.payload);
    }
  }

  /**
   * The head hash of an aggregate's chain binds what was said: after any appends to two stores, chains with one head
   * were made by the same calls in the same order, payload for payload apart from the two added fields.
   */
  lemma HeadBindsCalls(h: Hash, calls: seq<Append>, log: seq<Event>, t: Text, id: Text,
                       calls': seq<Append>, log': seq<Event>, t': Text, id': Text)
    requires Logged(h, calls, log) && ScopesDistinct(calls) && PayloadsInDomain(calls)
    requires Logged(h, calls', log') && ScopesDistinct(calls') && PayloadsInDomain(calls')
    requires var a, b := OfAggregate(log, t, id), OfAggregate(log', t', id');
             NoCollision(h, a, b) && Head(a) == Head(b) && Head(a).Some?
    ensures var c, d := CallsFor(calls, t, id), CallsFor(calls', t', id');
            |c| == |d| && forall k | 0 <= k < |c| :: SaysTheSame(c[k], d[k])
  {
    hide OfAggregate, CallsFor, Logged, ScopesDistinct, NoCollision, Wf, Verified, SameContent, SaysTheSame;
    var a, b := OfAggregate(log, t, id), OfAggregate(log', t', id');
    var c, d := CallsFor(calls, t, id), CallsFor(calls', t', id');
    InterleavedChainsVerify(h, calls, log, t, id);
    InterleavedChainsVerify(h, calls', log', t', id');
    ChainInDomain(h, calls, log, t, id);
    ChainInDomain(h, calls', log', t', id');
    HeadBindsHistory(h, a, b);
    ChainCarriesItsCalls(h, calls, log, t, id);
    ChainCarriesItsCalls(h, calls', log', t', id');
    CallsForAreCalls(calls, t, id);
    CallsForAreCalls(calls', t', id');
    forall k | 0 <= k < |c| ensures SaysTheSame(c[k], d[k]) {
      assert c[k] in calls && d[k] in calls';
      SameContentSaysTheSame(a[k], c[k], b[k], d[k]);
    }
  }

  lemma SameContentSaysTheSame(e: Event, c: Append, f: Event, d: Append)
    requires Carries(e, c) && Carries(f, d) && SameContent(e, f)
    requires WellFormed(Obj(c.payload)) && WellFormed(Obj(d.payload))
    ensures SaysTheSame(c, d)
  {
    hide SameApartFromAdded, Stores;
    SameStoredSameSaid(e.payload.members, c.payload, f.payload.members, d.payload);
  }

  // ---------- scopes without colons in the type ----------

  lemma FirstColon(t: Text, i: Text)
    requires COLON !in t
    ensures var s := MakeChainScope(t, i);
            s[|t|] == COLON && forall k | 0 <= k < |t| :: s[k] != COLON
  {
    var s := MakeChainScope(t, i);
    forall k | 0 <= k < |t| ensures s[k] != COLON { assert s[k] == t[k] && t[k] in t; }
  }

  /** The type ends at the scope's first colon. */
  lemma ScopeInjective(t: Text, i: Text, u: Text, j: Text)
    requires COLON !in t && COLON !in u && MakeChainScope(t, i) == MakeChainScope(u, j)
    ensures t == u && i == j
  {
    var s := MakeChainScope(t, i);
    FirstColon(t, i);
    FirstColon(u, j);
    assert t == s[..|t|] && u == s[..|u|];
    assert i == s[|t| + 1..] && j == s[|u| + 1..];
  }

  lemma ColonFreeTypesSuffice(calls: seq<Append>)
    requires forall c | c in calls :: COLON !in c.aggregateType
    ensures ScopesDistinct(calls)
  {
    forall c, d | c in calls && d in calls && c.Scope() == d.Scope() ensures c.SameAggregate(d) {
      ScopeInjective(c.aggregateType, c.aggregateId, d.aggregateType, d.aggregateId);
    }
  }

  /** With a colon in the type two aggregates can share a scope: `a:b` with `c`, `a` with `b:c`. */
  lemma ColonInTypeCollides()
    ensures MakeChainScope(Ascii("a:b"), Ascii("c")) == MakeChainScope(Ascii("a"), Ascii("b:c"))
  {
    var s, t := MakeChainScope(Ascii("a:b"), Ascii("c")), MakeChainScope(Ascii("a"), Ascii("b:c"));
    assert s[0] == t[0] && s[1] == t[1] && s[2] == t[2] && s[3] == t[3] && s[4] == t[4];
  }

  // ---------- the store ----------

  class EvidenceStore {
    const hash: Hash
    var evidence: seq<Event>
    ghost var calls: seq<Append>  // the appends made so far

    ghost predicate Valid()
      reads this
    {
      evidence == Replay(hash, calls)
    }

    constructor (hash: Hash)
      ensures Valid() && calls == [] && this.hash == hash
    {
      this.hash := hash;
      evidence := [];
      calls := [];
    }

    /** The log is one that its appends leave. */
    lemma ValidIsLogged()
      requires Valid()
      ensures Logged(hash, calls, evidence)
    {
      ReplayIsLogged(hash, calls);
    }

    method AppendEvidence(call: Append) returns (stored: Event)
      requires Valid()
      modifies this
      ensures Valid() && calls == old(calls) + [call]
      ensures evidence == old(evidence) + [stored]
      ensures stored == NextEvent(hash, old(evidence), call)
      ensures DistinctKeys(call.payload) ==> stored.payload.Obj? && Stores(stored.payload.members, call.payload)
    {
      hide CreateEvidenceEvent, Replay, OfScope, Stores, Enrich;
      if DistinctKeys(call.payload) { EnrichStores(call.payload); }
      var scopeEvents := EventsOfScope(MakeChainScope(call.aggregateType, call.aggregateId));
      var prevHash := if |scopeEvents| > 0 then Some(scopeEvents[|scopeEvents| - 1].payloadHash) else None;
      stored := CreateEvidenceEvent(hash, call.aggregateType, call.aggregateId, call.eventType,
                                    call.payload, prevHash);
      ReplayLast(hash, calls, call);
      evidence := evidence + [stored];
      calls := calls + [call];
    }

    method EventsOfScope(scope: Text) returns (events: seq<Event>)
      ensures events == OfScope(evidence, scope)
    {
      events := [];
      for i := 0 to |evidence|
        invariant events == OfScope(evidence[..i], scope)
      {
        assert evidence[..i + 1][..i] == evidence[..i];
        if evidence[i].chainScope == Some(scope) {
          events := events + [evidence[i]];
        }
      }
      assert evidence[..|evidence|] == evidence;
    }

    method GetEvidence(aggregateType: Text, aggregateId: Text) returns (events: seq<Event>)
      ensures events == OfAggregate(evidence, aggregateType, aggregateId)
    {
      events := [];
      for i := 0 to |evidence|
        invariant events == OfAggregate(evidence[..i], aggregateType, aggregateId)
      {
        assert evidence[..i + 1][..i] == evidence[..i];
        if evidence[i].aggregateType == aggregateType && evidence[i].aggregateId == aggregateId {
          events := events + [evidence[i]];
        }
      }
      assert evidence[..|evidence|] == evidence;
    }
  }
}
