/**
 * Reservation of account sequences: the TTL cache, the Postgres lease table and the memory
 * database. A reservation is one instant; the ledger's answer to a fetch is a parameter.
 */
module SequenceLease {
  import opened Options

  const LEASE_TTL_MS: nat := 30_000

  type Account = string

  datatype Lease = Lease(next: int, expiresAt: int)

  /** `fetch` is the Sequence the ledger would answer with now, if it would answer. */
  datatype Op =
    | Reserve(account: Account, now: int, fetch: Option<int>)
    | Invalidate(account: Account)

  datatype Store = TtlCache | LeaseTable | MemoryDb

  type Leases = map<Account, Lease>

  /** May the lease still be used? The stores differ at the very instant of expiry. */
  predicate Live(store: Store, l: Lease, now: int) {
    match store
    case TtlCache => l.expiresAt > now
    case LeaseTable => l.expiresAt >= now
    case MemoryDb => true
  }

  predicate HasLease(store: Store, leases: Leases, account: Account, now: int) {
    account in leases && Live(store, leases[account], now)
  }

  /** The leases after an operation and the sequence it handed out. */
  function Step(store: Store, leases: Leases, op: Op): (Leases, Option<int>) {
    match op
    case Invalidate(account) => (leases - {account}, None)
    case Reserve(account, now, fetch) =>
      if HasLease(store, leases, account, now) then
        var reserved := leases[account].next;
        (leases[account := Lease(reserved + 1, now + LEASE_TTL_MS)], Some(reserved))
      else
        match fetch
        case None => (leases, None)
        case Some(reserved) => (leases[account := Lease(reserved + 1, now + LEASE_TTL_MS)], Some(reserved))
  }

  // ---------- the three stores ----------

  class TtlCoordinator {
    var localCache: map<Account, Lease>

    constructor ()
      ensures localCache == map[]
    {
      localCache := map[];
    }

    method WithAccountSequence(account: Account, now: int, fetch: Option<int>) returns (reserved: Option<int>)
      modifies this
      ensures (localCache, reserved) == Step(TtlCache, old(localCache), Reserve(account, now, fetch))
    {
      if account in localCache && localCache[account].expiresAt > now {
        reserved := Some(localCache[account].next);
      } else {
        reserved := fetch;
        if reserved == None { return; }
      }
      localCache := localCache[account := Lease(reserved.value + 1, now + LEASE_TTL_MS)];
    }

    method InvalidateAccount(account: Account)
      modifies this
      ensures localCache == Step(TtlCache, old(localCache), Invalidate(account)).0
    {
      localCache := localCache - {account};
    }
  }

  class PgSequences {
    var rows: map<Account, Lease>

    constructor ()
      ensures rows == map[]
    {
      rows := map[];
    }

    /** One transaction: expired leases go first, and a failed fetch rolls all of it back. */
    method ReserveAccountSequence(account: Account, now: int, fetch: Option<int>) returns (reserved: Option<int>)
      modifies this
      ensures (rows, reserved) == Step(LeaseTable, old(rows), Reserve(account, now, fetch))
    {
      var begun := rows;
      if account in rows && rows[account].expiresAt < now {
        rows := rows - {account};
      }
      if account !in rows {
        reserved := fetch;
        if reserved == None {
          rows := begun;
          return;
        }
        rows := rows[account := Lease(reserved.value + 1, now + LEASE_TTL_MS)];
        assert rows == begun[account := rows[account]];
      } else {
        reserved := Some(rows[account].next);
        rows := rows[account := Lease(reserved.value + 1, now + LEASE_TTL_MS)];
      }
    }

    method ForgetAccountSequence(account: Account)
      modifies this
      ensures rows == Step(LeaseTable, old(rows), Invalidate(account)).0
    {
      rows := rows - {account};
    }
  }

  /** The memory database keeps the next sequence of each account and no expiry. */
  ghost function Nexts(leases: Leases): map<Account, int> {
    map a | a in leases :: leases[a].next
  }

  // ---------- traces ----------

  ghost function Before(store: Store, trace: seq<Op>, i: nat): Leases
    requires i <= |trace|
  {
    if i == 0 then map[] else Step(store, Before(store, trace, i - 1), trace[i - 1]).0
  }

  /** What operation i hands out. */
  ghost function OutAt(store: Store, trace: seq<Op>, i: nat): Option<int>
    requires i < |trace|
  {
    Step(store, Before(store, trace, i), trace[i]).1
  }

  /** Operation i hands out a sequence of the account. */
  ghost predicate Reserves(store: Store, trace: seq<Op>, a: Account, i: nat)
    requires i < |trace|
  {
    trace[i].Reserve? && trace[i].account == a && OutAt(store, trace, i).Some?
  }

  /** Operation i has to ask the ledger. */
  ghost predicate Refetches(store: Store, trace: seq<Op>, i: nat)
    requires i < |trace|
  {
    trace[i].Reserve? && !HasLease(store, Before(store, trace, i), trace[i].account, trace[i].now)
  }

  // ---------- a trace only grows ----------

  lemma {:induction false} BeforePrefix(store: Store, trace: seq<Op>, more: seq<Op>, i: nat)
    requires i <= |trace|
    ensures Before(store, trace + more, i) == Before(store, trace, i)
  {
    if i > 0 { BeforePrefix(store, trace, more, i - 1); }
  }

  lemma OutPrefix(store: Store, trace: seq<Op>, more: seq<Op>, i: nat)
    requires i < |trace|
    ensures OutAt(store, trace + more, i) == OutAt(store, trace, i)
  {
    BeforePrefix(store, trace, more, i);
  }

  // ---------- no repeat and no gap ----------

  /** The account's latest successful refetch before i. */
  ghost function Base(store: Store, trace: seq<Op>, a: Account, i: nat): (b: Option<nat>)
    requires i <= |trace|
    ensures b.Some? ==> b.value < i && Reserves(store, trace, a, b.value) && Refetches(store, trace, b.value)
  {
    if i == 0 then None
    else if Reserves(store, trace, a, i - 1) && Refetches(store, trace, i - 1) then Some(i - 1)
    else Base(store, trace, a, i - 1)
  }

  /** The account's reservations from operation b up to i. */
  ghost function ReservedSince(store: Store, trace: seq<Op>, a: Account, b: nat, i: nat): nat
    requires b <= i <= |trace|
  {
    if b == i then 0
    else ReservedSince(store, trace, a, b, i - 1) + if Reserves(store, trace, a, i - 1) then 1 else 0
  }

  lemma {:induction false} LeaseContinuesBase(store: Store, trace: seq<Op>, a: Account, i: nat)
    requires i <= |trace| && a in Before(store, trace, i)
    ensures Base(store, trace, a, i).Some?
    ensures var b := Base(store, trace, a, i).value;
            Before(store, trace, i)[a].next
            == OutAt(store, trace, b).value + ReservedSince(store, trace, a, b, i)
  {
    var op := trace[i - 1];
    if Reserves(store, trace, a, i - 1) && Refetches(store, trace, i - 1) {
      assert ReservedSince(store, trace, a, i - 1, i) == 1;
    } else {
      LeaseContinuesBase(store, trace, a, i - 1);
    }
  }

  /** A reservation that asks no ledger hands out the value after all handed out since the last that did. */
  lemma NoRepeatNoGap(store: Store, trace: seq<Op>, a: Account, i: nat)
    requires i < |trace| && Reserves(store, trace, a, i) && !Refetches(store, trace, i)
    ensures var b := Base(store, trace, a, i);
            && b.Some?
            && OutAt(store, trace, i).value
               == OutAt(store, trace, b.value).value + ReservedSince(store, trace, a, b.value, i)
  {
    LeaseContinuesBase(store, trace, a, i);
  }

  // ---------- strictly increasing ----------

  /** The last sequence handed out for the account before i. */
  ghost function LastOut(store: Store, trace: seq<Op>, a: Account, i: nat): Option<int>
    requires i <= |trace|
  {
    if i == 0 then None
    else if Reserves(store, trace, a, i - 1) then OutAt(store, trace, i - 1)
    else LastOut(store, trace, a, i - 1)
  }

  lemma {:induction false} LeaseFollowsLast(store: Store, trace: seq<Op>, a: Account, i: nat)
    requires i <= |trace| && a in Before(store, trace, i)
    ensures LastOut(store, trace, a, i) == Some(Before(store, trace, i)[a].next - 1)
  {
    if !Reserves(store, trace, a, i - 1) {
      LeaseFollowsLast(store, trace, a, i - 1);
    }
  }

  lemma {:induction false} LastOutIsSome(store: Store, trace: seq<Op>, a: Account, i: nat) returns (j: nat)
    requires i <= |trace| && LastOut(store, trace, a, i).Some?
    ensures j < i && Reserves(store, trace, a, j) && OutAt(store, trace, j) == LastOut(store, trace, a, i)
  {
    if Reserves(store, trace, a, i - 1) {
      j := i - 1;
    } else {
      j := LastOutIsSome(store, trace, a, i - 1);
    }
  }

  /** Every later fetch is ahead of the last sequence handed out. */
  ghost predicate FetchesAhead(store: Store, trace: seq<Op>, a: Account) {
    forall i: nat | i < |trace| && Reserves(store, trace, a, i) && Refetches(store, trace, i) ::
      var last := LastOut(store, trace, a, i);
      last.Some? ==> OutAt(store, trace, i).value > last.value
  }

  ghost predicate StrictlyIncreasing(store: Store, trace: seq<Op>, a: Account) {
    forall i: nat, j: nat | i < j < |trace| && Reserves(store, trace, a, i) && Reserves(store, trace, a, j) ::
      OutAt(store, trace, i).value < OutAt(store, trace, j).value
  }

  lemma StepsUp(store: Store, trace: seq<Op>, a: Account, j: nat)
    requires j < |trace| && Reserves(store, trace, a, j) && FetchesAhead(store, trace, a)
    ensures var last := LastOut(store, trace, a, j); last.Some? ==> last.value < OutAt(store, trace, j).value
  {
    if !Refetches(store, trace, j) { LeaseFollowsLast(store, trace, a, j); }
  }

  lemma {:induction false} LastOutIsGreatest(store: Store, trace: seq<Op>, a: Account, i: nat, j: nat)
    requires i < j <= |trace| && Reserves(store, trace, a, i) && FetchesAhead(store, trace, a)
    ensures LastOut(store, trace, a, j).Some?
    ensures OutAt(store, trace, i).value <= LastOut(store, trace, a, j).value
  {
    if i < j - 1 {
      LastOutIsGreatest(store, trace, a, i, j - 1);
      if Reserves(store, trace, a, j - 1) { StepsUp(store, trace, a, j - 1); }
    }
  }

  /** No sequence is handed out twice, and they rise, exactly when every refetch is ahead. */
  lemma IncreasingIffFetchesAhead(store: Store, trace: seq<Op>, a: Account)
    ensures StrictlyIncreasing(store, trace, a) <==> FetchesAhead(store, trace, a)
  {
    hide Before, OutAt;
    if StrictlyIncreasing(store, trace, a) {
      forall i: nat | i < |trace| && Reserves(store, trace, a, i) && LastOut(store, trace, a, i).Some?
        ensures OutAt(store, trace, i).value > LastOut(store, trace, a, i).value
      {
        var j := LastOutIsSome(store, trace, a, i);
      }
    }
    if FetchesAhead(store, trace, a) {
      forall i: nat, j: nat | i < j < |trace| && Reserves(store, trace, a, i) && Reserves(store, trace, a, j)
        ensures OutAt(store, trace, i).value < OutAt(store, trace, j).value
      {
        LastOutIsGreatest(store, trace, a, i, j);
        StepsUp(store, trace, a, j);
      }
    }
  }

  // ---------- how long a lease lives ----------

  /** The account's latest reservation before i that handed out a sequence, unless it was invalidated since. */
  ghost function LastUse(store: Store, trace: seq<Op>, a: Account, i: nat): (u: Option<nat>)
    requires i <= |trace|
    ensures u.Some? ==> u.value < i && Reserves(store, trace, a, u.value)
    ensures u.Some? ==> forall j: nat | u.value < j < i :: !Reserves(store, trace, a, j) && trace[j] != Invalidate(a)
    ensures u.None? ==> forall j: nat | j < i && Reserves(store, trace, a, j) :: exists k: nat :: j < k < i && trace[k] == Invalidate(a)
  {
    if i == 0 then None
    else if Reserves(store, trace, a, i - 1) then Some(i - 1)
    else if trace[i - 1] == Invalidate(a) then
      var none: Option<nat> := None;
      assert trace[i - 1] == Invalidate(a);
      none
    else LastUse(store, trace, a, i - 1)
  }

  /** A lease starts afresh with each reservation: half a minute from its instant, one sequence on. */
  lemma {:induction false} LeaseFromLastUse(store: Store, trace: seq<Op>, a: Account, i: nat)
    requires i <= |trace|
    ensures a in Before(store, trace, i) <==> LastUse(store, trace, a, i).Some?
    ensures a in Before(store, trace, i) ==>
              var u := LastUse(store, trace, a, i).value;
              Before(store, trace, i)[a] == Lease(OutAt(store, trace, u).value + 1, trace[u].now + 30_000)
  {
    hide Before;
    if i == 0 {
      NoLeases(store, trace);
    } else {
      LeaseFromLastUse(store, trace, a, i - 1);
      StepOf(store, trace, i - 1);
    }
  }

  lemma NoLeases(store: Store, trace: seq<Op>)
    ensures Before(store, trace, 0) == map[]
  {
  }

  /**
   * A reservation asks the ledger exactly when the account has not reserved since it was invalidated, or its last
   * reservation is half a minute ago: for the cache at that very instant already, for the lease table only after it,
   * and for the memory database never.
   */
  lemma AsksExactlyWhen(store: Store, trace: seq<Op>, i: nat)
    requires i < |trace| && trace[i].Reserve?
    ensures Refetches(store, trace, i)
            <==> var u := LastUse(store, trace, trace[i].account, i);
                 u.None? || match store
                            case TtlCache => trace[i].now - trace[u.value].now >= 30_000
                            case LeaseTable => trace[i].now - trace[u.value].now > 30_000
                            case MemoryDb => false
    ensures OutAt(store, trace, i)
            == if Refetches(store, trace, i) then trace[i].fetch
               else Some(OutAt(store, trace, LastUse(store, trace, trace[i].account, i).value).value + 1)
  {
    LeaseFromLastUse(store, trace, trace[i].account, i);
    hide LastUse, Before;
  }

  // ---------- the cache refines the lease table ----------

  /** Operation i falls on the very instant its account's lease expires. */
  ghost predicate AtExpiry(trace: seq<Op>, i: nat)
    requires i < |trace|
  {
    var leases := Before(LeaseTable, trace, i);
    trace[i].Reserve? && trace[i].account in leases && leases[trace[i].account].expiresAt == trace[i].now
  }

  /** The ledger would answer the sequence the lease holds. */
  ghost predicate FetchMatchesLease(trace: seq<Op>, i: nat)
    requires i < |trace| && AtExpiry(trace, i)
  {
    trace[i].fetch == Some(Before(LeaseTable, trace, i)[trace[i].account].next)
  }

  lemma SameStep(trace: seq<Op>, i: nat)
    requires i < |trace| && Before(TtlCache, trace, i) == Before(LeaseTable, trace, i)
    ensures OutAt(TtlCache, trace, i) == OutAt(LeaseTable, trace, i)
            <==> (AtExpiry(trace, i) ==> FetchMatchesLease(trace, i))
    ensures OutAt(TtlCache, trace, i) == OutAt(LeaseTable, trace, i) ==>
              Before(TtlCache, trace, i + 1) == Before(LeaseTable, trace, i + 1)
  {
    hide Before;
    StepOf(TtlCache, trace, i);
    StepOf(LeaseTable, trace, i);
  }

  lemma StepOf(store: Store, trace: seq<Op>, i: nat)
    requires i < |trace|
    ensures Before(store, trace, i + 1) == Step(store, Before(store, trace, i), trace[i]).0
  {
  }

  lemma {:induction false} SameLeases(trace: seq<Op>, n: nat)
    requires n <= |trace|
    requires forall i: nat | i < n :: OutAt(TtlCache, trace, i) == OutAt(LeaseTable, trace, i)
    ensures Before(TtlCache, trace, n) == Before(LeaseTable, trace, n)
  {
    if n > 0 {
      SameLeases(trace, n - 1);
      SameStep(trace, n - 1);
    }
  }

  lemma {:induction false} AgreeWhereFetchesMatch(trace: seq<Op>, n: nat)
    requires n <= |trace|
    requires forall i: nat | i < n && AtExpiry(trace, i) :: FetchMatchesLease(trace, i)
    ensures Before(TtlCache, trace, n) == Before(LeaseTable, trace, n)
    ensures forall i: nat | i < n :: OutAt(TtlCache, trace, i) == OutAt(LeaseTable, trace, i)
  {
    if n > 0 {
      hide Before, OutAt;
      AgreeWhereFetchesMatch(trace, n - 1);
      SameStep(trace, n - 1);
    }
  }

  /** Both stores hand out the same on a trace exactly when each fetch at an expiry matches the lease. */
  lemma CacheRefinesTable(trace: seq<Op>)
    ensures (forall i: nat | i < |trace| :: OutAt(TtlCache, trace, i) == OutAt(LeaseTable, trace, i))
            <==> (forall i: nat | i < |trace| && AtExpiry(trace, i) :: FetchMatchesLease(trace, i))
  {
    hide Before, OutAt, FetchMatchesLease;
    if forall i: nat | i < |trace| :: OutAt(TtlCache, trace, i) == OutAt(LeaseTable, trace, i) {
      forall i: nat | i < |trace| && AtExpiry(trace, i) ensures FetchMatchesLease(trace, i) {
        SameLeases(trace, i);
        SameStep(trace, i);
      }
    }
    if forall i: nat | i < |trace| && AtExpiry(trace, i) :: FetchMatchesLease(trace, i) {
      AgreeWhereFetchesMatch(trace, |trace|);
    }
  }

  /** In particular when no reservation falls on an expiry. */
  lemma AgreeOffExpiry(trace: seq<Op>, i: nat)
    requires i < |trace| && forall j: nat | j < |trace| :: !AtExpiry(trace, j)
    ensures OutAt(TtlCache, trace, i) == OutAt(LeaseTable, trace, i)
  {
    AgreeWhereFetchesMatch(trace, |trace|);
  }

  /** On an expiry they can differ: the cache asks the ledger again, the table does not. */
  lemma DifferAtExpiry()
    ensures var trace := [Reserve("r", 0, Some(7)), Reserve("r", 30_000, Some(7))];
            AtExpiry(trace, 1) && OutAt(TtlCache, trace, 1) == Some(7) && OutAt(LeaseTable, trace, 1) == Some(8)
  {
    var trace := [Reserve("r", 0, Some(7)), Reserve("r", 30_000, Some(7))];
    assert Before(LeaseTable, trace, 1) == map["r" := Lease(8, 30_000)];
    assert Before(TtlCache, trace, 1) == map["r" := Lease(8, 30_000)];
  }
}
