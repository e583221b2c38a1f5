/**
 * The worker's tick: a pass of the executor, then the indexer, then reconciliation, with API
 * calls in between their writes. Every tick is a run of the protocol.
 */
module LedgerWorker {
  import opened Options
  import opened SharedTypes
  import opened OutboxDb
  import opened Protocol
  import opened Control
  import opened MemoryStore
  import opened Lookup
  import opened TxExecutor
  import opened Enrichment
  import opened Founding
  import opened Ownership
  import LedgerState

  const BATCH: nat := 20

  // ---------- single steps ----------

  lemma RefetchStep(cfg: Config, s: Sys, id: nat, result: TxResult)
    requires s.worker.Idle? && id < |s.db.outbox| && NeedsIndex(s.db.outbox[id].status) && result.validated
    ensures Next(cfg, s, Refetch(id, result))
         == s.(db := s.db.(outbox := UpdateRow(s.db.outbox, id, NO_PATCH.(txResult := Some(Some(result))))))
  {
  }

  lemma EnrichStep(cfg: Config, s: Sys, id: nat)
    requires s.worker.Idle? && id < |s.db.outbox|
    requires NeedsIndex(s.db.outbox[id].status) || ForReconciliation(s.db.outbox[id].status)
    ensures Next(cfg, s, Enrich(id)) == s.(db := Enriched(s.db, s.db.outbox[id]))
  {
    hide Enriched;
  }

  lemma MarkStep(cfg: Config, s: Sys, id: nat)
    requires s.worker.Idle? && id < |s.db.outbox| && NeedsIndex(s.db.outbox[id].status) && s.db.outbox[id].txResult.Some?
    ensures Next(cfg, s, MarkIndexed(id)) == s.(db := SetStatus(s.db, id, Indexed))
  {
  }

  /** Only warnings are ever found, so the row is always reconciled. */
  lemma ReconcileStep(cfg: Config, s: Sys, id: nat, missing: seq<string>)
    requires s.worker.Idle? && id < |s.db.outbox| && ForReconciliation(s.db.outbox[id].status)
    ensures Next(cfg, s, Reconcile(id, missing)) == s.(db := SetStatus(s.db, id, Reconciled))
  {
  }

  // ---------- candidates ----------

  /** Rows other than one, apart from those that may still be signed, are as they were, and none comes up for reconciliation. */
  ghost predicate RestKept(before: seq<Row>, after: seq<Row>, id: nat) {
    && |before| <= |after|
    && (forall i | 0 <= i < |before| && i != id && before[i].status !in {Pending, Processing, Signed1} :: after[i] == before[i])
    && (forall i | 0 <= i < |after| && i != id && ForReconciliation(after[i].status) ::
          i < |before| && ForReconciliation(before[i].status))
  }

  lemma RestAddsUp(a: seq<Row>, b: seq<Row>, c: seq<Row>, id: nat)
    requires RestKept(a, b, id) && RestKept(b, c, id)
    ensures RestKept(a, c, id)
  {
  }

  lemma RestAfterCalls(a: seq<Row>, b: seq<Row>, c: seq<Row>, id: nat)
    requires OnlySignatures(a, b) && RestKept(b, c, id)
    ensures RestKept(a, c, id)
  {
  }

  lemma OneRowKept(before: seq<Row>, after: seq<Row>, id: nat)
    requires |before| == |after| && forall i | 0 <= i < |before| && i != id :: after[i] == before[i]
    ensures RestKept(before, after, id)
  {
  }

  /** Distinct rows in given states. */
  ghost predicate Candidates(outbox: seq<Row>, ids: seq<nat>, statuses: set<Status>) {
    && (forall k | 0 <= k < |ids| :: ids[k] < |outbox| && outbox[ids[k]].status in statuses)
    && (forall k, l | 0 <= k < l < |ids| :: ids[k] != ids[l])
  }

  lemma ListedAreCandidates(outbox: seq<Row>, statuses: set<Status>, limit: nat)
    ensures Candidates(outbox, Firsts(IdsIn(outbox, statuses), limit), statuses)
  {
    IdsInFacts(outbox, statuses);
    hide IdsIn;
    var all := IdsIn(outbox, statuses);
    var ids := Firsts(all, limit);
    forall k | 0 <= k < |ids| ensures ids[k] < |outbox| && outbox[ids[k]].status in statuses {
      assert ids[k] == all[k] && all[k] in all;
    }
  }

  /** How many rows before row i are in one of the states. */
  ghost function CountIn(outbox: seq<Row>, statuses: set<Status>, i: nat): nat
    requires i <= |outbox|
  {
    if i == 0 then 0 else CountIn(outbox, statuses, i - 1) + if outbox[i - 1].status in statuses then 1 else 0
  }

  /** Row id is one of the n oldest in the states. */
  ghost predicate AmongOldest(outbox: seq<Row>, statuses: set<Status>, n: nat, id: nat) {
    id < |outbox| && outbox[id].status in statuses && CountIn(outbox, statuses, id) < n
  }

  lemma {:induction false} CountInPrefix(outbox: seq<Row>, statuses: set<Status>, n: nat, i: nat)
    requires i <= n <= |outbox|
    ensures CountIn(outbox[..n], statuses, i) == CountIn(outbox, statuses, i)
  {
    if i > 0 { CountInPrefix(outbox, statuses, n, i - 1); }
  }

  lemma {:induction false} PlaceInList(outbox: seq<Row>, statuses: set<Status>, id: nat)
    ensures |IdsIn(outbox, statuses)| == CountIn(outbox, statuses, |outbox|)
    ensures id < |outbox| && outbox[id].status in statuses ==>
              var k := CountIn(outbox, statuses, id);
              k < |IdsIn(outbox, statuses)| && IdsIn(outbox, statuses)[k] == id
  {
    if outbox != [] {
      var n: nat := |outbox| - 1;
      PlaceInList(outbox[..n], statuses, id);
      CountInPrefix(outbox, statuses, n, n);
      if id < n { CountInPrefix(outbox, statuses, n, id); }
    }
  }

  /** The oldest rows are those listed first. */
  lemma OldestAreListed(outbox: seq<Row>, statuses: set<Status>, n: nat)
    ensures forall id: nat | AmongOldest(outbox, statuses, n, id) :: id in Firsts(IdsIn(outbox, statuses), n)
  {
    forall id: nat | AmongOldest(outbox, statuses, n, id) ensures id in Firsts(IdsIn(outbox, statuses), n) {
      PlaceInList(outbox, statuses, id);
    }
  }

  /** Calls bring no row into or out of the states listed. */
  lemma SameListed(before: seq<Row>, after: seq<Row>, statuses: set<Status>)
    requires OnlySignatures(before, after) && statuses !! {Pending, Processing, Signed1, Signed2}
    ensures IdsIn(after, statuses) == IdsIn(before, statuses)
  {
    IdsInFacts(before, statuses);
    IdsInFacts(after, statuses);
    hide IdsIn;
    IncreasingUnique(IdsIn(after, statuses), IdsIn(before, statuses));
  }

  const TO_INDEX := {Status.Submitted, Validated}
  const TO_RECONCILE := {Validated, Indexed, Prepared}

  lemma CandidatesAfterOne(before: seq<Row>, after: seq<Row>, ids: seq<nat>, statuses: set<Status>)
    requires ids != [] && Candidates(before, ids, statuses) && RestKept(before, after, ids[0])
    requires statuses !! {Pending, Processing, Signed1}
    ensures Candidates(after, ids[1..], statuses)
  {
  }

  /** Indexed, or without any result to index. */
  ghost predicate SeenByIndexer(outbox: seq<Row>, id: nat) {
    id < |outbox| && (outbox[id].status == Indexed || (NeedsIndex(outbox[id].status) && outbox[id].txResult.None?))
  }

  ghost predicate AllSeen(outbox: seq<Row>, ids: seq<nat>) {
    forall id | id in ids :: SeenByIndexer(outbox, id)
  }

  lemma SeenStay(before: seq<Row>, after: seq<Row>, ids: seq<nat>, k: nat)
    requires k < |ids| && RestKept(before, after, ids[k]) && AllSeen(before, ids[..k]) && SeenByIndexer(after, ids[k])
    requires Candidates(before, ids[k..], TO_INDEX)
    ensures AllSeen(after, ids[..k + 1])
  {
    forall id | id in ids[..k + 1] ensures SeenByIndexer(after, id) {
      assert id != ids[k] ==> id in ids[..k];
    }
  }

  ghost predicate AllReconciled(outbox: seq<Row>, ids: seq<nat>) {
    forall id | id in ids :: id < |outbox| && outbox[id].status == Reconciled
  }

  lemma ReconciledStay(before: seq<Row>, after: seq<Row>, ids: seq<nat>, k: nat)
    requires k < |ids| && RestKept(before, after, ids[k]) && AllReconciled(before, ids[..k])
    requires Candidates(before, ids[k..], TO_RECONCILE) && after[ids[k]].status == Reconciled
    ensures AllReconciled(after, ids[..k + 1])
  {
    forall id | id in ids[..k + 1] ensures id < |after| && after[id].status == Reconciled {
      assert id != ids[k] ==> id in ids[..k];
    }
  }

  /** Rows up for reconciliation were so when they were listed. */
  ghost predicate Listed(outbox: seq<Row>, listed: seq<nat>) {
    forall i: nat | i < |outbox| && ForReconciliation(outbox[i].status) :: i in listed
  }

  lemma ListedAfterOne(before: seq<Row>, after: seq<Row>, listed: seq<nat>, id: nat)
    requires Listed(before, listed) && id in listed && RestKept(before, after, id)
    ensures Listed(after, listed)
  {
  }

  /** What a listed deposit is for comes earlier in the list, if it is not reconciled already. */
  lemma FounderReconciled(cfg: Config, labels: seq<Label>, listed: seq<nat>, ids: seq<nat>, k: nat)
    requires k < |ids| <= |listed| && ids == listed[..|ids|]
    requires forall i, j | 0 <= i < j < |listed| :: listed[i] < listed[j]
    requires var outbox := Run(cfg, labels).db.outbox; Listed(outbox, listed) && AllReconciled(outbox, ids[..k])
    requires ids[k] < |Run(cfg, labels).db.outbox|
    ensures var outbox := Run(cfg, labels).db.outbox; Funds(outbox[ids[k]].kind) ==> FounderDone(outbox, outbox[ids[k]])
  {
    hide Run, Reachable;
    var s := Run(cfg, labels);
    var outbox := s.db.outbox;
    LedToIsReachable(cfg, labels);
    forall c: nat | c < |outbox| && Founds(outbox[c].kind) && Funds(outbox[ids[k]].kind) && SameThing(outbox[c], outbox[ids[k]])
      ensures outbox[c].status == Reconciled
    {
      DepositsFollowCreation(cfg, s, c, ids[k]);
      if ForReconciliation(outbox[c].status) {
        var m :| 0 <= m < |listed| && listed[m] == c;
        assert m < k && ids[..k][m] == c;
      }
    }
  }

  /** Calls bring in no row about a thing that is there already, and leave reconciled rows alone. */
  lemma DoneAfterCalls(cfg: Config, labels: seq<Label>, before: seq<Row>, id: nat)
    requires OnlySignatures(before, Run(cfg, labels).db.outbox) && id < |before| && FounderDone(before, before[id])
    requires Funds(before[id].kind) && before[id] == Run(cfg, labels).db.outbox[id]
    ensures FounderDone(Run(cfg, labels).db.outbox, before[id])
  {
    hide Run, Reachable;
    var s := Run(cfg, labels);
    LedToIsReachable(cfg, labels);
    forall c: nat | c < |s.db.outbox| && Founds(s.db.outbox[c].kind) && SameThing(s.db.outbox[c], before[id])
      ensures s.db.outbox[c].status == Reconciled
    {
      DepositsFollowCreation(cfg, s, c, id);
      assert s.db.outbox[c] == before[c];
    }
  }

  lemma EffectAfterCalls(db: Db, t: Db, row: Row)
    requires Funded(db, row) && db.vaults <= t.vaults && db.brokers <= t.brokers
    ensures Funded(t, row)
  {
  }

  lemma EnrichedIsFunded(db: Db, row: Row)
    requires Funds(row.kind) && RowOwned(db, row)
    ensures Funded(Enriched(db, row), row)
  {
  }

  /** A hash the ledger can be asked about. */
  predicate HasRealHash(row: Row) { Truthy(row.txHash) && !("PSEUDO_" <= row.txHash.value) }

  /** The hash is one made up in a dry run. */
  predicate StartsPseudo(hash: string) { |hash| >= 7 && hash[..7] == "PSEUDO_" }

  lemma PseudoByText(row: Row)
    ensures HasRealHash(row) <==> row.txHash.Some? && row.txHash.value != "" && !StartsPseudo(row.txHash.value)
  {
    if row.txHash.Some? { assert "PSEUDO_" <= row.txHash.value <==> StartsPseudo(row.txHash.value); }
  }

  /** What the ledger shows when asked for a vault, and when asked for any entry. */
  datatype Shown = Shown(vaults: set<string>, entries: set<string>)

  /** For each object created, whether the ledger shows it; a vault may be shown in two ways. */
  function Presence(created: LedgerState.Ids, shown: Shown): seq<(string, bool)> {
    (if Truthy(created.vaultId)
     then [("vault", created.vaultId.value in shown.vaults || created.vaultId.value in shown.entries)] else [])
    + (if Truthy(created.loanBrokerId) then [("loanBroker", created.loanBrokerId.value in shown.entries)] else [])
    + (if Truthy(created.loanId) then [("loan", created.loanId.value in shown.entries)] else [])
  }

  /** The fields under which objects the ledger does not show are reported. */
  function Missing(detail: seq<(string, bool)>): seq<string> {
    if detail == [] then []
    else Missing(detail[..|detail| - 1]) + if detail[|detail| - 1].1 then [] else ["ledger_" + detail[|detail| - 1].0]
  }

  /** Exactly the created objects that the ledger shows nowhere are missing, each under its field. */
  lemma MissingByText(created: LedgerState.Ids, shown: Shown, f: string)
    ensures f in Missing(Presence(created, shown))
            <==> || (f == "ledger_vault" && Truthy(created.vaultId)
                     && created.vaultId.value !in shown.vaults && created.vaultId.value !in shown.entries)
                 || (f == "ledger_loanBroker" && Truthy(created.loanBrokerId) && created.loanBrokerId.value !in shown.entries)
                 || (f == "ledger_loan" && Truthy(created.loanId) && created.loanId.value !in shown.entries)
  {
    hide Missing;
    var detail := Presence(created, shown);
    assert "ledger_" + "vault" == "ledger_vault" && "ledger_" + "loanBroker" == "ledger_loanBroker" && "ledger_" + "loan" == "ledger_loan";
    MissingAre(detail, f);
  }

  lemma {:induction false} MissingAre(detail: seq<(string, bool)>, f: string)
    ensures f in Missing(detail) <==> exists d :: d in detail && !d.1 && f == "ledger_" + d.0
  {
    if detail != [] {
      var n := |detail| - 1;
      MissingAre(detail[..n], f);
      assert detail == detail[..n] + [detail[n]];
    }
  }

  lemma WarningsFor(missing: seq<string>, m: Mismatch)
    ensures m in PostSubmitMismatches(missing) <==> m.severity == Warning && m.field in missing
  {
    if m.severity == Warning && m.field in missing {
      var i :| 0 <= i < |missing| && missing[i] == m.field;
      assert PostSubmitMismatches(missing)[i] == m;
    }
  }

  /** The mismatch warns of a created object that the ledger shows nowhere. */
  predicate WarnsOfMissing(m: Mismatch, created: LedgerState.Ids, shown: Shown) {
    && m.severity == Warning
    && ((m.field == "ledger_vault" && Truthy(created.vaultId)
         && created.vaultId.value !in shown.vaults && created.vaultId.value !in shown.entries)
        || (m.field == "ledger_loanBroker" && Truthy(created.loanBrokerId) && created.loanBrokerId.value !in shown.entries)
        || (m.field == "ledger_loan" && Truthy(created.loanId) && created.loanId.value !in shown.entries))
  }

  /** The check of what a row created warns of exactly what is missing. */
  lemma WarningsByText(created: LedgerState.Ids, shown: Shown, m: Mismatch)
    ensures m in PostSubmitMismatches(Missing(Presence(created, shown))) <==> WarnsOfMissing(m, created, shown)
  {
    hide PostSubmitMismatches, Missing, Presence;
    MissingByText(created, shown, m.field);
    WarningsFor(Missing(Presence(created, shown)), m);
  }

  /** That some step was taken since. */
  ghost predicate Did(before: seq<Label>, after: seq<Label>, l: Label) {
    before <= after && exists k :: |before| <= k < |after| && after[k] == l
  }

  lemma DidOnce(before: seq<Label>, called: seq<Label>, after: seq<Label>, l: Label)
    requires before <= called && called + [l] <= after
    ensures Did(before, after, l)
  {
    assert after[|called|] == (called + [l])[|called|];
  }

  lemma DidSince(before: seq<Label>, called: seq<Label>, after: seq<Label>, l: Label)
    requires before <= called && Did(called, after, l)
    ensures Did(before, after, l)
  {
  }

  class Worker {
    const executor: Executor
    const cfg: Config
    const db: MemoryDatabase
    var checkpoint: Option<nat>

    ghost predicate Valid()
      reads executor`labels, executor.db
    {
      executor.Valid() && executor.cfg == cfg && executor.db == db
    }

    /** No batch is in hand. */
    ghost predicate AtRest()
      reads executor`labels, executor.db
    {
      Valid() && executor.System().worker.Idle?
    }

    constructor (cfg: Config)
      ensures AtRest() && fresh(executor) && fresh(db) && executor.labels == []
    {
      var e := new Executor(cfg);
      executor := e;
      this.cfg := cfg;
      db := e.db;
      checkpoint := None;
    }

    /** Writes what the row's metadata says to the row's aggregate. */
    method EnrichAggregate(row: Row) returns (created: LedgerState.Ids)
      modifies db
      ensures db.View() == Enriched(old(db.View()), row) && db.sequences == old(db.sequences)
      ensures created == CreatedIds(row.txResult)
    {
      var items := if row.txResult.Some? && row.txResult.value.meta.Some? then row.txResult.value.meta.value.items else [];
      created := LedgerState.ExtractCreatedLedgerIds(items);
      hide CreatedIds;
      var k := row.aggregateId;
      match row.kind
      case VaultCreate =>
        if Truthy(created.vaultId) && k < |db.vaults| {
          db.vaults := db.vaults[k := db.vaults[k].(xrplVaultId := created.vaultId, status := VaultActive)];
        }
      case VaultDeposit =>
        if k < |db.vaults| { db.vaults := db.vaults[k := db.vaults[k].(status := VaultFunded)]; }
      case LoanBrokerSet =>
        if Truthy(created.loanBrokerId) && k < |db.loanBrokers| {
          db.loanBrokers := db.loanBrokers[k := db.loanBrokers[k].(xrplLoanBrokerId := created.loanBrokerId, status := BrokerActive)];
        }
      case CollateralDeposit =>
        if k < |db.loanBrokers| { db.loanBrokers := db.loanBrokers[k := db.loanBrokers[k].(status := CoverFunded)]; }
      case LoanSet =>
        if Truthy(created.loanId) || (created.loanSeq.Some? && created.loanSeq.value != 0) {
          if k < |db.loans| {
            db.loans := db.loans[k := db.loans[k].(xrplLoanId := created.loanId, xrplLoanSeq := created.loanSeq, status := LoanActive)];
          }
        }
    }

    method ApiCalls()
      requires AtRest()
      modifies db, executor`labels
      ensures AtRest() && old(executor.labels) <= executor.labels && OnlySignatures(old(db.outbox), db.outbox)
      ensures old(db.vaults) <= db.vaults && old(db.loanBrokers) <= db.loanBrokers
    {
      executor.ApiCalls();
    }

    method EnrichRow(id: nat) returns (created: LedgerState.Ids)
      requires AtRest() && id < |db.outbox|
      requires NeedsIndex(db.outbox[id].status) || ForReconciliation(db.outbox[id].status)
      modifies db, executor`labels
      ensures AtRest() && db.outbox == old(db.outbox)
      ensures executor.labels == old(executor.labels) + [Enrich(id)]
      ensures db.View() == Enriched(old(db.View()), old(db.outbox[id])) && created == CreatedIds(old(db.outbox[id]).txResult)
    {
      hide Run, Next, Enriched, CreatedIds, SequencesAgree;
      EnrichStep(cfg, executor.System(), id);
      EnrichedKeepsOutbox(executor.System().db, db.outbox[id]);
      created := EnrichAggregate(db.outbox[id]);
      executor.Took(Enrich(id));
    }

    /** Stores a validated result fetched for the row. */
    method StoreResult(id: nat, result: TxResult)
      requires AtRest() && id < |db.outbox| && NeedsIndex(db.outbox[id].status) && result.validated
      modifies db, executor`labels
      ensures AtRest() && old(executor.labels) <= executor.labels
      ensures RestKept(old(db.outbox), db.outbox, id)
      ensures db.outbox[id] == old(db.outbox[id]).(txResult := Some(result))
    {
      hide Run, Next, SequencesAgree;
      RefetchStep(cfg, executor.System(), id, result);
      db.UpdateOutbox(id, NO_PATCH.(txResult := Some(Some(result))));
      executor.Took(Refetch(id, result));
    }

    /** Takes the row's result, asking the ledger again where it tells nothing of what changed. */
    method ResultOf(id: nat, tx: TxReply) returns (txResult: Option<TxResult>)
      requires AtRest() && id < |db.outbox| && NeedsIndex(db.outbox[id].status)
      modifies db, executor`labels
      ensures AtRest() && old(executor.labels) <= executor.labels && RestKept(old(db.outbox), db.outbox, id)
      ensures db.outbox[id] == old(db.outbox[id]).(txResult := txResult)
      ensures var row := old(db.outbox[id]);
              var askable := row.txHash.Some? && row.txHash.value != "" && !StartsPseudo(row.txHash.value);
              var telling := row.txResult.Some? && row.txResult.value.meta.Some?;
              txResult == if askable && !telling && tx.Answered? && tx.result.validated then Some(tx.result) else row.txResult
    {
      hide Run, SequencesAgree;
      PseudoByText(db.outbox[id]);
      var row := db.outbox[id];
      txResult := row.txResult;
      if txResult.Some? && txResult.value.meta.None? && HasRealHash(row) && IsValidated(tx) {
        txResult := Some(tx.result);
        StoreResult(id, tx.result);
      }
      if txResult.None? && HasRealHash(row) && IsValidated(tx) {
        txResult := Some(tx.result);
        StoreResult(id, tx.result);
      }
    }

    /** Indexes a candidate: afterwards it is enriched and indexed, unless there is still no result for it. */
    method IndexRow(id: nat)
      requires AtRest() && id < |db.outbox| && NeedsIndex(db.outbox[id].status)
      modifies db, executor`labels
      ensures AtRest() && old(executor.labels) <= executor.labels && RestKept(old(db.outbox), db.outbox, id)
      ensures SeenByIndexer(db.outbox, id)
      ensures db.outbox[id].status == Indexed ==> Did(old(executor.labels), executor.labels, Enrich(id))
      ensures old(db.outbox[id]).txResult.Some? ==> db.outbox[id].status == Indexed
    {
      hide Run, Next, SequencesAgree, Enriched, CreatedIds, Did;
      ApiCalls();
      var tx: TxReply := Anything();
      var txResult := ResultOf(id, tx);
      if txResult.Some? {
        ghost var before, asked := db.outbox, executor.labels;
        EnrichAndMark(id);
        DidSince(old(executor.labels), asked, executor.labels, Enrich(id));
        RestAddsUp(old(db.outbox), before, db.outbox, id);
      }
    }

    /** Enriches from a row that has a result, and marks it. */
    method EnrichAndMark(id: nat)
      requires AtRest() && id < |db.outbox| && NeedsIndex(db.outbox[id].status) && db.outbox[id].txResult.Some?
      modifies db, executor`labels
      ensures AtRest() && old(executor.labels) <= executor.labels && RestKept(old(db.outbox), db.outbox, id)
      ensures db.outbox[id].status == Indexed && Did(old(executor.labels), executor.labels, Enrich(id))
    {
      hide Run, Next, SequencesAgree, Enriched, CreatedIds, Did, InOrder, RestKept;
      ApiCalls();
      ghost var called := executor.labels;
      ghost var signed := db.outbox;
      var created := EnrichRow(id);
      ApiCalls();
      ghost var enriched := db.outbox;
      MarkStep(cfg, executor.System(), id);
      db.UpdateOutbox(id, NO_PATCH.(status := Some(Indexed)));
      executor.Took(MarkIndexed(id));
      DidOnce(old(executor.labels), called, executor.labels, Enrich(id));
      OneRowKept(enriched, db.outbox, id);
      SignaturesAddUp(old(db.outbox), signed, enriched);
      RestAfterCalls(old(db.outbox), enriched, db.outbox, id);
    }

    /** One run of the indexer over the oldest candidates, unless it is off, unreachable or has seen this ledger. */
    method RunLedgerIndexer(reachable: bool, currentIndex: nat)
      requires AtRest()
      modifies db, executor`labels, `checkpoint
      ensures AtRest() && old(executor.labels) <= executor.labels
      ensures if cfg.dryRun || !cfg.lendingEnabled || !reachable || old(checkpoint) == Some(currentIndex)
              then checkpoint == old(checkpoint) && executor.labels == old(executor.labels)
              else checkpoint == Some(currentIndex)
                   && forall id: nat | AmongOldest(old(db.outbox), {Status.Submitted, Validated}, 20, id) :: SeenByIndexer(db.outbox, id)
    {
      hide Run, SequencesAgree, IdsIn, RestKept, OnlySignatures, SeenByIndexer, AmongOldest;
      OldestAreListed(db.outbox, TO_INDEX, BATCH);
      if cfg.dryRun || !cfg.lendingEnabled || !reachable || checkpoint == Some(currentIndex) { return; }
      ApiCalls();
      var ids := db.ListOutbox(TO_INDEX, BATCH);
      SameListed(old(db.outbox), db.outbox, TO_INDEX);
      ListedAreCandidates(db.outbox, TO_INDEX, BATCH);
      for k := 0 to |ids|
        invariant AtRest() && old(executor.labels) <= executor.labels
        invariant Candidates(db.outbox, ids[k..], TO_INDEX)
        invariant AllSeen(db.outbox, ids[..k])
      {
        ghost var before := db.outbox;
        IndexRow(ids[k]);
        SeenStay(before, db.outbox, ids, k);
        CandidatesAfterOne(before, db.outbox, ids[k..], TO_INDEX);
        assert ids[k..][1..] == ids[k + 1..];
      }
      checkpoint := Some(currentIndex);
    }

    method VerifyLedgerPresence(created: LedgerState.Ids, shown: Shown) returns (detail: seq<(string, bool)>)
      ensures detail == Presence(created, shown)
    {
      detail := [];
      if Truthy(created.vaultId) {
        var ok := created.vaultId.value in shown.vaults;
        if !ok { ok := created.vaultId.value in shown.entries; }
        detail := detail + [("vault", ok)];
      }
      if Truthy(created.loanBrokerId) {
        detail := detail + [("loanBroker", created.loanBrokerId.value in shown.entries)];
      }
      if Truthy(created.loanId) {
        detail := detail + [("loan", created.loanId.value in shown.entries)];
      }
    }

    /** The post-submit check of what a row created: exactly the objects the ledger does not show become warnings. */
    method CheckCreated(created: LedgerState.Ids, connects: bool, shown: Shown) returns (mismatches: seq<Mismatch>)
      ensures mismatches == if !cfg.dryRun && cfg.lendingEnabled && connects
                            then PostSubmitMismatches(Missing(Presence(created, shown))) else []
    {
      mismatches := [];
      var hasAnyId := Truthy(created.vaultId) || Truthy(created.loanBrokerId) || Truthy(created.loanId);
      assert !hasAnyId ==> Presence(created, shown) == [];
      if !cfg.dryRun && cfg.lendingEnabled && hasAnyId && connects {
        var detail := VerifyLedgerPresence(created, shown);
        for i := 0 to |detail|
          invariant mismatches == PostSubmitMismatches(Missing(detail[..i]))
        {
          assert detail[..i + 1][..i] == detail[..i];
          if !detail[i].1 {
            mismatches := mismatches + [Mismatch("ledger_" + detail[i].0, Warning)];
          }
        }
        assert detail[..|detail|] == detail;
      }
    }

    /** Reconciles a candidate, unless a mismatch is critical, which none ever is. */
    method ReconcileRow(id: nat)
      requires AtRest() && id < |db.outbox| && ForReconciliation(db.outbox[id].status)
      requires Funds(db.outbox[id].kind) ==> FounderDone(db.outbox, db.outbox[id])
      modifies db, executor`labels
      ensures AtRest() && old(executor.labels) <= executor.labels && RestKept(old(db.outbox), db.outbox, id)
      ensures Did(old(executor.labels), executor.labels, Enrich(id))
      ensures db.outbox[id].status == Reconciled
    {
      hide Run, Next, SequencesAgree, Enriched, CreatedIds, Did, FounderDone, Funded, InOrder, RestKept;
      ghost var row := db.outbox[id];
      ApiCalls();
      if Funds(row.kind) { DoneAfterCalls(cfg, executor.labels, old(db.outbox), id); }
      ghost var called := executor.labels;
      var created := EnrichAndFund(id);
      ghost var enriched := db.outbox;
      var connects: bool := Anything();
      var shown: Shown := Anything();
      var mismatches := CheckCreated(created, connects, shown);
      CloseInEffect(id, mismatches, if mismatches == [] then [] else Missing(Presence(created, shown)));
      DidOnce(old(executor.labels), called, executor.labels, Enrich(id));
      RestAfterCalls(old(db.outbox), enriched, db.outbox, id);
    }

    /** Closes a row after some calls: a deposit in effect is so still. */
    method CloseInEffect(id: nat, mismatches: seq<Mismatch>, ghost missing: seq<string>)
      requires AtRest() && id < |db.outbox| && ForReconciliation(db.outbox[id].status)
      requires mismatches == PostSubmitMismatches(missing) && InEffect(db.View(), db.outbox[id])
      modifies db, executor`labels
      ensures AtRest() && old(executor.labels) <= executor.labels
      ensures RestKept(old(db.outbox), db.outbox, id) && db.outbox[id].status == Reconciled
    {
      hide Run, SequencesAgree, FounderDone, Funded, InOrder, PostSubmitMismatches, RestKept;
      ghost var before := db.View();
      ApiCalls();
      if Funds(before.outbox[id].kind) {
        DoneAfterCalls(cfg, executor.labels, before.outbox, id);
        EffectAfterCalls(before, db.View(), before.outbox[id]);
      }
      ghost var called := db.outbox;
      CloseRow(id, mismatches, missing);
      RestAfterCalls(before.outbox, called, db.outbox, id);
    }

    /** Enriching from a deposit puts it into effect. */
    method EnrichAndFund(id: nat) returns (created: LedgerState.Ids)
      requires AtRest() && id < |db.outbox| && ForReconciliation(db.outbox[id].status)
      modifies db, executor`labels
      ensures AtRest() && db.outbox == old(db.outbox) && executor.labels == old(executor.labels) + [Enrich(id)]
      ensures created == CreatedIds(db.outbox[id].txResult)
      ensures Funds(db.outbox[id].kind) ==> Funded(db.View(), db.outbox[id])
    {
      hide Run, SequencesAgree, Enriched, CreatedIds, Funded, InOrder;
      OwnershipHolds(cfg, executor.labels);
      if Funds(db.outbox[id].kind) { EnrichedIsFunded(db.View(), db.outbox[id]); }
      created := EnrichRow(id);
    }

    method CloseRow(id: nat, mismatches: seq<Mismatch>, ghost missing: seq<string>)
      requires AtRest() && id < |db.outbox| && ForReconciliation(db.outbox[id].status)
      requires mismatches == PostSubmitMismatches(missing) && InEffect(db.View(), db.outbox[id])
      modifies db, executor`labels
      ensures AtRest() && executor.labels == old(executor.labels) + [Reconcile(id, missing)]
      ensures RestKept(old(db.outbox), db.outbox, id) && db.outbox[id].status == Reconciled
    {
      hide Run, Next, SequencesAgree;
      ReconcileStep(cfg, executor.System(), id, missing);
      db.UpdateOutbox(id, NO_PATCH.(status := Some(ReconciledStatus(mismatches))));
      executor.Took(Reconcile(id, missing));
    }

    /** Reconciles the oldest candidates. */
    method RunReconciliation()
      requires AtRest()
      modifies db, executor`labels
      ensures AtRest() && old(executor.labels) <= executor.labels
      ensures forall id: nat | AmongOldest(old(db.outbox), {Validated, Indexed, Prepared}, 20, id) ::
                id < |db.outbox| && db.outbox[id].status == Reconciled
    {
      hide Run, SequencesAgree, IdsIn, RestKept, OnlySignatures, Did, FounderDone, InOrder, AmongOldest;
      OldestAreListed(db.outbox, TO_RECONCILE, BATCH);
      ApiCalls();
      var ids := db.ListOutbox(TO_RECONCILE, BATCH);
      SameListed(old(db.outbox), db.outbox, TO_RECONCILE);
      ListedAreCandidates(db.outbox, TO_RECONCILE, BATCH);
      ghost var listed := IdsIn(db.outbox, TO_RECONCILE);
      IdsInFacts(db.outbox, TO_RECONCILE);
      for k := 0 to |ids|
        invariant AtRest() && old(executor.labels) <= executor.labels
        invariant Candidates(db.outbox, ids[k..], TO_RECONCILE)
        invariant AllReconciled(db.outbox, ids[..k]) && Listed(db.outbox, listed)
      {
        ghost var before := db.outbox;
        FounderReconciled(cfg, executor.labels, listed, ids, k);
        ReconcileRow(ids[k]);
        ReconciledStay(before, db.outbox, ids, k);
        CandidatesAfterOne(before, db.outbox, ids[k..], TO_RECONCILE);
        ListedAfterOne(before, db.outbox, listed, ids[k]);
        assert ids[k..][1..] == ids[k + 1..];
      }
    }

    /** The outbox after the first n steps. */
    ghost function OutboxAfter(n: nat): seq<Row>
      requires n <= |executor.labels|
      reads executor`labels
    {
      Run(cfg, executor.labels[..n]).db.outbox
    }

    /**
     * One tick: a pass up to moment p, the indexer up to moment q, then reconciliation. The indexer sees to
     * the oldest rows to index that the pass left, and reconciliation to the oldest rows it then finds.
     */
    method Tick(network: NetworkStatus, reachable: bool, currentIndex: nat) returns (ghost p: nat, ghost q: nat)
      requires AtRest()
      modifies this, executor, db
      ensures AtRest() && old(executor.labels) <= executor.labels && |old(executor.labels)| <= p <= q <= |executor.labels|
      ensures if network.amendmentBlocked then p == |old(executor.labels)|
              else PassBegan(old(executor.labels), executor.labels[..p])
      ensures if cfg.dryRun || !cfg.lendingEnabled || !reachable || old(checkpoint) == Some(currentIndex)
              then q == p && checkpoint == old(checkpoint)
              else checkpoint == Some(currentIndex)
                   && forall id: nat | AmongOldest(OutboxAfter(p), {Status.Submitted, Validated}, 20, id) ::
                        SeenByIndexer(OutboxAfter(q), id)
      ensures forall id: nat | AmongOldest(OutboxAfter(q), {Validated, Indexed, Prepared}, 20, id) ::
                id < |db.outbox| && db.outbox[id].status == Reconciled
      ensures forall i | 0 <= i < |db.outbox| :: db.outbox[i].status != Processing
    {
      hide Run, SequencesAgree, IdsIn, SeenByIndexer, PassBegan, AmongOldest;
      executor.ProcessPending(network);
      ghost var passed, afterPass := executor.labels, db.outbox;
      p := |passed|;
      RunLedgerIndexer(reachable, currentIndex);
      ghost var indexed, afterIndex := executor.labels, db.outbox;
      q := |indexed|;
      RunReconciliation();
      executor.NothingInHand();
      assert executor.labels[..p] == passed && executor.labels[..q] == indexed;
      assert OutboxAfter(p) == afterPass && OutboxAfter(q) == afterIndex;
    }
  }
}
