/** Enriching an aggregate from a validated row, which the indexer and reconciliation both do. */
module Enrichment {
  import opened Options
  import opened SharedTypes
  import opened OutboxDb
  import opened Protocol
  import opened ServiceCalls
  import opened Control
  import opened Ownership
  import opened ActiveLoans
  import opened TxExecutor

  lemma EnrichedKeepsOutbox(db: Db, row: Row)
    ensures Enriched(db, row).outbox == db.outbox
  {
  }

  /** The aggregate holds what the row's metadata writes to it. */
  ghost predicate StillWritten(db: Db, row: Row) {
    var ids := CreatedIds(row.txResult);
    var k := row.aggregateId;
    match row.kind
    case VaultCreate =>
      Truthy(ids.vaultId) && k < |db.vaults| ==> db.vaults[k].xrplVaultId == ids.vaultId && db.vaults[k].status == VaultActive
    case VaultDeposit => k < |db.vaults| ==> db.vaults[k].status == VaultFunded
    case LoanBrokerSet =>
      Truthy(ids.loanBrokerId) && k < |db.brokers| ==>
        db.brokers[k].xrplLoanBrokerId == ids.loanBrokerId && db.brokers[k].status == BrokerActive
    case CollateralDeposit => k < |db.brokers| ==> db.brokers[k].status == CoverFunded
    case LoanSet =>
      (Truthy(ids.loanId) || (ids.loanSeq.Some? && ids.loanSeq.value != 0)) && k < |db.loans| ==>
        db.loans[k].xrplLoanId == ids.loanId && db.loans[k].xrplLoanSeq == ids.loanSeq && db.loans[k].status == LoanActive
  }

  /** Enriching changes nothing exactly when the aggregate still holds what the row's metadata writes. */
  lemma SilentExactlyWhenStillWritten(db: Db, row: Row)
    ensures Enriched(db, row) == db <==> StillWritten(db, row)
  {
    hide CreatedIds;
    var after := Enriched(db, row);
    var k := row.aggregateId;
    if k < |db.vaults| { assert after.vaults[k] == db.vaults[k] ==> after.vaults == db.vaults; }
    if k < |db.brokers| { assert after.brokers[k] == db.brokers[k] ==> after.brokers == db.brokers; }
    if k < |db.loans| { assert after.loans[k] == db.loans[k] ==> after.loans == db.loans; }
  }

  lemma WrittenByEnriching(db: Db, row: Row)
    ensures StillWritten(Enriched(db, row), row)
  {
    hide CreatedIds;
  }

  /** Enriching twice in a row leaves what enriching once leaves. */
  lemma EnrichTwice(db: Db, row: Row)
    ensures Enriched(Enriched(db, row), row) == Enriched(db, row)
  {
    hide Enriched, StillWritten;
    WrittenByEnriching(db, row);
    SilentExactlyWhenStillWritten(Enriched(db, row), row);
  }

  // ---------- what comes in between ----------

  /**
   * The step writes the row's aggregate otherwise: it enriches it from another row or another
   * result, or prepares the loan again.
   */
  ghost predicate WritesOver(s: Sys, l: Label, row: Row) {
    || (row.kind == LoanSet && PreparesAgain(s, l, row.aggregateId))
    || (Enriching(s, l)
        && TableOf(s.db.outbox[l.id].kind) == TableOf(row.kind) && s.db.outbox[l.id].aggregateId == row.aggregateId
        && !(s.db.outbox[l.id].kind == row.kind && s.db.outbox[l.id].txResult == row.txResult))
  }

  lemma WrittenAfterEnriching(db: Db, row: Row, other: Row)
    requires StillWritten(db, row)
    requires TableOf(other.kind) == TableOf(row.kind) && other.aggregateId == row.aggregateId ==>
               other.kind == row.kind && other.txResult == row.txResult
    ensures StillWritten(Enriched(db, other), row)
  {
    hide CreatedIds;
  }

  /** The aggregate a row is about exists. */
  predicate HasAggregate(db: Db, row: Row) {
    match TableOf(row.kind)
    case Vaults => row.aggregateId < |db.vaults|
    case Brokers => row.aggregateId < |db.brokers|
    case Loans => row.aggregateId < |db.loans|
  }

  lemma WrittenAfterStep(cfg: Config, s: Sys, l: Label, row: Row)
    requires StillWritten(s.db, row) && HasAggregate(s.db, row) && !WritesOver(s, l, row)
    ensures StillWritten(Next(cfg, s, l).db, row) && HasAggregate(Next(cfg, s, l).db, row)
  {
    match l
    case Api(call) =>
      hide Next, Handle, CreatedIds;
      ApiOnDb(cfg, s, call);
      RecordsAfterCall(s.db, call);
    case _ =>
      hide Next;
      WrittenAfterWorker(cfg, s, l, row);
  }

  lemma WrittenAfterWorker(cfg: Config, s: Sys, l: Label, row: Row)
    requires StillWritten(s.db, row) && HasAggregate(s.db, row) && !WritesOver(s, l, row) && !l.Api?
    ensures StillWritten(Next(cfg, s, l).db, row) && HasAggregate(Next(cfg, s, l).db, row)
  {
    hide Next, Enriched, CreatedIds;
    WorkerKeepsRecords(cfg, s, l);
    if Enriching(s, l) {
      WrittenAfterEnriching(s.db, row, s.db.outbox[l.id]);
      AggregateKept(s.db, row, s.db.outbox[l.id]);
    }
  }

  lemma AggregateKept(db: Db, row: Row, other: Row)
    ensures HasAggregate(Enriched(db, other), row) <==> HasAggregate(db, row)
  {
  }

  // ---------- runs ----------

  ghost predicate LeftAlone(labels: seq<Label>, states: seq<Sys>, row: Row, j: nat, k: nat)
    requires j <= k <= |labels| && |states| == |labels| + 1
  {
    forall m | j <= m < k :: !WritesOver(states[m], labels[m], row)
  }

  lemma {:induction false} WrittenUntil(cfg: Config, labels: seq<Label>, states: seq<Sys>, row: Row, j: nat, k: nat)
    requires IsRun(cfg, labels, states) && j <= k <= |labels| && LeftAlone(labels, states, row, j, k)
    requires StillWritten(states[j].db, row) && HasAggregate(states[j].db, row)
    ensures StillWritten(states[k].db, row)
    decreases k - j
  {
    hide Next, StillWritten, WritesOver, HasAggregate;
    if j < k {
      assert Moment(j);
      WrittenAfterStep(cfg, states[j], labels[j], row);
      WrittenUntil(cfg, labels, states, row, j + 1, k);
    }
  }

  predicate SameSubject(before: Row, after: Row) { after.kind == before.kind && after.aggregateId == before.aggregateId }

  /** Whatever happens, a row goes on being about the same aggregate. */
  lemma SubjectKept(cfg: Config, s: Sys, l: Label, id: nat)
    requires ControlInv(s) && id < |s.db.outbox|
    ensures var t := Next(cfg, s, l); id < |t.db.outbox| && SameSubject(s.db.outbox[id], t.db.outbox[id])
  {
    hide Next, ControlInv;
    match l
    case Api(call) =>
      hide ChangeOf, NotesAdded;
      ApiStep(cfg, s, call);
    case _ =>
      WorkerStepMoves(cfg, s, l);
      assert WorkerMoves(s.db.outbox[id], Next(cfg, s, l).db.outbox[id]);
  }

  lemma {:induction false} SubjectUntil(cfg: Config, labels: seq<Label>, states: seq<Sys>, id: nat, j: nat, k: nat)
    requires IsRun(cfg, labels, states) && j <= k <= |labels| && id < |states[j].db.outbox|
    ensures id < |states[k].db.outbox| && SameSubject(states[j].db.outbox[id], states[k].db.outbox[id])
    decreases k - j
  {
    hide Run, Next, ControlInv;
    if j < k {
      StateAt(cfg, labels, states, j);
      ControlHolds(cfg, labels[..j]);
      assert Moment(j);
      SubjectKept(cfg, states[j], labels[j], id);
      SubjectUntil(cfg, labels, states, id, j + 1, k);
    }
  }

  /**
   * Enriching once more from the same row and result, at any later moment of a run, changes
   * nothing if in between nothing else wrote the aggregate: no enrichment from another row or
   * another result, and no new preparation of the loan.
   */
  lemma SecondEnrichmentIsSilent(cfg: Config, labels: seq<Label>, states: seq<Sys>, id: nat, j: nat, k: nat)
    requires IsRun(cfg, labels, states) && j < k <= |labels| && labels[j] == Enrich(id) && Enriching(states[j], labels[j])
    requires LeftAlone(labels, states, states[j].db.outbox[id], j + 1, k)
    requires id < |states[k].db.outbox| ==> states[k].db.outbox[id].txResult == states[j].db.outbox[id].txResult
    ensures id < |states[k].db.outbox| && Enriched(states[k].db, states[k].db.outbox[id]) == states[k].db
  {
    hide Run, Next, Enriched, StillWritten, WritesOver, ControlInv, OwnershipInv;
    var s, row := states[j], states[j].db.outbox[id];
    StateAt(cfg, labels, states, j);
    assert Moment(j);
    WorkerKeepsRecords(cfg, s, labels[j]);
    WrittenByEnriching(s.db, row);
    AggregateExists(cfg, labels[..j], id);
    AggregateKept(s.db, row, row);
    WrittenUntil(cfg, labels, states, row, j + 1, k);
    SubjectUntil(cfg, labels, states, id, j, k);
    SameRowSameWriting(states[k].db, row, states[k].db.outbox[id]);
    SilentExactlyWhenStillWritten(states[k].db, states[k].db.outbox[id]);
  }

  lemma AggregateExists(cfg: Config, labels: seq<Label>, id: nat)
    requires id < |Run(cfg, labels).db.outbox|
    ensures HasAggregate(Run(cfg, labels).db, Run(cfg, labels).db.outbox[id])
  {
    hide Run;
    OwnershipHolds(cfg, labels);
    assert RowOwned(Run(cfg, labels).db, Run(cfg, labels).db.outbox[id]);
  }

  lemma SameRowSameWriting(db: Db, before: Row, after: Row)
    requires SameSubject(before, after) && after.txResult == before.txResult && StillWritten(db, before)
    ensures StillWritten(db, after)
  {
  }
}
