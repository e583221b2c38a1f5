/** What the protocol's theorems say of the running worker and its database. */
module Guarantees {
  import opened Options
  import opened SharedTypes
  import opened OutboxDb
  import opened Protocol
  import opened Control
  import LedgerWorker
  import opened Dedupe
  import opened SigningOrder
  import opened SeparationOfDuties
  import opened ValidatedRecords
  import opened Ownership
  import opened Founding

  ghost predicate RowPromises(db: Db, row: Row, i: nat) {
    && row.attempts <= 1
    && (row.attempts == 1 ==> Settled(row.status))
    && (row.meta.counterpartySigned ==> row.meta.brokerSigned && BrokerBeforeBorrower(db.evidence, i))
    && (row.status == Validated ==> row.txHash.Some? && Recorded(db.transactions, row.txHash.value))
    && RowOwned(db, row)
  }

  ghost predicate Promises(db: Db) {
    && OneOpen(db.outbox)
    && DutiesSeparate(db.evidence)
    && (forall i: nat | i < |db.outbox| :: RowPromises(db, db.outbox[i], i))
    && (forall b: nat | b < |db.brokers| :: BrokerOwned(db, b))
  }

  /** Between passes, after any ticks and any calls, the database is as every run of the protocol leaves it. */
  lemma KeptAtRest(w: LedgerWorker.Worker)
    requires w.AtRest()
    ensures Promises(w.db.View())
  {
    hide Run;
    var cfg, labels := w.cfg, w.executor.labels;
    var s := Run(cfg, labels);
    assert s.db == w.db.View();
    OneOpenHolds(cfg, labels);
    SodHolds(cfg, labels);
    OwnershipHolds(cfg, labels);
    ControlHolds(cfg, labels);
    ValidatedHolds(cfg, labels);
    hide OneOpen, DutiesSeparate, OwnershipInv, RowOwned, SodInv;
    forall i: nat | i < |s.db.outbox| ensures RowPromises(s.db, s.db.outbox[i], i) {
      RowKept(w, i);
    }
  }

  lemma RowKept(w: LedgerWorker.Worker, i: nat)
    requires w.AtRest() && i < |w.db.outbox|
    ensures RowPromises(w.db.View(), w.db.outbox[i], i)
  {
    hide Run, Reachable;
    var cfg, labels := w.cfg, w.executor.labels;
    var s := Run(cfg, labels);
    assert s.db == w.db.View();
    OwnershipHolds(cfg, labels);
    ControlHolds(cfg, labels);
    ValidatedHolds(cfg, labels);
    LedToIsReachable(cfg, labels);
    BrokerSignsFirst(cfg, s, i);
    hide BrokerBeforeBorrower, Signatures;
    if s.db.outbox[i].meta.counterpartySigned { CounterSignedInOrder(cfg, s, i); }
    assert RowOk(s.db.outbox[i], PlaceOf(s.worker, i));
    assert ValidatedOk(s.db.outbox[i], PlaceOf(s.worker, i), s.db.transactions);
    assert RowOwned(s.db, s.db.outbox[i]);
    hide RowOwned;
  }

  /**
   * The worker reconciles oldest first, so between passes, after any ticks and any calls, whatever a reconciled
   * deposit was made to is funded, and no enrichment will take that back.
   */
  lemma ReconciledDepositsStand(w: LedgerWorker.Worker, i: nat)
    requires w.AtRest() && i < |w.db.outbox| && w.db.outbox[i].status == Reconciled
    ensures var k := w.db.outbox[i].aggregateId;
            && (w.db.outbox[i].kind == VaultDeposit ==> k < |w.db.vaults| && w.db.vaults[k].status == VaultFunded)
            && (w.db.outbox[i].kind == CollateralDeposit ==>
                  k < |w.db.loanBrokers| && w.db.loanBrokers[k].status == CoverFunded)
    ensures InEffect(w.db.View(), w.db.outbox[i])
  {
    hide Run;
    assert Run(w.cfg, w.executor.labels).db == w.db.View();
    FundedHolds(w.cfg, w.executor.labels);
    assert InEffect(w.db.View(), w.db.View().outbox[i]);
  }
}
