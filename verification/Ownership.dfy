/** Who owns and who pays, over every run: the chain from a row back to the vault's owner. */
module Ownership {
  import opened Options
  import opened SharedTypes
  import opened OutboxDb
  import opened Protocol
  import opened ServiceCalls
  import opened Control

  ghost predicate BrokerOwned(db: Db, b: nat)
    requires b < |db.brokers|
  {
    db.brokers[b].vaultId < |db.vaults| && db.brokers[b].ownerAddress == db.vaults[db.brokers[b].vaultId].ownerAddress
  }

  /** The account that sends a row's transaction, and the aggregate it is about. */
  ghost predicate RowOwned(db: Db, row: Row) {
    match row.kind
    case VaultCreate =>
      row.aggregateId < |db.vaults| && row.tx.account == db.vaults[row.aggregateId].ownerAddress
    case VaultDeposit =>
      row.aggregateId < |db.vaults| && Truthy(db.vaults[row.aggregateId].xrplVaultId) && Ready(row.tx.objectId)
    case LoanBrokerSet =>
      row.aggregateId < |db.brokers| && row.tx.account == db.brokers[row.aggregateId].ownerAddress && Ready(row.tx.objectId)
    case CollateralDeposit =>
      && row.aggregateId < |db.brokers| && row.tx.account == db.brokers[row.aggregateId].ownerAddress
      && Truthy(db.brokers[row.aggregateId].xrplLoanBrokerId) && Ready(row.tx.objectId)
    case LoanSet =>
      && row.aggregate == LoanAggregate && row.aggregateId < |db.loans|
      && var loan := db.loans[row.aggregateId];
         && loan.loanBrokerId < |db.brokers| && Truthy(db.brokers[loan.loanBrokerId].xrplLoanBrokerId)
         && row.tx.account == db.brokers[loan.loanBrokerId].ownerAddress
         && row.tx.counterparty == Some(loan.borrowerAddress) && Ready(row.tx.objectId)
  }

  ghost predicate OwnershipInv(db: Db) {
    && (forall b: nat | b < |db.brokers| :: BrokerOwned(db, b))
    && (forall i: nat | i < |db.outbox| :: RowOwned(db, db.outbox[i]))
  }

  // ---------- what never changes ----------

  /** Owners, brokers' vaults and loans' parties are fixed; ledger ids may be replaced but not removed. */
  ghost predicate PartiesKept(db: Db, t: Db) {
    && |db.vaults| <= |t.vaults| && |db.brokers| <= |t.brokers| && |db.loans| <= |t.loans|
    && (forall v: nat | v < |db.vaults| ::
          t.vaults[v].ownerAddress == db.vaults[v].ownerAddress
          && (Truthy(db.vaults[v].xrplVaultId) ==> Truthy(t.vaults[v].xrplVaultId)))
    && (forall b: nat | b < |db.brokers| ::
          t.brokers[b].ownerAddress == db.brokers[b].ownerAddress && t.brokers[b].vaultId == db.brokers[b].vaultId
          && (Truthy(db.brokers[b].xrplLoanBrokerId) ==> Truthy(t.brokers[b].xrplLoanBrokerId)))
    && (forall k: nat | k < |db.loans| ::
          t.loans[k].loanBrokerId == db.loans[k].loanBrokerId && t.loans[k].borrowerAddress == db.loans[k].borrowerAddress)
  }

  lemma RowStaysOwned(db: Db, t: Db, before: Row, after: Row)
    requires PartiesKept(db, t) && RowOwned(db, before)
    requires after.kind == before.kind && after.aggregate == before.aggregate
             && after.aggregateId == before.aggregateId && after.tx == before.tx
    ensures RowOwned(t, after)
  {
  }

  lemma HandleKeepsParties(db: Db, call: Call)
    ensures PartiesKept(db, Handle(db, call).0)
  {
    hide ViolatesSod, Rejects, MayCounterSign;
  }

  lemma HandleKeepsBrokersOwned(db: Db, call: Call)
    requires forall b: nat | b < |db.brokers| :: BrokerOwned(db, b)
    ensures forall b: nat | b < |Handle(db, call).0.brokers| :: BrokerOwned(Handle(db, call).0, b)
  {
    hide ViolatesSod, Rejects, MayCounterSign, FindLoanSet, FindParty, Upper;
    var t := Handle(db, call).0;
    forall b: nat | b < |t.brokers| ensures BrokerOwned(t, b) {
      if b < |db.brokers| { assert BrokerOwned(db, b); }
    }
  }

  /** What a call adds is owned. */
  lemma HandleAddsOwned(db: Db, call: Call)
    ensures ChangeOf(db, call).Added? ==> RowOwned(Handle(db, call).0, NewRow(ChangeOf(db, call).input))
  {
    hide ViolatesSod, Rejects, MayCounterSign, FindLoanSet, FindParty, Upper;
  }

  lemma OwnershipApi(db: Db, call: Call)
    requires OwnershipInv(db)
    ensures OwnershipInv(Handle(db, call).0)
  {
    hide Handle, RowOwned, PartiesKept, ChangeOf;
    var t := Handle(db, call).0;
    var c := ChangeOf(db, call);
    HandleKeepsParties(db, call);
    HandleKeepsBrokersOwned(db, call);
    HandleAddsOwned(db, call);
    HandleChanges(db, call);
    forall i: nat | i < |t.outbox| ensures RowOwned(t, t.outbox[i]) {
      if i < |db.outbox| { RowStaysOwned(db, t, db.outbox[i], t.outbox[i]); }
    }
  }

  lemma EnrichedKeepsParties(db: Db, row: Row)
    ensures PartiesKept(db, Enriched(db, row)) && |Enriched(db, row).brokers| == |db.brokers|
  {
    hide CreatedIds;
  }

  lemma OwnershipWorker(cfg: Config, s: Sys, l: Label)
    requires ControlInv(s) && OwnershipInv(s.db) && !l.Api?
    ensures OwnershipInv(Next(cfg, s, l).db)
  {
    hide Next, RowOwned, ControlInv, Enriched;
    var t := Next(cfg, s, l);
    WorkerKeepsRecords(cfg, s, l);
    WorkerStepMoves(cfg, s, l);
    if Enriching(s, l) { EnrichedKeepsParties(s.db, s.db.outbox[l.id]); }
    assert PartiesKept(s.db, t.db);
    forall b: nat | b < |t.db.brokers| ensures BrokerOwned(t.db, b) {
      assert BrokerOwned(s.db, b);
    }
    forall i: nat | i < |t.db.outbox| ensures RowOwned(t.db, t.db.outbox[i]) {
      assert WorkerMoves(s.db.outbox[i], t.db.outbox[i]);
      RowStaysOwned(s.db, t.db, s.db.outbox[i], t.db.outbox[i]);
    }
  }

  lemma {:induction false} OwnershipHolds(cfg: Config, labels: seq<Label>)
    ensures OwnershipInv(Run(cfg, labels).db)
  {
    hide Next;
    if labels != [] {
      var front, l := labels[..|labels| - 1], labels[|labels| - 1];
      OwnershipHolds(cfg, front);
      ControlHolds(cfg, front);
      OwnershipNext(cfg, Run(cfg, front), l);
    }
  }

  lemma OwnershipNext(cfg: Config, s: Sys, l: Label)
    requires ControlInv(s) && OwnershipInv(s.db)
    ensures OwnershipInv(Next(cfg, s, l).db)
  {
    match l
    case Api(call) =>
      hide Handle, OwnershipInv;
      OwnershipApi(s.db, call);
    case _ =>
      hide Next;
      OwnershipWorker(cfg, s, l);
  }

  // ---------- main results ----------

  /** In every state of every run a broker belongs to the owner of its vault. */
  lemma BrokersOwnTheirVault(cfg: Config, s: Sys, b: nat)
    requires Reachable(cfg, s) && b < |s.db.brokers|
    ensures s.db.brokers[b].vaultId < |s.db.vaults|
            && s.db.brokers[b].ownerAddress == s.db.vaults[s.db.brokers[b].vaultId].ownerAddress
  {
    hide Run, Reachable;
    var labels := ReachedBy(cfg, s);
    OwnershipHolds(cfg, labels);
    assert BrokerOwned(s.db, b);
  }

  /**
   * In every state of every run the account of a LoanSet row is the owner of the vault behind
   * the loan's broker, the broker is known to the ledger, and the borrower counter-signs.
   */
  lemma LoanSetsComeFromTheVaultOwner(cfg: Config, s: Sys, i: nat)
    requires Reachable(cfg, s) && i < |s.db.outbox| && s.db.outbox[i].kind == LoanSet
    ensures var db := s.db;
            var row := db.outbox[i];
            && row.aggregate == LoanAggregate && row.aggregateId < |db.loans|
            && var loan := db.loans[row.aggregateId];
               && loan.loanBrokerId < |db.brokers|
               && var broker := db.brokers[loan.loanBrokerId];
                  && broker.vaultId < |db.vaults| && row.tx.account == db.vaults[broker.vaultId].ownerAddress
                  && Truthy(broker.xrplLoanBrokerId) && Ready(row.tx.objectId)
                  && row.tx.counterparty == Some(loan.borrowerAddress)
  {
    hide Run, Reachable;
    var labels := ReachedBy(cfg, s);
    OwnershipHolds(cfg, labels);
    assert RowOwned(s.db, s.db.outbox[i]);
    BrokersOwnTheirVault(cfg, s, s.db.loans[s.db.outbox[i].aggregateId].loanBrokerId);
  }

  // ---------- active records are on the ledger ----------

  /** A vault or broker past its queued state has the id the ledger gave it. */
  ghost predicate KnownInv(db: Db) {
    && (forall v: nat | v < |db.vaults| && db.vaults[v].status != VaultQueued :: Truthy(db.vaults[v].xrplVaultId))
    && (forall b: nat | b < |db.brokers| && db.brokers[b].status != BrokerQueued :: Truthy(db.brokers[b].xrplLoanBrokerId))
  }

  lemma KnownApi(db: Db, call: Call)
    requires KnownInv(db)
    ensures KnownInv(Handle(db, call).0)
  {
    hide ViolatesSod, Rejects, MayCounterSign;
  }

  lemma KnownEnriched(db: Db, row: Row)
    requires KnownInv(db) && RowOwned(db, row)
    ensures KnownInv(Enriched(db, row))
  {
    hide CreatedIds;
  }

  lemma KnownNext(cfg: Config, s: Sys, l: Label)
    requires OwnershipInv(s.db) && KnownInv(s.db)
    ensures KnownInv(Next(cfg, s, l).db)
  {
    match l
    case Api(call) =>
      hide Handle, KnownInv;
      KnownApi(s.db, call);
    case _ =>
      hide Next;
      KnownWorker(cfg, s, l);
  }

  lemma KnownWorker(cfg: Config, s: Sys, l: Label)
    requires OwnershipInv(s.db) && KnownInv(s.db) && !l.Api?
    ensures KnownInv(Next(cfg, s, l).db)
  {
    hide Next, Enriched;
    WorkerKeepsRecords(cfg, s, l);
    if Enriching(s, l) { KnownEnriched(s.db, s.db.outbox[l.id]); }
  }

  lemma {:induction false} KnownHolds(cfg: Config, labels: seq<Label>)
    ensures KnownInv(Run(cfg, labels).db)
  {
    hide Next, OwnershipInv;
    if labels != [] {
      var front, l := labels[..|labels| - 1], labels[|labels| - 1];
      KnownHolds(cfg, front);
      OwnershipHolds(cfg, front);
      KnownNext(cfg, Run(cfg, front), l);
    }
  }

  /** In every state of every run an active vault or broker has a ledger id. */
  lemma ActiveIsKnown(cfg: Config, s: Sys)
    requires Reachable(cfg, s)
    ensures KnownInv(s.db)
  {
    hide Run, Reachable, KnownInv;
    var labels := ReachedBy(cfg, s);
    KnownHolds(cfg, labels);
  }
}
