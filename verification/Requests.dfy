/** What each row asks for, and which call asked for it. */
module Requests {
  import opened Options
  import opened SharedTypes
  import opened OutboxDb
  import opened Protocol
  import opened ServiceCalls
  import opened Control
  import opened Progress
  import opened Dedupe

  /** The row asks for what the call asked for, in the state it was made in. */
  ghost predicate AskedBy(db: Db, call: Call, row: Row) {
    match call
    case CreateVault(owner, _) =>
      row.kind == VaultCreate && row.aggregate == VaultAggregate && row.aggregateId == |db.vaults|
      && row.tx == Tx(owner, None, None, None)
    case Deposit(v, account, _) =>
      row.kind == VaultDeposit && row.aggregate == VaultAggregate && row.aggregateId == v < |db.vaults|
      && row.tx == Tx(account, None, db.vaults[v].xrplVaultId, None)
    case CreateLoanBroker(v, owner, _) =>
      row.kind == LoanBrokerSet && row.aggregate == BrokerAggregate && row.aggregateId == |db.brokers| && v < |db.vaults|
      && row.tx == Tx(owner, None, db.vaults[v].xrplVaultId, None)
    case DepositCollateral(b, now, _) =>
      row.kind == CollateralDeposit && row.aggregate == BrokerAggregate && row.aggregateId == b < |db.brokers|
      && row.tx == Tx(db.brokers[b].ownerAddress, None, db.brokers[b].xrplLoanBrokerId, None)
    case PrepareCosignPacket(k, _) =>
      row.kind == LoanSet && row.aggregate == LoanAggregate && row.aggregateId == k < |db.loans|
      && db.loans[k].loanBrokerId < |db.brokers|
      && var broker := db.brokers[db.loans[k].loanBrokerId];
         row.tx == Tx(broker.ownerAddress, Some(db.loans[k].borrowerAddress), broker.xrplLoanBrokerId, None)
    case _ => false
  }

  /** The call added row i to the records it was made in, with the record it is about where that is new. */
  ghost predicate Asks(s: Sys, l: Label, i: nat, row: Row) {
    l.Api? && |s.db.outbox| == i && AskedBy(s.db, l.call, row)
  }

  ghost predicate WasAsked(labels: seq<Label>, states: seq<Sys>, i: nat, row: Row, n: nat)
    requires n <= |labels| && |states| == |labels| + 1
  {
    exists m: nat :: m < n && Asks(states[m], labels[m], i, row)
  }

  predicate SameAsked(before: Row, after: Row) {
    && after.kind == before.kind && after.aggregate == before.aggregate && after.aggregateId == before.aggregateId
    && after.tx == before.tx
  }

  ghost predicate AllAsked(labels: seq<Label>, states: seq<Sys>, n: nat)
    requires n <= |labels| && |states| == |labels| + 1
  {
    forall i: nat | i < |states[n].db.outbox| :: WasAsked(labels, states, i, states[n].db.outbox[i], n)
  }

  lemma SameRowSameAsked(labels: seq<Label>, states: seq<Sys>, i: nat, before: Row, after: Row, n: nat)
    requires n < |labels| && |states| == |labels| + 1
    requires SameAsked(before, after) && WasAsked(labels, states, i, before, n)
    ensures WasAsked(labels, states, i, after, n + 1)
  {
    var m: nat :| m < n && Asks(states[m], labels[m], i, before);
    assert Asks(states[m], labels[m], i, after);
  }

  lemma AddedIsAsked(db: Db, call: Call)
    requires ChangeOf(db, call).Added?
    ensures AskedBy(db, call, NewRow(ChangeOf(db, call).input))
  {
    hide ViolatesSod, Rejects, MayCounterSign, FindLoanSet;
  }

  lemma RowsKeepWhatTheyAsk(cfg: Config, s: Sys, l: Label, i: nat)
    requires ControlInv(s) && i < |Next(cfg, s, l).db.outbox|
    ensures var t := Next(cfg, s, l);
            if i < |s.db.outbox| then SameAsked(s.db.outbox[i], t.db.outbox[i]) else Asks(s, l, i, t.db.outbox[i])
  {
    hide Next, ControlInv, AskedBy;
    match l
    case Api(call) =>
      ApiStep(cfg, s, call);
      if ChangeOf(s.db, call).Added? { AddedIsAsked(s.db, call); }
      hide ChangeOf, NotesAdded;
    case _ =>
      WorkerStepMoves(cfg, s, l);
      assert i < |s.db.outbox| ==> WorkerMoves(s.db.outbox[i], Next(cfg, s, l).db.outbox[i]);
  }

  lemma AskedStep(cfg: Config, labels: seq<Label>, states: seq<Sys>, n: nat)
    requires IsRun(cfg, labels, states) && n < |labels| && AllAsked(labels, states, n)
    ensures AllAsked(labels, states, n + 1)
  {
    hide Next, ControlInv, WasAsked, Asks;
    ControlAt(cfg, labels, states, n);
    assert Moment(n);
    var s, t := states[n], states[n + 1];
    forall i: nat | i < |t.db.outbox| ensures WasAsked(labels, states, i, t.db.outbox[i], n + 1) {
      RowsKeepWhatTheyAsk(cfg, s, labels[n], i);
      if i < |s.db.outbox| {
        SameRowSameAsked(labels, states, i, s.db.outbox[i], t.db.outbox[i], n);
      } else {
        JustAsked(labels, states, i, t.db.outbox[i], n);
      }
    }
  }

  lemma JustAsked(labels: seq<Label>, states: seq<Sys>, i: nat, row: Row, n: nat)
    requires n < |labels| && |states| == |labels| + 1 && Asks(states[n], labels[n], i, row)
    ensures WasAsked(labels, states, i, row, n + 1)
  {
  }

  lemma {:induction false} AskedHolds(cfg: Config, labels: seq<Label>, states: seq<Sys>, n: nat)
    requires IsRun(cfg, labels, states) && n <= |labels|
    ensures AllAsked(labels, states, n)
  {
    hide Next, AllAsked;
    if n == 0 {
      NothingAsked(labels, states);
    } else {
      AskedHolds(cfg, labels, states, n - 1);
      AskedStep(cfg, labels, states, n - 1);
    }
  }

  lemma NothingAsked(labels: seq<Label>, states: seq<Sys>)
    requires |states| == |labels| + 1 && states[0] == START
    ensures AllAsked(labels, states, 0)
  {
  }

  /**
   * In every run, whatever has become of it, a row goes on asking for what the call that added it asked for: the
   * same account, parties and ledger object, as the records stood then.
   */
  lemma RowsAskForWhatWasCalled(cfg: Config, labels: seq<Label>, states: seq<Sys>, n: nat, i: nat) returns (m: nat)
    requires IsRun(cfg, labels, states) && n <= |labels| && i < |states[n].db.outbox|
    ensures m < n && labels[m].Api? && |states[m].db.outbox| == i
    ensures AskedBy(states[m].db, labels[m].call, states[n].db.outbox[i])
  {
    hide Next, AskedBy;
    AskedHolds(cfg, labels, states, n);
    assert WasAsked(labels, states, i, states[n].db.outbox[i], n);
    m :| m < n && Asks(states[m], labels[m], i, states[n].db.outbox[i]);
  }
}
