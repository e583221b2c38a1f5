/**
 * The services as the API calls them: each method changes the memory database step by step
 * and leaves what the corresponding function of `ServiceCalls` says.
 */
module Services {
  import opened Options
  import opened SharedTypes
  import opened OutboxDb
  import opened MemoryStore
  import opened ServiceCalls

  class LendingServices {
    const db: MemoryDatabase

    constructor (db: MemoryDatabase)
      ensures this.db == db
    {
      this.db := db;
    }

    method Append(aggregate: Aggregate, id: nat, actor: Actor, action: Option<string>, outboxId: Option<nat>)
      modifies db`evidence
      ensures db.View() == AddNote(old(db.View()), aggregate, id, actor, action, outboxId)
    {
      db.evidence := db.evidence + [Note(aggregate, id, actor, action, outboxId)];
    }

    /** Scans the loan's events for something that rules the submission out. */
    method EnforceSod(loanId: nat, actor: Actor) returns (violated: bool)
      ensures violated <==> ViolatesSod(db.evidence, loanId, actor)
    {
      hide Upper;
      if !Truthy(actor) { return false; }
      for i := 0 to |db.evidence|
        invariant forall k | 0 <= k < i :: !Conflicting(db.evidence[k], loanId, actor.value)
      {
        var e := db.evidence[i];
        if e.aggregate == LoanAggregate && e.aggregateId == loanId && e.actor == actor {
          var priorAction := e.action;
          if priorAction.Some? && priorAction.value != "" && Upper(priorAction.value) in SUBMIT_CONFLICTS {
            return true;
          }
        }
      }
      violated := false;
    }

    /** The loan's first LoanSet row in one of two states. */
    method FindOutboxItem(loanId: nat, s: Status, t: Status) returns (id: Option<nat>)
      ensures id == FindLoanSet(db.outbox, loanId, s, t, 0)
    {
      for i := 0 to |db.outbox|
        invariant FindLoanSet(db.outbox, loanId, s, t, 0) == FindLoanSet(db.outbox, loanId, s, t, i)
      {
        var o := db.outbox[i];
        if o.aggregate == LoanAggregate && o.aggregateId == loanId && o.kind == LoanSet && (o.status == s || o.status == t) {
          return Some(i);
        }
      }
      id := None;
    }

    // ---------- loans ----------

    method CreateLoan(brokerId: nat, borrowerAddress: string, borrowerPartyId: Option<string>, actor: Actor) returns (r: Reply)
      modifies db
      ensures (db.View(), r) == DoCreateLoan(old(db.View()), brokerId, borrowerAddress, borrowerPartyId, actor)
      ensures db.sequences == old(db.sequences)
    {
      var id := |db.loans|;
      db.loans := db.loans + [Loan(None, None, brokerId, borrowerPartyId, borrowerAddress, LoanApproved)];
      Append(LoanAggregate, id, actor, Some("loan_approve"), None);
      r := Accepted;
    }

    method PrepareCosignPacket(loanId: nat, actor: Actor) returns (r: Reply)
      modifies db
      ensures (db.View(), r) == DoPrepareCosignPacket(old(db.View()), loanId, actor)
      ensures db.sequences == old(db.sequences)
    {
      hide ViolatesSod, Rejects;
      if loanId >= |db.loans| { return Refused(LoanNotFound); }
      var loan := db.loans[loanId];
      var violated := EnforceSod(loanId, actor);
      if violated { return Refused(SodViolation); }
      if loan.loanBrokerId >= |db.loanBrokers| { return Refused(LoanBrokerNotFound); }
      var broker := db.loanBrokers[loan.loanBrokerId];
      if !Ready(broker.xrplLoanBrokerId) { return Refused(LoanBrokerNotReady); }
      if broker.ownerAddress == "" || loan.borrowerAddress == "" { return Refused(BadAddress); }
      var tx := Tx(broker.ownerAddress, Some(loan.borrowerAddress), broker.xrplLoanBrokerId, None);
      var id := db.EnqueueTx(TxInput(LoanSet, LoanAggregate, loanId, Some(LoanSetKey(loanId)), tx));
      if id == None { return Refused(DuplicateOutbox); }
      db.loans := db.loans[loanId := loan.(status := CosignPending)];
      Append(LoanAggregate, loanId, actor, Some("prepare_cosign"), id);
      r := Accepted;
    }

    method RecordBrokerSignature(loanId: nat, blob: Option<string>, hash: Option<string>, actor: Actor) returns (r: Reply)
      modifies db
      ensures (db.View(), r) == DoRecordBrokerSignature(old(db.View()), loanId, blob, hash, actor)
      ensures db.sequences == old(db.sequences)
    {
      hide ViolatesSod;
      if loanId >= |db.loans| { return Refused(LoanNotFound); }
      if db.loans[loanId].status != CosignPending { return Refused(InvalidState); }
      var violated := EnforceSod(loanId, actor);
      if violated { return Refused(SodViolation); }
      var id := FindOutboxItem(loanId, Pending, Processing);
      if id == None { return Refused(NoPendingOutbox); }
      var meta := db.outbox[id.value].meta.(brokerSigned := true, brokerBlob := blob);
      db.UpdateOutbox(id.value, Patch(Some(Signed1), Some(hash), None, Some(meta)));
      Append(LoanAggregate, loanId, actor, Some("broker_sign"), id);
      r := Accepted;
    }

    method FindPartyByAuthUser(sub: string, partyId: Option<string>) returns (linked: bool)
      ensures linked <==> LinkedTo(db.parties, sub, partyId)
    {
      for i := 0 to |db.parties|
        invariant LinkedTo(db.parties, sub, partyId) <==> LinkedTo(db.parties[i..], sub, partyId)
      {
        assert db.parties[i..][1..] == db.parties[i + 1..];
        if db.parties[i].authUserId == Some(sub) {
          return partyId == Some(db.parties[i].id);
        }
      }
      linked := false;
    }

    method RecordBorrowerSignature(loanId: nat, blob: Option<string>, actor: Actor) returns (r: Reply)
      modifies db
      ensures (db.View(), r) == DoRecordBorrowerSignature(old(db.View()), loanId, blob, actor)
      ensures db.sequences == old(db.sequences)
      ensures loanId < old(|db.loans|) && Truthy(actor) ==>
                (r == Refused(BorrowerIdentityMismatch) <==> !IsBorrower(old(db.View()), loanId, actor.value))
    {
      hide FirstLinked;
      if loanId < |db.loans| { MayCounterSignExactly(db.View(), loanId, actor); }
      if loanId >= |db.loans| { return Refused(LoanNotFound); }
      var loan := db.loans[loanId];
      if Truthy(actor) {
        var authorized := loan.borrowerPartyId == actor;
        if !authorized {
          authorized := FindPartyByAuthUser(actor.value, loan.borrowerPartyId);
        }
        if !authorized { return Refused(BorrowerIdentityMismatch); }
      }
      var id := FindOutboxItem(loanId, Signed1, Signed1);
      if id == None { return Refused(NoBrokerSignedOutbox); }
      var meta := db.outbox[id.value].meta.(counterpartySigned := true, counterpartyBlob := blob);
      db.UpdateOutbox(id.value, Patch(Some(Signed2), None, None, Some(meta)));
      Append(LoanAggregate, loanId, actor, Some("borrower_sign"), id);
      r := Accepted;
    }

    // ---------- vaults ----------

    method CreateVault(owner: string, actor: Actor) returns (r: Reply)
      modifies db
      ensures (db.View(), r) == DoCreateVault(old(db.View()), owner, actor)
      ensures db.sequences == old(db.sequences)
    {
      hide Rejects;
      var id := |db.vaults|;
      db.vaults := db.vaults + [Vault(None, owner, VaultQueued)];
      if owner == "" { return Refused(BadAddress); }
      var row := db.EnqueueTx(TxInput(VaultCreate, VaultAggregate, id, Some(VaultCreateKey(id)), Tx(owner, None, None, None)));
      if row == None { return Refused(DuplicateOutbox); }
      Append(VaultAggregate, id, actor, None, None);
      r := Accepted;
    }

    method Deposit(vaultId: nat, account: string, actor: Actor) returns (r: Reply)
      modifies db
      ensures (db.View(), r) == DoDeposit(old(db.View()), vaultId, account, actor)
      ensures db.sequences == old(db.sequences)
    {
      hide Rejects;
      if vaultId >= |db.vaults| { return Refused(VaultNotFound); }
      var vault := db.vaults[vaultId];
      if !Ready(vault.xrplVaultId) { return Refused(VaultNotReady); }
      if account == "" { return Refused(BadAddress); }
      var row := db.EnqueueTx(TxInput(VaultDeposit, VaultAggregate, vaultId, Some(VaultDepositKey(vaultId, account)),
                                      Tx(account, None, vault.xrplVaultId, None)));
      if row == None { return Refused(DuplicateOutbox); }
      Append(VaultAggregate, vaultId, actor, None, None);
      r := Accepted;
    }

    method CreateLoanBroker(vaultId: nat, owner: string, actor: Actor) returns (r: Reply)
      modifies db
      ensures (db.View(), r) == DoCreateLoanBroker(old(db.View()), vaultId, owner, actor)
      ensures db.sequences == old(db.sequences)
    {
      hide Rejects;
      if vaultId >= |db.vaults| { return Refused(VaultNotFound); }
      var vault := db.vaults[vaultId];
      if !Ready(vault.xrplVaultId) { return Refused(VaultNotReady); }
      if vault.ownerAddress != owner { return Refused(OwnerMismatch); }
      var id := |db.loanBrokers|;
      db.loanBrokers := db.loanBrokers + [Broker(None, vaultId, owner, BrokerQueued)];
      if owner == "" { return Refused(BadAddress); }
      var row := db.EnqueueTx(TxInput(LoanBrokerSet, BrokerAggregate, id, Some(BrokerSetKey(id)),
                                      Tx(owner, None, vault.xrplVaultId, None)));
      if row == None { return Refused(DuplicateOutbox); }
      Append(BrokerAggregate, id, actor, None, None);
      r := Accepted;
    }

    method DepositCollateral(brokerId: nat, now: int, actor: Actor) returns (r: Reply)
      modifies db
      ensures (db.View(), r) == DoDepositCollateral(old(db.View()), brokerId, now, actor)
      ensures db.sequences == old(db.sequences)
    {
      hide Rejects;
      if brokerId >= |db.loanBrokers| { return Refused(LoanBrokerNotFound); }
      var broker := db.loanBrokers[brokerId];
      if !Ready(broker.xrplLoanBrokerId) { return Refused(LoanBrokerNotReady); }
      if broker.ownerAddress == "" { return Refused(BadAddress); }
      var row := db.EnqueueTx(TxInput(CollateralDeposit, BrokerAggregate, brokerId, Some(CollateralKey(brokerId, now)),
                                      Tx(broker.ownerAddress, None, broker.xrplLoanBrokerId, None)));
      if row == None { return Refused(DuplicateOutbox); }
      Append(BrokerAggregate, brokerId, actor, Some("collateral_deposit"), None);
      r := Accepted;
    }

    // ---------- borrowers ----------

    method CreateBorrower(id: string, authUserId: Option<string>, actor: Actor) returns (r: Reply)
      modifies db
      ensures (db.View(), r) == DoCreateBorrower(old(db.View()), id, authUserId, actor)
      ensures db.sequences == old(db.sequences)
    {
      var k := |db.parties|;
      db.parties := db.parties + [Party(id, authUserId)];
      Append(BorrowerAggregate, k, actor, Some("borrower_create"), None);
      r := Accepted;
    }

    method LinkAuthUser(id: string, authUserId: Option<string>, actor: Actor) returns (r: Reply)
      modifies db
      ensures (db.View(), r) == DoLinkAuthUser(old(db.View()), id, authUserId, actor)
      ensures db.sequences == old(db.sequences)
    {
      for i := 0 to |db.parties|
        invariant db.View() == old(db.View()) && db.sequences == old(db.sequences)
        invariant FindParty(db.parties, id, 0) == FindParty(db.parties, id, i)
      {
        if db.parties[i].id == id {
          db.parties := db.parties[i := Party(db.parties[i].id, authUserId)];
          Append(BorrowerAggregate, i, actor, Some("link_auth_user"), None);
          return Accepted;
        }
      }
      r := Refused(BorrowerNotFound);
    }

    // ---------- any call ----------

    method Handle(call: Call) returns (r: Reply)
      modifies db
      ensures (db.View(), r) == ServiceCalls.Handle(old(db.View()), call)
      ensures db.sequences == old(db.sequences)
    {
      match call
      case CreateVault(owner, actor) => r := CreateVault(owner, actor);
      case Deposit(vaultId, account, actor) => r := Deposit(vaultId, account, actor);
      case CreateLoanBroker(vaultId, owner, actor) => r := CreateLoanBroker(vaultId, owner, actor);
      case DepositCollateral(brokerId, now, actor) => r := DepositCollateral(brokerId, now, actor);
      case CreateLoan(brokerId, address, partyId, actor) => r := CreateLoan(brokerId, address, partyId, actor);
      case PrepareCosignPacket(loanId, actor) => r := PrepareCosignPacket(loanId, actor);
      case RecordBrokerSignature(loanId, blob, hash, actor) => r := RecordBrokerSignature(loanId, blob, hash, actor);
      case RecordBorrowerSignature(loanId, blob, actor) => r := RecordBorrowerSignature(loanId, blob, actor);
      case CreateBorrower(id, authUserId, actor) => r := CreateBorrower(id, authUserId, actor);
      case LinkAuthUser(id, authUserId, actor) => r := LinkAuthUser(id, authUserId, actor);
    }
  }
}
