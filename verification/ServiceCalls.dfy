/**
 * The loan, vault and borrower services: what each call does to the database, whole or in
 * part when it is refused on the way.
 */
module ServiceCalls {
  import opened Options
  import opened SharedTypes
  import opened OutboxDb

  /** `actor?.sub`. */
  type Actor = Option<string>

  datatype Refusal =
    | VaultNotFound | VaultNotReady | OwnerMismatch | BadAddress | DuplicateOutbox
    | LoanNotFound | LoanBrokerNotFound | LoanBrokerNotReady | InvalidState | SodViolation
    | NoPendingOutbox | NoBrokerSignedOutbox | BorrowerIdentityMismatch | BorrowerNotFound

  datatype Reply = Accepted | Refused(why: Refusal)

  datatype Call =
    | CreateVault(owner: string, actor: Actor)
    | Deposit(vaultId: nat, account: string, actor: Actor)
    | CreateLoanBroker(vaultId: nat, owner: string, actor: Actor)
    | DepositCollateral(brokerId: nat, now: int, actor: Actor)
    | CreateLoan(brokerId: nat, borrowerAddress: string, borrowerPartyId: Option<string>, actor: Actor)
    | PrepareCosignPacket(loanId: nat, actor: Actor)
    | RecordBrokerSignature(loanId: nat, blob: Option<string>, hash: Option<string>, actor: Actor)
    | RecordBorrowerSignature(loanId: nat, blob: Option<string>, actor: Actor)
    | CreateBorrower(id: string, authUserId: Option<string>, actor: Actor)
    | LinkAuthUser(id: string, authUserId: Option<string>, actor: Actor)

  /** An object id the ledger has really assigned. */
  predicate Ready(id: Option<string>) { id.Some? && id.value != "" && !("UNSET" <= id.value) }

  function AddNote(db: Db, aggregate: Aggregate, id: nat, actor: Actor, action: Option<string>, outboxId: Option<nat>): Db {
    db.(evidence := db.evidence + [Note(aggregate, id, actor, action, outboxId)])
  }

  function Enqueued(db: Db, input: TxInput): Db { db.(outbox := db.outbox + [NewRow(input)]) }

  // ---------- separation of duties ----------

  function UpperChar(c: char): char {
    if 'a' <= c <= 'z' then (c as int - 32) as char else c
  }

  function Upper(s: string): string { seq(|s|, i requires 0 <= i < |s| => UpperChar(s[i])) }

  /** What nobody may have done to the loan before submitting it. */
  const SUBMIT_CONFLICTS := ["LOAN_APPROVE", "RECONCILIATION_CLOSE"]

  predicate Conflicting(e: Note, loanId: nat, sub: string) {
    e.aggregate == LoanAggregate && e.aggregateId == loanId && e.actor == Some(sub)
    && e.action.Some? && e.action.value != "" && Upper(e.action.value) in SUBMIT_CONFLICTS
  }

  /** The actor, when there is one, already did something that rules out submitting. */
  predicate ViolatesSod(evidence: seq<Note>, loanId: nat, actor: Actor) {
    Truthy(actor) && exists i | 0 <= i < |evidence| :: Conflicting(evidence[i], loanId, actor.value)
  }

  // ---------- vaults ----------

  function DoCreateVault(db: Db, owner: string, actor: Actor): (Db, Reply) {
    var id := |db.vaults|;
    var db1 := db.(vaults := db.vaults + [Vault(None, owner, VaultQueued)]);
    var input := TxInput(VaultCreate, VaultAggregate, id, Some(VaultCreateKey(id)), Tx(owner, None, None, None));
    if owner == "" then (db1, Refused(BadAddress))
    else if Rejects(db1.outbox, input.dedupeKey) then (db1, Refused(DuplicateOutbox))
    else (AddNote(Enqueued(db1, input), VaultAggregate, id, actor, None, None), Accepted)
  }

  function DoDeposit(db: Db, vaultId: nat, account: string, actor: Actor): (Db, Reply) {
    if vaultId >= |db.vaults| then (db, Refused(VaultNotFound))
    else if !Ready(db.vaults[vaultId].xrplVaultId) then (db, Refused(VaultNotReady))
    else if account == "" then (db, Refused(BadAddress))
    else
      var input := TxInput(VaultDeposit, VaultAggregate, vaultId, Some(VaultDepositKey(vaultId, account)),
                           Tx(account, None, db.vaults[vaultId].xrplVaultId, None));
      if Rejects(db.outbox, input.dedupeKey) then (db, Refused(DuplicateOutbox))
      else (AddNote(Enqueued(db, input), VaultAggregate, vaultId, actor, None, None), Accepted)
  }

  function DoCreateLoanBroker(db: Db, vaultId: nat, owner: string, actor: Actor): (Db, Reply) {
    if vaultId >= |db.vaults| then (db, Refused(VaultNotFound))
    else if !Ready(db.vaults[vaultId].xrplVaultId) then (db, Refused(VaultNotReady))
    else if db.vaults[vaultId].ownerAddress != owner then (db, Refused(OwnerMismatch))
    else
      var id := |db.brokers|;
      var db1 := db.(brokers := db.brokers + [Broker(None, vaultId, owner, BrokerQueued)]);
      var input := TxInput(LoanBrokerSet, BrokerAggregate, id, Some(BrokerSetKey(id)),
                           Tx(owner, None, db.vaults[vaultId].xrplVaultId, None));
      if owner == "" then (db1, Refused(BadAddress))
      else if Rejects(db1.outbox, input.dedupeKey) then (db1, Refused(DuplicateOutbox))
      else (AddNote(Enqueued(db1, input), BrokerAggregate, id, actor, None, None), Accepted)
  }

  function DoDepositCollateral(db: Db, brokerId: nat, now: int, actor: Actor): (Db, Reply) {
    if brokerId >= |db.brokers| then (db, Refused(LoanBrokerNotFound))
    else if !Ready(db.brokers[brokerId].xrplLoanBrokerId) then (db, Refused(LoanBrokerNotReady))
    else if db.brokers[brokerId].ownerAddress == "" then (db, Refused(BadAddress))
    else
      var broker := db.brokers[brokerId];
      var input := TxInput(CollateralDeposit, BrokerAggregate, brokerId, Some(CollateralKey(brokerId, now)),
                           Tx(broker.ownerAddress, None, broker.xrplLoanBrokerId, None));
      if Rejects(db.outbox, input.dedupeKey) then (db, Refused(DuplicateOutbox))
      else (AddNote(Enqueued(db, input), BrokerAggregate, brokerId, actor, Some("collateral_deposit"), None), Accepted)
  }

  // ---------- loans ----------

  function DoCreateLoan(db: Db, brokerId: nat, borrowerAddress: string, borrowerPartyId: Option<string>, actor: Actor): (Db, Reply) {
    var id := |db.loans|;
    var db1 := db.(loans := db.loans + [Loan(None, None, brokerId, borrowerPartyId, borrowerAddress, LoanApproved)]);
    (AddNote(db1, LoanAggregate, id, actor, Some("loan_approve"), None), Accepted)
  }

  function LoanSetInput(db: Db, loanId: nat): TxInput
    requires loanId < |db.loans| && db.loans[loanId].loanBrokerId < |db.brokers|
  {
    var loan := db.loans[loanId];
    var broker := db.brokers[loan.loanBrokerId];
    TxInput(LoanSet, LoanAggregate, loanId, Some(LoanSetKey(loanId)),
            Tx(broker.ownerAddress, Some(loan.borrowerAddress), broker.xrplLoanBrokerId, None))
  }

  function DoPrepareCosignPacket(db: Db, loanId: nat, actor: Actor): (Db, Reply) {
    if loanId >= |db.loans| then (db, Refused(LoanNotFound))
    else if ViolatesSod(db.evidence, loanId, actor) then (db, Refused(SodViolation))
    else if db.loans[loanId].loanBrokerId >= |db.brokers| then (db, Refused(LoanBrokerNotFound))
    else
      var broker := db.brokers[db.loans[loanId].loanBrokerId];
      if !Ready(broker.xrplLoanBrokerId) then (db, Refused(LoanBrokerNotReady))
      else if broker.ownerAddress == "" || db.loans[loanId].borrowerAddress == "" then (db, Refused(BadAddress))
      else
        var input := LoanSetInput(db, loanId);
        if Rejects(db.outbox, input.dedupeKey) then (db, Refused(DuplicateOutbox))
        else
          var db1 := Enqueued(db, input);
          var db2 := db1.(loans := db.loans[loanId := db.loans[loanId].(status := CosignPending)]);
          (AddNote(db2, LoanAggregate, loanId, actor, Some("prepare_cosign"), Some(|db.outbox|)), Accepted)
  }

  predicate IsLoanSetIn(row: Row, loanId: nat, s: Status, t: Status) {
    row.aggregate == LoanAggregate && row.aggregateId == loanId && row.kind == LoanSet
    && (row.status == s || row.status == t)
  }

  /** The loan's first LoanSet row at or after `from` that is in one of two states. */
  function FindLoanSet(outbox: seq<Row>, loanId: nat, s: Status, t: Status, from: nat): (id: Option<nat>)
    requires from <= |outbox|
    ensures id.Some? ==> from <= id.value < |outbox| && IsLoanSetIn(outbox[id.value], loanId, s, t)
    ensures forall i | from <= i < (if id.Some? then id.value else |outbox|) :: !IsLoanSetIn(outbox[i], loanId, s, t)
    decreases |outbox| - from
  {
    if from == |outbox| then None
    else if IsLoanSetIn(outbox[from], loanId, s, t) then Some(from)
    else FindLoanSet(outbox, loanId, s, t, from + 1)
  }

  function BrokerPatch(row: Row, blob: Option<string>, hash: Option<string>): Patch {
    Patch(Some(Signed1), Some(hash), None, Some(row.meta.(brokerSigned := true, brokerBlob := blob)))
  }

  function DoRecordBrokerSignature(db: Db, loanId: nat, blob: Option<string>, hash: Option<string>, actor: Actor): (Db, Reply) {
    if loanId >= |db.loans| then (db, Refused(LoanNotFound))
    else if db.loans[loanId].status != CosignPending then (db, Refused(InvalidState))
    else if ViolatesSod(db.evidence, loanId, actor) then (db, Refused(SodViolation))
    else
      match FindLoanSet(db.outbox, loanId, Pending, Processing, 0)
      case None => (db, Refused(NoPendingOutbox))
      case Some(id) =>
        var db1 := db.(outbox := UpdateRow(db.outbox, id, BrokerPatch(db.outbox[id], blob, hash)));
        (AddNote(db1, LoanAggregate, loanId, actor, Some("broker_sign"), Some(id)), Accepted)
  }

  predicate LinkedTo(parties: seq<Party>, sub: string, partyId: Option<string>) {
    if parties == [] then false
    else if parties[0].authUserId == Some(sub) then partyId == Some(parties[0].id)
    else LinkedTo(parties[1..], sub, partyId)
  }

  /** The actor, when there is one, is the loan's borrower, directly or by the first linked party. */
  predicate MayCounterSign(db: Db, loan: Loan, actor: Actor) {
    !Truthy(actor)
    || loan.borrowerPartyId == actor || LinkedTo(db.parties, actor.value, loan.borrowerPartyId)
  }

  /** The first party linked to the user. */
  ghost predicate FirstLinked(parties: seq<Party>, sub: string, p: nat) {
    && p < |parties| && parties[p].authUserId == Some(sub)
    && forall q: nat | q < p :: parties[q].authUserId != Some(sub)
  }

  /** The user is the loan's borrower, by its own id or by the first party linked to it. */
  ghost predicate IsBorrower(db: Db, k: nat, sub: string)
    requires k < |db.loans|
  {
    || db.loans[k].borrowerPartyId == Some(sub)
    || exists p: nat :: FirstLinked(db.parties, sub, p) && db.loans[k].borrowerPartyId == Some(db.parties[p].id)
  }

  lemma {:induction false} LinkedByFirst(parties: seq<Party>, sub: string, partyId: Option<string>)
    ensures LinkedTo(parties, sub, partyId)
            <==> exists p: nat :: FirstLinked(parties, sub, p) && partyId == Some(parties[p].id)
  {
    if parties != [] {
      LinkedByFirst(parties[1..], sub, partyId);
      if parties[0].authUserId == Some(sub) {
        assert FirstLinked(parties, sub, 0);
      } else {
        forall p: nat ensures FirstLinked(parties[1..], sub, p) <==> FirstLinked(parties, sub, p + 1) {
          LinkedAfterFirst(parties, sub, p);
        }
        if p: nat :| FirstLinked(parties, sub, p) && partyId == Some(parties[p].id) {
          assert FirstLinked(parties[1..], sub, p - 1);
        }
        if p: nat :| FirstLinked(parties[1..], sub, p) && partyId == Some(parties[1..][p].id) {
          assert FirstLinked(parties, sub, p + 1);
        }
      }
    }
  }

  lemma LinkedAfterFirst(parties: seq<Party>, sub: string, p: nat)
    requires parties != [] && parties[0].authUserId != Some(sub)
    ensures FirstLinked(parties[1..], sub, p) <==> FirstLinked(parties, sub, p + 1)
  {
    if FirstLinked(parties[1..], sub, p) {
      forall q: nat | q < p + 1 ensures parties[q].authUserId != Some(sub) {
        assert q > 0 ==> parties[1..][q - 1] == parties[q];
      }
    }
    if FirstLinked(parties, sub, p + 1) {
      forall q: nat | q < p ensures parties[1..][q].authUserId != Some(sub) {
        assert parties[1..][q] == parties[q + 1];
      }
    }
  }

  lemma MayCounterSignExactly(db: Db, k: nat, actor: Actor)
    requires k < |db.loans|
    ensures MayCounterSign(db, db.loans[k], actor) <==> (!Truthy(actor) || IsBorrower(db, k, actor.value))
  {
    if Truthy(actor) { LinkedByFirst(db.parties, actor.value, db.loans[k].borrowerPartyId); }
  }

  function BorrowerPatch(row: Row, blob: Option<string>): Patch {
    Patch(Some(Signed2), None, None, Some(row.meta.(counterpartySigned := true, counterpartyBlob := blob)))
  }

  function DoRecordBorrowerSignature(db: Db, loanId: nat, blob: Option<string>, actor: Actor): (Db, Reply) {
    if loanId >= |db.loans| then (db, Refused(LoanNotFound))
    else if !MayCounterSign(db, db.loans[loanId], actor) then (db, Refused(BorrowerIdentityMismatch))
    else
      match FindLoanSet(db.outbox, loanId, Signed1, Signed1, 0)
      case None => (db, Refused(NoBrokerSignedOutbox))
      case Some(id) =>
        var db1 := db.(outbox := UpdateRow(db.outbox, id, BorrowerPatch(db.outbox[id], blob)));
        (AddNote(db1, LoanAggregate, loanId, actor, Some("borrower_sign"), Some(id)), Accepted)
  }

  // ---------- borrowers ----------

  function DoCreateBorrower(db: Db, id: string, authUserId: Option<string>, actor: Actor): (Db, Reply) {
    var db1 := db.(parties := db.parties + [Party(id, authUserId)]);
    (AddNote(db1, BorrowerAggregate, |db.parties|, actor, Some("borrower_create"), None), Accepted)
  }

  function FindParty(parties: seq<Party>, id: string, from: nat): (r: Option<nat>)
    requires from <= |parties|
    ensures r.Some? ==> r.value < |parties|
    decreases |parties| - from
  {
    if from == |parties| then None
    else if parties[from].id == id then Some(from)
    else FindParty(parties, id, from + 1)
  }

  function DoLinkAuthUser(db: Db, id: string, authUserId: Option<string>, actor: Actor): (Db, Reply) {
    match FindParty(db.parties, id, 0)
    case None => (db, Refused(BorrowerNotFound))
    case Some(k) =>
      var db1 := db.(parties := db.parties[k := Party(db.parties[k].id, authUserId)]);
      (AddNote(db1, BorrowerAggregate, k, actor, Some("link_auth_user"), None), Accepted)
  }

  // ---------- any call ----------

  function Handle(db: Db, call: Call): (Db, Reply) {
    match call
    case CreateVault(owner, actor) => DoCreateVault(db, owner, actor)
    case Deposit(vaultId, account, actor) => DoDeposit(db, vaultId, account, actor)
    case CreateLoanBroker(vaultId, owner, actor) => DoCreateLoanBroker(db, vaultId, owner, actor)
    case DepositCollateral(brokerId, now, actor) => DoDepositCollateral(db, brokerId, now, actor)
    case CreateLoan(brokerId, address, partyId, actor) => DoCreateLoan(db, brokerId, address, partyId, actor)
    case PrepareCosignPacket(loanId, actor) => DoPrepareCosignPacket(db, loanId, actor)
    case RecordBrokerSignature(loanId, blob, hash, actor) => DoRecordBrokerSignature(db, loanId, blob, hash, actor)
    case RecordBorrowerSignature(loanId, blob, actor) => DoRecordBorrowerSignature(db, loanId, blob, actor)
    case CreateBorrower(id, authUserId, actor) => DoCreateBorrower(db, id, authUserId, actor)
    case LinkAuthUser(id, authUserId, actor) => DoLinkAuthUser(db, id, authUserId, actor)
  }
}
