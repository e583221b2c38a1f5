/** Which calls are accepted, in every state of every run, in terms of the records and the rows alone. */
module Admission {
  import opened Options
  import opened SharedTypes
  import opened OutboxDb
  import opened Protocol
  import opened ServiceCalls
  import opened Control
  import opened Ownership
  import opened SeparationOfDuties

  // ---------- keys ----------

  /** A row's key is that of what it asks for. */
  ghost predicate KeyFits(row: Row) {
    match row.kind
    case VaultCreate => row.dedupeKey == Some(VaultCreateKey(row.aggregateId))
    case VaultDeposit => row.dedupeKey == Some(VaultDepositKey(row.aggregateId, row.tx.account))
    case LoanBrokerSet => row.dedupeKey == Some(BrokerSetKey(row.aggregateId))
    case CollateralDeposit => exists now: int :: row.dedupeKey == Some(CollateralKey(row.aggregateId, now))
    case LoanSet => row.aggregate == LoanAggregate && row.dedupeKey == Some(LoanSetKey(row.aggregateId))
  }

  ghost predicate KeysFit(outbox: seq<Row>) { forall i | 0 <= i < |outbox| :: KeyFits(outbox[i]) }

  lemma AddedKeyFits(db: Db, call: Call)
    ensures ChangeOf(db, call).Added? ==> KeyFits(NewRow(ChangeOf(db, call).input))
  {
    hide Handle;
    if ChangeOf(db, call).Added? && call.DepositCollateral? {
      assert NewRow(ChangeOf(db, call).input).dedupeKey == Some(CollateralKey(call.brokerId, call.now));
    }
  }

  lemma KeysNext(cfg: Config, s: Sys, l: Label)
    requires ControlInv(s) && KeysFit(s.db.outbox)
    ensures KeysFit(Next(cfg, s, l).db.outbox)
  {
    hide Next, ControlInv;
    var t := Next(cfg, s, l);
    match l
    case Api(call) =>
      ApiStep(cfg, s, call);
      AddedKeyFits(s.db, call);
      hide ChangeOf, NotesAdded;
      forall i | 0 <= i < |t.db.outbox| ensures KeyFits(t.db.outbox[i]) {
        assert i < |s.db.outbox| ==> KeyFits(s.db.outbox[i]);
      }
    case _ =>
      WorkerStepMoves(cfg, s, l);
      forall i | 0 <= i < |t.db.outbox| ensures KeyFits(t.db.outbox[i]) {
        assert WorkerMoves(s.db.outbox[i], t.db.outbox[i]) && KeyFits(s.db.outbox[i]);
      }
  }

  lemma {:induction false} KeysHold(cfg: Config, labels: seq<Label>)
    ensures KeysFit(Run(cfg, labels).db.outbox)
  {
    hide Next;
    if labels != [] {
      var front := labels[..|labels| - 1];
      KeysHold(cfg, front);
      ControlHolds(cfg, front);
      KeysNext(cfg, Run(cfg, front), labels[|labels| - 1]);
    }
  }

  lemma KeysFitIn(cfg: Config, s: Sys)
    requires Reachable(cfg, s)
    ensures KeysFit(s.db.outbox) && OwnershipInv(s.db) && SodInv(s.db)
  {
    hide Run, Reachable, KeysFit, OwnershipInv, SodInv;
    var labels := ReachedBy(cfg, s);
    KeysHold(cfg, labels);
    OwnershipHolds(cfg, labels);
    SodHolds(cfg, labels);
  }

  // ---------- what stands in the way ----------

  /** A row of the kind about the aggregate whose outcome still stands or is still to come. */
  ghost predicate Open(row: Row, kind: Kind, id: nat) {
    row.kind == kind && row.aggregateId == id && row.status !in {Validated, Indexed, Failed, Closed}
  }

  ghost predicate HasOpen(outbox: seq<Row>, kind: Kind, id: nat) {
    exists i | 0 <= i < |outbox| :: Open(outbox[i], kind, id)
  }

  lemma TakenExactlyWhenOpen(outbox: seq<Row>, kind: Kind, id: nat)
    requires KeysFit(outbox)
    ensures KeyTaken(outbox, LoanSetKey(id)) <==> HasOpen(outbox, LoanSet, id)
    ensures KeyTaken(outbox, VaultCreateKey(id)) <==> HasOpen(outbox, VaultCreate, id)
    ensures KeyTaken(outbox, BrokerSetKey(id)) <==> HasOpen(outbox, LoanBrokerSet, id)
  {
    forall i | 0 <= i < |outbox|
      ensures outbox[i].dedupeKey == Some(LoanSetKey(id)) && !IsTerminal(outbox[i].status) <==> Open(outbox[i], LoanSet, id)
      ensures outbox[i].dedupeKey == Some(VaultCreateKey(id)) && !IsTerminal(outbox[i].status) <==> Open(outbox[i], VaultCreate, id)
      ensures outbox[i].dedupeKey == Some(BrokerSetKey(id)) && !IsTerminal(outbox[i].status) <==> Open(outbox[i], LoanBrokerSet, id)
    {
      assert KeyFits(outbox[i]);
    }
  }

  lemma DepositTaken(outbox: seq<Row>, id: nat, account: string)
    requires KeysFit(outbox)
    ensures KeyTaken(outbox, VaultDepositKey(id, account))
            <==> exists i | 0 <= i < |outbox| :: Open(outbox[i], VaultDeposit, id) && outbox[i].tx.account == account
  {
    forall i | 0 <= i < |outbox|
      ensures outbox[i].dedupeKey == Some(VaultDepositKey(id, account)) && !IsTerminal(outbox[i].status)
              <==> Open(outbox[i], VaultDeposit, id) && outbox[i].tx.account == account
    {
      assert KeyFits(outbox[i]);
    }
  }

  lemma CollateralTaken(outbox: seq<Row>, id: nat, now: int)
    requires KeysFit(outbox)
    ensures KeyTaken(outbox, CollateralKey(id, now))
            <==> exists i | 0 <= i < |outbox| :: Open(outbox[i], CollateralDeposit, id) && outbox[i].dedupeKey == Some(CollateralKey(id, now))
  {
    forall i | 0 <= i < |outbox|
      ensures outbox[i].dedupeKey == Some(CollateralKey(id, now)) && !IsTerminal(outbox[i].status)
              <==> Open(outbox[i], CollateralDeposit, id) && outbox[i].dedupeKey == Some(CollateralKey(id, now))
    {
      assert KeyFits(outbox[i]);
    }
  }

  /** An id the ledger has assigned: there is one, and it is no placeholder. */
  predicate Assigned(id: Option<string>) {
    id.Some? && |id.value| >= 1 && !(|id.value| >= 5 && id.value[..5] == "UNSET")
  }

  lemma AssignedIsReady(id: Option<string>)
    ensures Ready(id) <==> Assigned(id)
  {
    if id.Some? { assert "UNSET" <= id.value <==> |id.value| >= 5 && id.value[..5] == "UNSET"; }
  }

  // ---------- main results ----------

  /** A vault is accepted for any owner address. */
  lemma VaultsAccepted(cfg: Config, s: Sys, owner: string, actor: Actor)
    requires Reachable(cfg, s)
    ensures Handle(s.db, CreateVault(owner, actor)).1 == if owner == "" then Refused(BadAddress) else Accepted
  {
    hide Reachable, KeyTaken, RowOwned, SodInv;
    KeysFitIn(cfg, s);
    var v := |s.db.vaults|;
    TakenExactlyWhenOpen(s.db.outbox, VaultCreate, v);
    forall i | 0 <= i < |s.db.outbox| ensures !Open(s.db.outbox[i], VaultCreate, v) {
      AboutOwned(s.db, i);
    }
  }

  lemma AboutOwned(db: Db, i: nat)
    requires OwnershipInv(db) && i < |db.outbox|
    ensures db.outbox[i].kind == VaultCreate ==> db.outbox[i].aggregateId < |db.vaults|
    ensures db.outbox[i].kind == LoanBrokerSet ==> db.outbox[i].aggregateId < |db.brokers|
  {
    assert RowOwned(db, db.outbox[i]);
  }

  /** A deposit is accepted exactly into a vault the ledger knows, from an account without a deposit there still open. */
  lemma DepositsAccepted(cfg: Config, s: Sys, v: nat, account: string, actor: Actor)
    requires Reachable(cfg, s)
    ensures Handle(s.db, Deposit(v, account, actor)).1
         == if v >= |s.db.vaults| then Refused(VaultNotFound)
            else if !Assigned(s.db.vaults[v].xrplVaultId) then Refused(VaultNotReady)
            else if account == "" then Refused(BadAddress)
            else if exists i | 0 <= i < |s.db.outbox| :: Open(s.db.outbox[i], VaultDeposit, v) && s.db.outbox[i].tx.account == account
            then Refused(DuplicateOutbox)
            else Accepted
  {
    hide Reachable, KeyTaken, SodInv, OwnershipInv, Ready, Open;
    KeysFitIn(cfg, s);
    hide KeysFit;
    DepositTaken(s.db.outbox, v, account);
    if v < |s.db.vaults| { AssignedIsReady(s.db.vaults[v].xrplVaultId); }
  }

  /** A vault the ledger knows has an owner address. */
  lemma KnownVaultsAreOwned(db: Db, labels: seq<Label>, cfg: Config, v: nat)
    requires db == Run(cfg, labels).db && v < |db.vaults| && Truthy(db.vaults[v].xrplVaultId)
    ensures db.vaults[v].ownerAddress != ""
  {
    hide Run;
    OwnersHold(cfg, labels);
  }

  /** Without an owner address a vault has no row, so the ledger never gets to know it. */
  ghost predicate OwnersInv(db: Db) {
    && (forall v: nat | v < |db.vaults| && db.vaults[v].ownerAddress == "" :: !Truthy(db.vaults[v].xrplVaultId))
    && (forall i | 0 <= i < |db.outbox| && db.outbox[i].kind == VaultCreate :: db.outbox[i].tx.account != "")
  }

  lemma OwnersAfterCall(db: Db, call: Call)
    requires OwnersInv(db)
    ensures OwnersInv(Handle(db, call).0)
  {
    hide ViolatesSod, Rejects, MayCounterSign, FindLoanSet, FindParty;
    HandleChanges(db, call);
    var c, t := ChangeOf(db, call), Handle(db, call).0;
    forall i | 0 <= i < |t.outbox| && t.outbox[i].kind == VaultCreate ensures t.outbox[i].tx.account != "" {
      if i < |db.outbox| {
        assert db.outbox[i].kind == VaultCreate && t.outbox[i].tx == db.outbox[i].tx;
      }
    }
  }

  lemma OwnersAfterEnrichment(db: Db, row: Row)
    requires OwnersInv(db) && RowOwned(db, row) && (row.kind == VaultCreate ==> row.tx.account != "")
    ensures OwnersInv(Enriched(db, row))
  {
    hide CreatedIds;
  }

  lemma OwnersNext(cfg: Config, s: Sys, l: Label)
    requires ControlInv(s) && OwnershipInv(s.db) && OwnersInv(s.db)
    ensures OwnersInv(Next(cfg, s, l).db)
  {
    hide ControlInv, OwnersInv, Handle;
    match l
    case Api(call) => OwnersAfterCall(s.db, call);
    case _ =>
      hide Next;
      OwnersWorker(cfg, s, l);
  }

  lemma OwnersWorker(cfg: Config, s: Sys, l: Label)
    requires ControlInv(s) && OwnershipInv(s.db) && OwnersInv(s.db) && !l.Api?
    ensures OwnersInv(Next(cfg, s, l).db)
  {
    hide Next, Enriched, RowOwned, ControlInv;
    var t := Next(cfg, s, l);
    WorkerKeepsRecords(cfg, s, l);
    WorkerStepMoves(cfg, s, l);
    if Enriching(s, l) {
      OwnersAfterEnrichment(s.db, s.db.outbox[l.id]);
    } else {
      forall i | 0 <= i < |t.db.outbox| && t.db.outbox[i].kind == VaultCreate ensures t.db.outbox[i].tx.account != "" {
        assert WorkerMoves(s.db.outbox[i], t.db.outbox[i]);
      }
    }
  }

  lemma {:induction false} OwnersHold(cfg: Config, labels: seq<Label>)
    ensures OwnersInv(Run(cfg, labels).db)
  {
    hide Next, OwnershipInv, ControlInv;
    if labels != [] {
      var front := labels[..|labels| - 1];
      OwnersHold(cfg, front);
      ControlHolds(cfg, front);
      OwnershipHolds(cfg, front);
      OwnersNext(cfg, Run(cfg, front), labels[|labels| - 1]);
    }
  }

  lemma KnownVaultHasOwner(cfg: Config, s: Sys, v: nat)
    requires Reachable(cfg, s) && v < |s.db.vaults| && Assigned(s.db.vaults[v].xrplVaultId)
    ensures s.db.vaults[v].ownerAddress != ""
  {
    hide Run, Reachable;
    var labels := ReachedBy(cfg, s);
    KnownVaultsAreOwned(s.db, labels, cfg, v);
  }

  /** A broker is accepted exactly for a vault the ledger knows, from its owner. */
  lemma BrokersAccepted(cfg: Config, s: Sys, v: nat, owner: string, actor: Actor)
    requires Reachable(cfg, s)
    ensures Handle(s.db, CreateLoanBroker(v, owner, actor)).1
         == if v >= |s.db.vaults| then Refused(VaultNotFound)
            else if !Assigned(s.db.vaults[v].xrplVaultId) then Refused(VaultNotReady)
            else if s.db.vaults[v].ownerAddress != owner then Refused(OwnerMismatch)
            else Accepted
  {
    hide Reachable, KeyTaken, RowOwned, SodInv, Ready;
    KeysFitIn(cfg, s);
    var b := |s.db.brokers|;
    TakenExactlyWhenOpen(s.db.outbox, LoanBrokerSet, b);
    forall i | 0 <= i < |s.db.outbox| ensures !Open(s.db.outbox[i], LoanBrokerSet, b) {
      AboutOwned(s.db, i);
    }
    if v < |s.db.vaults| {
      AssignedIsReady(s.db.vaults[v].xrplVaultId);
      if Assigned(s.db.vaults[v].xrplVaultId) { KnownVaultHasOwner(cfg, s, v); }
    }
  }

  /** Collateral is accepted exactly for a broker the ledger knows, once at an instant while the deposit is open. */
  lemma CollateralAccepted(cfg: Config, s: Sys, b: nat, now: int, actor: Actor)
    requires Reachable(cfg, s)
    ensures Handle(s.db, DepositCollateral(b, now, actor)).1
         == if b >= |s.db.brokers| then Refused(LoanBrokerNotFound)
            else if !Assigned(s.db.brokers[b].xrplLoanBrokerId) then Refused(LoanBrokerNotReady)
            else if s.db.brokers[b].ownerAddress == "" then Refused(BadAddress)
            else if exists i | 0 <= i < |s.db.outbox| ::
                      Open(s.db.outbox[i], CollateralDeposit, b) && s.db.outbox[i].dedupeKey == Some(CollateralKey(b, now))
            then Refused(DuplicateOutbox)
            else Accepted
  {
    hide Reachable, KeyTaken, SodInv, OwnershipInv, Ready, Open;
    KeysFitIn(cfg, s);
    hide KeysFit;
    CollateralTaken(s.db.outbox, b, now);
    if b < |s.db.brokers| { AssignedIsReady(s.db.brokers[b].xrplLoanBrokerId); }
  }

  /** A user with a non-empty sub who approved the loan. */
  ghost predicate IsApprover(db: Db, k: nat, actor: Actor) { Truthy(actor) && ApprovedBy(db.evidence, k, actor.value) }

  /**
   * A loan is prepared for signing exactly by somebody who did not approve it, with a broker the ledger knows, two
   * addresses, and no LoanSet of it still open.
   */
  lemma PreparationsAccepted(cfg: Config, s: Sys, k: nat, actor: Actor)
    requires Reachable(cfg, s)
    ensures Handle(s.db, PrepareCosignPacket(k, actor)).1
         == if k >= |s.db.loans| then Refused(LoanNotFound)
            else if IsApprover(s.db, k, actor) then Refused(SodViolation)
            else if s.db.loans[k].loanBrokerId >= |s.db.brokers| then Refused(LoanBrokerNotFound)
            else
              var broker := s.db.brokers[s.db.loans[k].loanBrokerId];
              if !Assigned(broker.xrplLoanBrokerId) then Refused(LoanBrokerNotReady)
              else if broker.ownerAddress == "" || s.db.loans[k].borrowerAddress == "" then Refused(BadAddress)
              else if HasOpen(s.db.outbox, LoanSet, k) then Refused(DuplicateOutbox)
              else Accepted
  {
    hide Reachable, KeyTaken, HasOpen, OwnershipInv, Ready, ViolatesSod, ApprovedBy, Truthy;
    KeysFitIn(cfg, s);
    hide KeysFit;
    ScanFindsApprovals(s.db.evidence, |s.db.loans|, k, actor);
    TakenExactlyWhenOpen(s.db.outbox, LoanSet, k);
    if k < |s.db.loans| && s.db.loans[k].loanBrokerId < |s.db.brokers| {
      AssignedIsReady(s.db.brokers[s.db.loans[k].loanBrokerId].xrplLoanBrokerId);
    }
  }

  ghost predicate HasLoanSetIn(outbox: seq<Row>, k: nat, statuses: set<Status>) {
    exists i | 0 <= i < |outbox| :: outbox[i].kind == LoanSet && outbox[i].aggregateId == k && outbox[i].status in statuses
  }

  lemma FoundExactlyWhen(outbox: seq<Row>, k: nat, a: Status, b: Status)
    requires KeysFit(outbox)
    ensures FindLoanSet(outbox, k, a, b, 0).Some? <==> HasLoanSetIn(outbox, k, {a, b})
  {
    forall i | 0 <= i < |outbox|
      ensures IsLoanSetIn(outbox[i], k, a, b)
              <==> outbox[i].kind == LoanSet && outbox[i].aggregateId == k && outbox[i].status in {a, b}
    {
      assert KeyFits(outbox[i]);
    }
  }

  /** The broker's signature is accepted exactly for a loan prepared for signing that has an unsigned LoanSet, from somebody who did not approve it. */
  lemma BrokerSignaturesAccepted(cfg: Config, s: Sys, k: nat, blob: Option<string>, hash: Option<string>, actor: Actor)
    requires Reachable(cfg, s)
    ensures Handle(s.db, RecordBrokerSignature(k, blob, hash, actor)).1
         == if k >= |s.db.loans| then Refused(LoanNotFound)
            else if s.db.loans[k].status != CosignPending then Refused(InvalidState)
            else if IsApprover(s.db, k, actor) then Refused(SodViolation)
            else if !HasLoanSetIn(s.db.outbox, k, {Pending, Processing}) then Refused(NoPendingOutbox)
            else Accepted
  {
    hide Reachable, HasLoanSetIn, OwnershipInv, ViolatesSod, ApprovedBy, Truthy, FindLoanSet;
    KeysFitIn(cfg, s);
    hide KeysFit;
    ScanFindsApprovals(s.db.evidence, |s.db.loans|, k, actor);
    FoundExactlyWhen(s.db.outbox, k, Pending, Processing);
  }

  /** The borrower's is accepted exactly for a loan whose LoanSet the broker signed, from its borrower or no user. */
  lemma BorrowerSignaturesAccepted(cfg: Config, s: Sys, k: nat, blob: Option<string>, actor: Actor)
    requires Reachable(cfg, s)
    ensures Handle(s.db, RecordBorrowerSignature(k, blob, actor)).1
         == if k >= |s.db.loans| then Refused(LoanNotFound)
            else if actor.Some? && actor.value != "" && !IsBorrower(s.db, k, actor.value) then Refused(BorrowerIdentityMismatch)
            else if !HasLoanSetIn(s.db.outbox, k, {Signed1}) then Refused(NoBrokerSignedOutbox)
            else Accepted
  {
    hide Reachable, HasLoanSetIn, OwnershipInv, SodInv, IsBorrower, MayCounterSign, FindLoanSet;
    KeysFitIn(cfg, s);
    hide KeysFit;
    if k < |s.db.loans| { MayCounterSignExactly(s.db, k, actor); }
    FoundExactlyWhen(s.db.outbox, k, Signed1, Signed1);
    assert {Signed1, Signed1} == {Signed1};
  }

  // ---------- what a call leaves ----------

  /** In every state of every run a refused call changes nothing, but for a vault without an address, which stays queued without a row. */
  lemma RefusedChangesNothing(cfg: Config, s: Sys, call: Call)
    requires Reachable(cfg, s) && Handle(s.db, call).1 != Accepted
    ensures Handle(s.db, call).0
         == if call.CreateVault? then s.db.(vaults := s.db.vaults + [Vault(None, "", VaultQueued)]) else s.db
  {
    hide Reachable, ViolatesSod, Rejects, MayCounterSign, FindLoanSet, FindParty, Ready;
    match call
    case CreateVault(owner, actor) => VaultsAccepted(cfg, s, owner, actor);
    case CreateLoanBroker(v, owner, actor) =>
      BrokersAccepted(cfg, s, v, owner, actor);
      if v < |s.db.vaults| { AssignedIsReady(s.db.vaults[v].xrplVaultId); }
    case _ =>
  }

  /** The event an accepted call logs: whom and what it is about, who made it, what was done, and the row it is about. */
  ghost function EventOf(db: Db, call: Call): Note {
    match call
    case CreateVault(_, actor) => Note(VaultAggregate, |db.vaults|, actor, None, None)
    case Deposit(v, _, actor) => Note(VaultAggregate, v, actor, None, None)
    case CreateLoanBroker(_, _, actor) => Note(BrokerAggregate, |db.brokers|, actor, None, None)
    case DepositCollateral(b, _, actor) => Note(BrokerAggregate, b, actor, Some("collateral_deposit"), None)
    case CreateLoan(_, _, _, actor) => Note(LoanAggregate, |db.loans|, actor, Some("loan_approve"), None)
    case PrepareCosignPacket(k, actor) => Note(LoanAggregate, k, actor, Some("prepare_cosign"), Some(|db.outbox|))
    case RecordBrokerSignature(k, _, _, actor) =>
      Note(LoanAggregate, k, actor, Some("broker_sign"), FindLoanSet(db.outbox, k, Pending, Processing, 0))
    case RecordBorrowerSignature(k, _, actor) =>
      Note(LoanAggregate, k, actor, Some("borrower_sign"), FindLoanSet(db.outbox, k, Signed1, Signed1, 0))
    case CreateBorrower(_, _, actor) => Note(BorrowerAggregate, |db.parties|, actor, Some("borrower_create"), None)
    case LinkAuthUser(id, _, actor) => Note(BorrowerAggregate, match FindParty(db.parties, id, 0) case Some(p) => p case None => 0,
                                            actor, Some("link_auth_user"), None)
  }

  /** An accepted call is logged by one event, and none is logged for a refused one. */
  lemma CallsAreLogged(db: Db, call: Call)
    ensures var (t, reply) := Handle(db, call);
            t.evidence == if reply == Accepted then db.evidence + [EventOf(db, call)] else db.evidence
  {
    hide ViolatesSod, Rejects, MayCounterSign, FindLoanSet, FindParty, Ready;
  }

  /** The first LoanSet of the loan in one of the states; keys make it the only one. */
  ghost predicate FirstLoanSetIn(outbox: seq<Row>, k: nat, statuses: set<Status>, i: nat) {
    && i < |outbox| && outbox[i].kind == LoanSet && outbox[i].aggregateId == k && outbox[i].status in statuses
    && forall j: nat | j < i :: !(outbox[j].kind == LoanSet && outbox[j].aggregateId == k && outbox[j].status in statuses)
  }

  lemma FoundIsFirst(outbox: seq<Row>, k: nat, a: Status, b: Status)
    requires KeysFit(outbox) && FindLoanSet(outbox, k, a, b, 0).Some?
    ensures FirstLoanSetIn(outbox, k, {a, b}, FindLoanSet(outbox, k, a, b, 0).value)
  {
    forall i | 0 <= i < |outbox|
      ensures IsLoanSetIn(outbox[i], k, a, b)
              <==> outbox[i].kind == LoanSet && outbox[i].aggregateId == k && outbox[i].status in {a, b}
    {
      assert KeyFits(outbox[i]);
    }
  }

  /** An accepted signature of the broker goes to one row and leaves it signed once, with the blob and hash given; nothing else changes but the log. */
  lemma BrokerSignatureLeaves(cfg: Config, s: Sys, k: nat, blob: Option<string>, hash: Option<string>, actor: Actor) returns (i: nat)
    requires Reachable(cfg, s) && Handle(s.db, RecordBrokerSignature(k, blob, hash, actor)).1 == Accepted
    ensures FirstLoanSetIn(s.db.outbox, k, {Pending, Processing}, i)
    ensures var t, row := Handle(s.db, RecordBrokerSignature(k, blob, hash, actor)).0, s.db.outbox[i];
            var signed := row.(status := Signed1, txHash := hash, meta := row.meta.(brokerSigned := true, brokerBlob := blob));
            t == s.db.(outbox := s.db.outbox[i := signed],
                       evidence := s.db.evidence + [Note(LoanAggregate, k, actor, Some("broker_sign"), Some(i))])
  {
    hide Reachable, ViolatesSod, OwnershipInv, SodInv, KeysFit, FirstLoanSetIn, FindLoanSet;
    KeysFitIn(cfg, s);
    i := FindLoanSet(s.db.outbox, k, Pending, Processing, 0).value;
    FoundIsFirst(s.db.outbox, k, Pending, Processing);
    InOutbox(s.db.outbox, k, {Pending, Processing}, i);
  }

  /** An accepted counter-signature goes to one row and leaves it signed twice, with the blob given; nothing else changes but the log. */
  lemma BorrowerSignatureLeaves(cfg: Config, s: Sys, k: nat, blob: Option<string>, actor: Actor) returns (i: nat)
    requires Reachable(cfg, s) && Handle(s.db, RecordBorrowerSignature(k, blob, actor)).1 == Accepted
    ensures FirstLoanSetIn(s.db.outbox, k, {Signed1}, i)
    ensures var t, row := Handle(s.db, RecordBorrowerSignature(k, blob, actor)).0, s.db.outbox[i];
            var signed := row.(status := Signed2, meta := row.meta.(counterpartySigned := true, counterpartyBlob := blob));
            t == s.db.(outbox := s.db.outbox[i := signed],
                       evidence := s.db.evidence + [Note(LoanAggregate, k, actor, Some("borrower_sign"), Some(i))])
  {
    hide Reachable, MayCounterSign, OwnershipInv, SodInv, KeysFit, FirstLoanSetIn, FindLoanSet;
    KeysFitIn(cfg, s);
    i := FindLoanSet(s.db.outbox, k, Signed1, Signed1, 0).value;
    FoundIsFirst(s.db.outbox, k, Signed1, Signed1);
    assert {Signed1, Signed1} == {Signed1};
    InOutbox(s.db.outbox, k, {Signed1}, i);
  }

  lemma InOutbox(outbox: seq<Row>, k: nat, statuses: set<Status>, i: nat)
    requires FirstLoanSetIn(outbox, k, statuses, i)
    ensures i < |outbox|
  {
  }

  /** What an accepted call that is no signature leaves: its row if it asks for a transaction, its record if it makes one, and its event. */
  lemma AcceptedLeaves(db: Db, call: Call)
    requires Handle(db, call).1 == Accepted && !call.RecordBrokerSignature? && !call.RecordBorrowerSignature? && !call.LinkAuthUser?
    ensures var t := Handle(db, call).0;
            && t.vaults == (if call.CreateVault? then db.vaults + [Vault(None, call.owner, VaultQueued)] else db.vaults)
            && t.brokers == (if call.CreateLoanBroker? then db.brokers + [Broker(None, call.vaultId, call.owner, BrokerQueued)] else db.brokers)
            && t.parties == (if call.CreateBorrower? then db.parties + [Party(call.id, call.authUserId)] else db.parties)
            && |t.outbox| == |db.outbox| + (if call.CreateLoan? || call.CreateBorrower? then 0 else 1) && db.outbox <= t.outbox
            && (call.PrepareCosignPacket? ==>
                  call.loanId < |db.loans| && t.loans == db.loans[call.loanId := db.loans[call.loanId].(status := CosignPending)])
            && (call.CreateLoan? ==>
                  t.loans == db.loans + [Loan(None, None, call.brokerId, call.borrowerPartyId, call.borrowerAddress, LoanApproved)])
            && (!call.PrepareCosignPacket? && !call.CreateLoan? ==> t.loans == db.loans)
            && t.transactions == db.transactions
  {
    hide ViolatesSod, Rejects, MayCounterSign, FindLoanSet, FindParty, Ready;
  }

  /** Linking a user succeeds exactly when some party has the id, and links the first that has it and no other. */
  lemma LinksTheFirst(db: Db, id: string, user: Option<string>, actor: Actor)
    ensures var (t, reply) := Handle(db, LinkAuthUser(id, user, actor));
            && (reply == Accepted <==> exists p | 0 <= p < |db.parties| :: db.parties[p].id == id)
            && |t.parties| == |db.parties|
            && forall p: nat | p < |db.parties| ::
                 t.parties[p] == if db.parties[p].id == id && (forall q: nat | q < p :: db.parties[q].id != id)
                                 then Party(id, user) else db.parties[p]
  {
    FirstPartyFound(db.parties, id, 0);
    hide FindParty;
  }

  lemma {:induction false} FirstPartyFound(parties: seq<Party>, id: string, from: nat)
    requires from <= |parties| && forall q: nat | q < from :: parties[q].id != id
    ensures var r := FindParty(parties, id, from);
            if r.Some? then r.value < |parties| && parties[r.value].id == id && forall q: nat | q < r.value :: parties[q].id != id
            else forall q: nat | q < |parties| :: parties[q].id != id
    decreases |parties| - from
  {
    if from < |parties| && parties[from].id != id { FirstPartyFound(parties, id, from + 1); }
  }

  // ---------- a loan before it is prepared ----------

  ghost predicate HasLoanSet(outbox: seq<Row>, k: nat) {
    exists i | 0 <= i < |outbox| :: outbox[i].kind == LoanSet && outbox[i].aggregateId == k
  }

  ghost predicate LoansInv(db: Db) {
    forall k: nat | k < |db.loans| :: db.loans[k].status == LoanApproved <==> !HasLoanSet(db.outbox, k)
  }

  lemma LoansAfterCall(db: Db, call: Call, k: nat)
    requires OwnershipInv(db) && LoansInv(db) && k < |Handle(db, call).0.loans|
    ensures Handle(db, call).0.loans[k].status == LoanApproved <==> !HasLoanSet(Handle(db, call).0.outbox, k)
  {
    hide ViolatesSod, Rejects, MayCounterSign, FindLoanSet, FindParty, OwnershipInv, HasLoanSet;
    HandleChanges(db, call);
    LoanSetsAfter(db.outbox, ChangeOf(db, call), k);
    if k >= |db.loans| && HasLoanSet(db.outbox, k) { NoRowOfUnknownLoan(db, k); }
  }

  lemma NoRowOfUnknownLoan(db: Db, k: nat)
    requires OwnershipInv(db) && HasLoanSet(db.outbox, k)
    ensures k < |db.loans|
  {
    var i :| 0 <= i < |db.outbox| && db.outbox[i].kind == LoanSet && db.outbox[i].aggregateId == k;
    assert RowOwned(db, db.outbox[i]);
  }

  lemma LoanSetsAfter(outbox: seq<Row>, c: Change, k: nat)
    requires Enabled(outbox, c)
    ensures HasLoanSet(Changed(outbox, c), k)
            <==> HasLoanSet(outbox, k) || (c.Added? && c.input.kind == LoanSet && c.input.aggregateId == k)
  {
    var after := Changed(outbox, c);
    forall i | 0 <= i < |outbox| ensures after[i].kind == outbox[i].kind && after[i].aggregateId == outbox[i].aggregateId {}
    if c.Added? { assert after[|outbox|] == NewRow(c.input); }
  }

  lemma LoansNext(cfg: Config, s: Sys, l: Label)
    requires ControlInv(s) && OwnershipInv(s.db) && LoansInv(s.db)
    ensures LoansInv(Next(cfg, s, l).db)
  {
    hide ControlInv, OwnershipInv, Handle, HasLoanSet;
    match l
    case Api(call) =>
      forall k: nat | k < |Handle(s.db, call).0.loans|
        ensures Handle(s.db, call).0.loans[k].status == LoanApproved <==> !HasLoanSet(Handle(s.db, call).0.outbox, k)
      {
        LoansAfterCall(s.db, call, k);
      }
    case _ =>
      hide Next;
      LoansWorker(cfg, s, l);
  }

  lemma LoansWorker(cfg: Config, s: Sys, l: Label)
    requires ControlInv(s) && LoansInv(s.db) && !l.Api?
    ensures LoansInv(Next(cfg, s, l).db)
  {
    hide Next, Enriched, HasLoanSet, ControlInv;
    var t := Next(cfg, s, l);
    WorkerKeepsRecords(cfg, s, l);
    WorkerStepMoves(cfg, s, l);
    forall k: nat ensures HasLoanSet(t.db.outbox, k) <==> HasLoanSet(s.db.outbox, k) { SameLoanSets(s.db.outbox, t.db.outbox, k); }
    if Enriching(s, l) {
      EnrichedLoans(s.db, s.db.outbox[l.id]);
      if s.db.outbox[l.id].kind == LoanSet { IsOne(s.db.outbox, l.id); }
    }
  }

  lemma SameLoanSets(before: seq<Row>, after: seq<Row>, k: nat)
    requires |after| == |before| && forall i: nat | i < |before| :: WorkerMoves(before[i], after[i])
    ensures HasLoanSet(after, k) <==> HasLoanSet(before, k)
  {
    forall i: nat | i < |before| ensures after[i].kind == before[i].kind && after[i].aggregateId == before[i].aggregateId {
      assert WorkerMoves(before[i], after[i]);
    }
  }

  lemma IsOne(outbox: seq<Row>, i: nat)
    requires i < |outbox| && outbox[i].kind == LoanSet
    ensures HasLoanSet(outbox, outbox[i].aggregateId)
  {
  }

  lemma EnrichedLoans(db: Db, row: Row)
    ensures |Enriched(db, row).loans| == |db.loans|
    ensures forall k: nat | k < |db.loans| ::
              Enriched(db, row).loans[k].status == db.loans[k].status
              || (row.kind == LoanSet && row.aggregateId == k && Enriched(db, row).loans[k].status == LoanActive)
  {
    hide CreatedIds;
  }

  lemma {:induction false} LoansHold(cfg: Config, labels: seq<Label>)
    ensures LoansInv(Run(cfg, labels).db)
  {
    hide Next, OwnershipInv, ControlInv, HasLoanSet;
    if labels != [] {
      var front := labels[..|labels| - 1];
      LoansHold(cfg, front);
      ControlHolds(cfg, front);
      OwnershipHolds(cfg, front);
      LoansNext(cfg, Run(cfg, front), labels[|labels| - 1]);
    }
  }

  /** In every state of every run a loan is just approved exactly as long as no LoanSet of it has been asked for. */
  lemma ApprovedUntilPrepared(cfg: Config, s: Sys, k: nat)
    requires Reachable(cfg, s) && k < |s.db.loans|
    ensures s.db.loans[k].status == LoanApproved
            <==> forall i | 0 <= i < |s.db.outbox| :: !(s.db.outbox[i].kind == LoanSet && s.db.outbox[i].aggregateId == k)
  {
    hide Run, Reachable;
    var labels := ReachedBy(cfg, s);
    LoansHold(cfg, labels);
  }
}
