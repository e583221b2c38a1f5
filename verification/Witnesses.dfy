/** Concrete reachable states, where a result needs its condition or would hold of nothing. */
module Witnesses {
  import opened Options
  import opened SharedTypes
  import opened OutboxDb
  import opened Classify
  import opened Protocol
  import opened TxExecutor
  import opened LedgerWorker
  import opened Reachability
  import opened ActiveLoans
  import opened SeparationOfDuties
  import opened ServiceCalls
  import opened RowEffects
  import LedgerState
  import SequenceLease

  const OURS := Config(true, false, 1)

  /** A validated success that created one object. */
  function Created(entryType: string, index: Option<string>, loanSeq: Option<int>): TxResult {
    var node := LedgerState.NodeBody(Some(entryType), index, None, Some(LedgerState.Fields(None, loanSeq)));
    TxResult(true, None, Some(TxMeta(Some("tesSUCCESS"), [LedgerState.AffectedItem(Some(node), None, None)])))
  }

  lemma CreatedIdsOf(entryType: string, index: Option<string>, loanSeq: Option<int>)
    requires entryType in {"Vault", "LoanBroker", "Loan"}
    ensures CreatedIds(Some(Created(entryType, index, loanSeq)))
         == LedgerState.Ids(if entryType == "Vault" then index else None, if entryType == "LoanBroker" then index else None,
                            if entryType == "Loan" then index else None, if entryType == "Loan" then loanSeq else None)
  {
    var items := Created(entryType, index, loanSeq).meta.value.items;
    var nodes := LedgerState.NormalizeAffectedNodes(items);
    assert LedgerState.NormalizeAffectedNodes(items[1..]) == [];
    assert nodes == [LedgerState.Node(LedgerState.Created, Some(entryType), index, Some(LedgerState.Fields(None, loanSeq)))];
    LedgerState.PickStep(nodes, 0, LedgerState.Vault);
    LedgerState.PickStep(nodes, 0, LedgerState.LoanBroker);
    LedgerState.PickStep(nodes, 0, LedgerState.Loan);
    LedgerState.NothingPicked();
    assert nodes[..0] == [] && nodes[..1] == nodes;
    assert |"Vault"| == 5 && |"LoanBroker"| == 10 && |"Loan"| == 4 && |"LoanManager"| == 11;
  }

  // ---------- up to a prepared loan ----------

  predicate VaultAsked(db: Db) {
    && db.vaults == [Vault(None, "r", VaultQueued)] && db.brokers == [] && db.loans == []
    && |db.outbox| == 1 && db.outbox[0].status == Pending && db.outbox[0].kind == VaultCreate && db.outbox[0].aggregateId == 0
    && db.outbox[0].dedupeKey == Some(VaultCreateKey(0)) && db.outbox[0].tx.account == "r"
  }

  predicate HasVault(db: Db) {
    && db.vaults == [Vault(Some("V"), "r", VaultActive)] && db.brokers == [] && db.loans == []
    && |db.outbox| == 1 && db.outbox[0].status == Validated && db.outbox[0].kind == VaultCreate && db.outbox[0].aggregateId == 0
    && db.outbox[0].dedupeKey == Some(VaultCreateKey(0)) && db.outbox[0].txResult == Some(Created("Vault", Some("V"), None))
  }

  predicate BrokerAsked(db: Db) {
    && db.brokers == [Broker(None, 0, "r", BrokerQueued)] && db.loans == []
    && |db.outbox| == 2 && db.outbox[0].status == Validated && db.outbox[0].kind == VaultCreate
    && db.outbox[1].status == Pending && db.outbox[1].kind == LoanBrokerSet && db.outbox[1].aggregateId == 0
    && db.outbox[0].dedupeKey == Some(VaultCreateKey(0)) && db.outbox[1].dedupeKey == Some(BrokerSetKey(0))
  }

  predicate HasBroker(db: Db) {
    && db.brokers == [Broker(Some("B"), 0, "r", BrokerActive)] && db.loans == []
    && |db.outbox| == 2 && forall i | 0 <= i < 2 ::
         db.outbox[i].status == Validated && db.outbox[i].kind != LoanSet && db.outbox[i].dedupeKey != Some(LoanSetKey(0))
  }

  /** A prepared loan whose LoanSet row is the last row and the only one without a result. */
  predicate LoanSetWaits(db: Db, status: Status) {
    && |db.brokers| == 1 && db.brokers[0].ownerAddress == "r" && db.brokers[0].xrplLoanBrokerId == Some("B")
    && |db.loans| == 1 && db.loans[0].loanBrokerId == 0 && db.loans[0].borrowerAddress == "b"
    && db.loans[0].status == CosignPending
    && |db.outbox| == 3 && db.outbox[2].status == status
    && db.outbox[2].kind == LoanSet && db.outbox[2].aggregate == LoanAggregate && db.outbox[2].aggregateId == 0
    && db.outbox[2].dedupeKey == Some(LoanSetKey(0))
    && forall i | 0 <= i < 2 ::
         db.outbox[i].status == Validated && db.outbox[i].kind != LoanSet && db.outbox[i].dedupeKey != Some(LoanSetKey(0))
  }

  lemma AskForVault() returns (s: Sys)
    ensures Reachable(OURS, s) && s.worker.Idle? && s.ops == [] && s.wire == [] && VaultAsked(s.db)
  {
    hide Reachable, Next;
    StartIsReachable(OURS);
    s := AfterCall(OURS, START, CreateVault("r", None));
  }

  lemma MakeVault() returns (s: Sys)
    ensures Reachable(OURS, s) && s.worker.Idle? && HasVault(s.db)
  {
    hide Reachable, CreatedIds;
    var asked := AskForVault();
    CreatedIdsOf("Vault", Some("V"), None);
    s := AfterSuccess(OURS, asked, 0, Created("Vault", Some("V"), None));
  }

  lemma BrokerCall(db: Db)
    requires HasVault(db)
    ensures BrokerAsked(Handle(db, CreateLoanBroker(0, "r", None)).0)
  {
    assert "V"[0] != "UNSET"[0];
  }

  lemma MakeBroker() returns (s: Sys)
    ensures Reachable(OURS, s) && s.worker.Idle? && HasBroker(s.db)
  {
    hide Reachable, CreatedIds, Handle;
    var v := MakeVault();
    var asked := AfterCall(OURS, v, CreateLoanBroker(0, "r", None));
    BrokerCall(v.db);
    hide HasVault;
    CreatedIdsOf("LoanBroker", Some("B"), None);
    s := AfterSuccess(OURS, asked, 1, Created("LoanBroker", Some("B"), None));
  }

  lemma LoanCalls(db: Db, approver: Actor, submitter: Actor)
    requires HasBroker(db) && !Truthy(submitter)
    ensures var approved := Handle(db, CreateLoan(0, "b", None, approver)).0;
            var prepared := Handle(approved, PrepareCosignPacket(0, submitter)).0;
            && LoanSetWaits(prepared, Pending)
            && prepared.evidence == db.evidence + [Note(LoanAggregate, 0, approver, Some("loan_approve"), None)]
                                    + [Note(LoanAggregate, 0, submitter, Some("prepare_cosign"), Some(2))]
  {
    assert "B"[0] != "UNSET"[0];
  }

  lemma PrepareLoan(approver: Actor, submitter: Actor) returns (s: Sys)
    requires !Truthy(submitter)
    ensures Reachable(OURS, s) && s.worker.Idle? && LoanSetWaits(s.db, Pending)
    ensures |s.db.evidence| >= 2
            && s.db.evidence[|s.db.evidence| - 2] == Note(LoanAggregate, 0, approver, Some("loan_approve"), None)
            && s.db.evidence[|s.db.evidence| - 1] == Note(LoanAggregate, 0, submitter, Some("prepare_cosign"), Some(2))
  {
    hide Reachable, Handle, HasBroker;
    var b := MakeBroker();
    var a := AfterCall(OURS, b, CreateLoan(0, "b", None, approver));
    s := AfterCall(OURS, a, PrepareCosignPacket(0, submitter));
    LoanCalls(b.db, approver, submitter);
  }

  // ---------- separation of duties ----------

  /** The check lets an actor without a proper sub through: it approved the loan and prepares it all the same. */
  lemma EmptySubEscapes()
    ensures exists cfg: Config, s: Sys ::
              Reachable(cfg, s) && ApprovedBy(s.db.evidence, 0, "") && SubmittedBy(s.db.evidence, 0, "")
  {
    hide Reachable, LoanSetWaits;
    var s := PrepareLoan(Some(""), Some(""));
    var log := s.db.evidence;
    assert Approves(log[|log| - 2], 0, "") && Submits(log[|log| - 1], 0, "");
    assert ApprovedBy(log, 0, "") && SubmittedBy(log, 0, "");
  }

  // ---------- a cosigned loan ----------

  lemma BothSign(db: Db)
    requires LoanSetWaits(db, Pending)
    ensures var once := Handle(db, RecordBrokerSignature(0, Some("X"), None, None)).0;
            var twice := Handle(once, RecordBorrowerSignature(0, Some("Y"), None)).0;
            && LoanSetWaits(twice, Signed2) && HasBlob(twice.outbox[2])
            && twice.outbox[2].meta.brokerSigned && twice.outbox[2].meta.counterpartySigned
  {
    assert FindLoanSet(db.outbox, 0, Pending, Processing, 2) == Some(2);
    assert FindLoanSet(db.outbox, 0, Pending, Processing, 1) == Some(2);
    assert FindLoanSet(db.outbox, 0, Pending, Processing, 0) == Some(2);
    var once := Handle(db, RecordBrokerSignature(0, Some("X"), None, None)).0;
    assert LoanSetWaits(once, Signed1);
    assert FindLoanSet(once.outbox, 0, Signed1, Signed1, 2) == Some(2);
    assert FindLoanSet(once.outbox, 0, Signed1, Signed1, 1) == Some(2);
    assert FindLoanSet(once.outbox, 0, Signed1, Signed1, 0) == Some(2);
  }

  lemma CosignLoan() returns (s: Sys)
    ensures Reachable(OURS, s) && s.worker.Idle? && LoanSetWaits(s.db, Signed2) && HasBlob(s.db.outbox[2])
    ensures s.db.outbox[2].meta.brokerSigned && s.db.outbox[2].meta.counterpartySigned
  {
    hide Reachable, Handle, HasBlob;
    var p := PrepareLoan(None, None);
    var once := AfterCall(OURS, p, RecordBrokerSignature(0, Some("X"), None, None));
    s := AfterCall(OURS, once, RecordBorrowerSignature(0, Some("Y"), None));
    BothSign(p.db);
  }

  /** The blob path is taken: a row both parties signed comes to be sent as a blob, and to be validated. */
  lemma CosignedLoanSucceeds()
    ensures exists cfg: Config, s: Sys :: Reachable(cfg, s) && Holds(s, 2, BlobReady)
    ensures exists cfg: Config, s: Sys ::
              Reachable(cfg, s) && s.worker.Idle? && |s.db.outbox| == 3 && s.db.outbox[2].status == Validated
              && s.db.outbox[2].kind == LoanSet && s.db.outbox[2].meta.brokerSigned && s.db.outbox[2].meta.counterpartySigned
  {
    hide Reachable, Enriched;
    var s := CosignLoan();
    var r := Created("Loan", Some("L"), Some(1));
    SuccessIsReachable(OURS, s, 2, r);
    var t := AfterSuccess(OURS, s, 2, r);
  }

  // ---------- an active loan without an id ----------

  /** The ledger validates a LoanSet whose created node has a sequence and no index: the loan is active and has no id. */
  lemma ActiveLoanWithoutId()
    ensures exists cfg: Config, s: Sys :: Reachable(cfg, s) && s.worker.Idle? && ActiveWithoutId(s.db, 0)
  {
    hide Reachable, CreatedIds;
    var s := PrepareLoan(None, None);
    var r := Created("Loan", None, Some(1));
    CreatedIdsOf("Loan", None, Some(1));
    var t := AfterSuccess(OURS, s, 2, r);
    assert ActiveWithoutId(t.db, 0);
  }

  // ---------- two LoanSets of one loan ----------

  /** A LoanSet that went through: the broker and the loan are as they were, the row is validated. */
  predicate LoanSetDone(db: Db) {
    && |db.brokers| == 1 && db.brokers[0].ownerAddress == "r" && db.brokers[0].xrplLoanBrokerId == Some("B")
    && |db.loans| == 1 && db.loans[0].loanBrokerId == 0 && db.loans[0].borrowerAddress == "b"
    && |db.outbox| == 3 && (forall i | 0 <= i < 3 :: db.outbox[i].status == Validated)
    && db.outbox[2].dedupeKey == Some(LoanSetKey(0))
  }

  lemma FinishLoanSet() returns (s: Sys)
    ensures Reachable(OURS, s) && s.worker.Idle? && LoanSetDone(s.db)
  {
    hide Reachable, CreatedIds;
    var p := PrepareLoan(None, None);
    s := AfterSuccess(OURS, p, 2, Created("Loan", Some("L"), Some(1)));
  }

  lemma PrepareAgain(db: Db)
    requires LoanSetDone(db)
    ensures var t := Handle(db, PrepareCosignPacket(0, None)).0;
            && |t.outbox| == 4 && t.outbox[..3] == db.outbox && t.outbox[3].status == Pending
            && t.outbox[3].kind == LoanSet && t.outbox[3].dedupeKey == Some(LoanSetKey(0))
  {
    assert "B"[0] != "UNSET"[0];
  }

  /** A validated row does not keep its key: the loan is prepared again, and a second LoanSet of it is validated too. */
  lemma TwoLoanSetsOfOneLoan()
    ensures exists cfg: Config, s: Sys ::
              Reachable(cfg, s) && |s.db.outbox| == 4
              && forall i | 2 <= i < 4 :: s.db.outbox[i].status == Validated && s.db.outbox[i].dedupeKey == Some(LoanSetKey(0))
  {
    hide Reachable, Enriched, Handle;
    var t := FinishLoanSet();
    var u := AfterCall(OURS, t, PrepareCosignPacket(0, None));
    PrepareAgain(t.db);
    assert forall i | 0 <= i < 3 :: u.db.outbox[i] == u.db.outbox[..3][i];
    var r := Created("Loan", Some("L"), Some(1));
    var v := AfterSuccess(OURS, u, 3, r);
  }

  // ---------- an enrichment that is not silent ----------

  lemma DepositCall(db: Db)
    requires |db.vaults| == 1 && db.vaults[0].xrplVaultId == Some("V") && |db.outbox| == 1
    requires db.outbox[0].kind == VaultCreate && db.outbox[0].dedupeKey == Some(VaultCreateKey(0))
    ensures var t := Handle(db, Deposit(0, "d", None)).0;
            && t.vaults == db.vaults && |t.outbox| == 2 && t.outbox[0] == db.outbox[0]
            && t.outbox[1].status == Pending && t.outbox[1].kind == VaultDeposit && t.outbox[1].aggregateId == 0
  {
    assert "V"[0] != "UNSET"[0];
  }

  /** Its creation enriched and indexed, the vault awaits a deposit. */
  lemma AskForDeposit() returns (s: Sys)
    ensures Reachable(OURS, s) && s.worker.Idle? && |s.db.vaults| == 1 && |s.db.outbox| == 2
    ensures s.db.outbox[0].status == Indexed && s.db.outbox[0].kind == VaultCreate && s.db.outbox[0].aggregateId == 0
    ensures s.db.outbox[0].txResult == Some(Created("Vault", Some("V"), None))
    ensures s.db.outbox[1].status == Pending && s.db.outbox[1].kind == VaultDeposit && s.db.outbox[1].aggregateId == 0
  {
    hide Reachable, Handle, Next;
    var made := MakeVault();
    MarkStep(OURS, made, 0);
    var indexed := AfterStep(OURS, made, MarkIndexed(0));
    s := AfterCall(OURS, indexed, Deposit(0, "d", None));
    DepositCall(indexed.db);
  }

  /** Enriched from its deposit, a vault is funded; enriched once more from its indexed creation, it is only active again. */
  lemma EnrichmentTakesBack() returns (labels: seq<Label>, states: seq<Sys>, k: nat)
    ensures IsRun(OURS, labels, states) && k < |labels| && labels[k] == Enrich(0)
    ensures |states[k].db.outbox| == 2 && states[k].db.outbox[0].status == Indexed && states[k].db.outbox[0].kind == VaultCreate
    ensures |states[k].db.vaults| == 1 && states[k].db.vaults[0].status == VaultFunded
    ensures |states[k + 1].db.vaults| == 1 && states[k + 1].db.vaults[0].status == VaultActive
  {
    hide Reachable, CreatedIds, Next;
    var s := AskForDeposit();
    var u := AfterSuccess(OURS, s, 1, Created("Vault", None, None));
    CreatedIdsOf("Vault", Some("V"), None);
    EnrichStep(OURS, u, 0);
    labels, states, k := StepOfRun(OURS, u, Enrich(0));
  }

  // ---------- a sequence used twice ----------

  /** The ledger answers a sequence when asked, and then the request ends like this. */
  function Asked(sequence: int, reply: LedgerReply): Label { SignAndSend(Some(sequence), false, "H", reply, None) }

  /** An attempt that forgets the account's next sequence and is repeated. */
  lemma SendAndForget(cfg: Config, s: Sys, n: nat, sequence: int, reply: LedgerReply)
    requires Holds(s, 0, Attempt(n)) && s.db.outbox[0].tx.account == "r"
    requires !reply.NotSent? && Forgets(n, reply) && TriesAgain(n, reply)
    requires SequenceLease.Before(SequenceLease.MemoryDb, s.ops, |s.ops|) == map[]
    ensures Next(cfg, s, Asked(sequence, reply))
         == s.(worker := At(s.worker, Attempt(n + 1)), wire := s.wire + [Signed(0, "r", sequence, |s.ops|)],
               ops := s.ops + [SequenceLease.Reserve("r", 0, Some(sequence)), SequenceLease.Invalidate("r")])
  {
    RepeatedAttempt(n, "H", reply, None);
    hide SentStage, Forgets, TriesAgain, BlobStage;
    assert s.ops + [SequenceLease.Reserve("r", 0, Some(sequence))] + [SequenceLease.Invalidate("r")]
        == s.ops + [SequenceLease.Reserve("r", 0, Some(sequence)), SequenceLease.Invalidate("r")];
  }

  lemma ForgottenAgain(ops: seq<SequenceLease.Op>, sequence: int)
    requires ops == [SequenceLease.Reserve("r", 0, Some(sequence)), SequenceLease.Invalidate("r")]
    ensures SequenceLease.Before(SequenceLease.MemoryDb, ops, 2) == map[]
  {
    assert SequenceLease.Before(SequenceLease.MemoryDb, ops, 1)
        == map["r" := SequenceLease.Lease(sequence + 1, SequenceLease.LEASE_TTL_MS)];
  }

  /** The first row of all is about to be signed and sent. */
  lemma FirstSending() returns (s: Sys)
    ensures Reachable(OURS, s) && Holds(s, 0, Attempt(0)) && s.db.outbox[0].tx.account == "r" && s.wire == [] && s.ops == []
  {
    hide Reachable, Next;
    var asked := AskForVault();
    assert ClaimableIds(asked.db.outbox) == [0] by { OnlyRow(asked.db.outbox); }
    hide ClaimableIds;
    ClaimStep(OURS, asked);
    var claimed := AfterStep(OURS, asked, ClaimBatch);
    GateStep(OURS, claimed, 0, false, true, "");
    var marked := AfterStep(OURS, claimed, Gate(false, true, ""));
    RouteStep(OURS, marked, 0, Some(true));
    s := AfterStep(OURS, marked, Route(Some(true)));
  }

  lemma OnlyRow(outbox: seq<Row>)
    requires |outbox| == 1 && outbox[0].status == Pending
    ensures ClaimableIds(outbox) == [0]
  {
    ClaimableIdsFacts(outbox);
    hide ClaimableIds;
    IncreasingUnique(ClaimableIds(outbox), [0]);
  }

  /** Two attempts at the first row, both repeated. */
  lemma SendTwice(first: int, second: int, reply: LedgerReply) returns (t: Sys)
    requires !reply.NotSent? && forall n | n < 2 :: Forgets(n, reply) && TriesAgain(n, reply)
    ensures Reachable(OURS, t) && t.wire == [Signed(0, "r", first, 0), Signed(0, "r", second, 2)]
  {
    hide Reachable, Next, Forgets, TriesAgain;
    var s := FirstSending();
    SendAndForget(OURS, s, 0, first, reply);
    var u := AfterStep(OURS, s, Asked(first, reply));
    ForgottenAgain(u.ops, first);
    SendAndForget(OURS, u, 1, second, reply);
    t := AfterStep(OURS, u, Asked(second, reply));
  }

  /** Told twice that its sequence is stale, an account may refetch the same one: refetches have to be ahead. */
  lemma StaleRefetchReuses()
    ensures exists cfg: Config, s: Sys ::
              Reachable(cfg, s) && |s.wire| == 2 && s.wire[0].Signed? && s.wire[1].Signed?
              && s.wire[0].account == s.wire[1].account && s.wire[0].sequence == s.wire[1].sequence
  {
    hide Reachable;
    var stale := Answer("terPRE_SEQ", None, None);
    assert SequenceError("terPRE_SEQ");
    hide ClassifyResult;
    var s := SendTwice(5, 5, stale);
  }

  /**
   * A request times out after the ledger took the transaction; asked again, the ledger answers the next sequence,
   * and the row is signed with that: both can take effect.
   */
  lemma TimeoutTakesEffectTwice()
    ensures exists cfg: Config, s: Sys :: Reachable(cfg, s) && !EffectAtMostOnce(s.wire)
  {
    hide Reachable, EffectAtMostOnce;
    var s := SendTwice(5, 6, SentThrew(true));
    assert SignedTwice(s.wire, 0, 1);
    EffectAtMostOnceExactlyWhen(OURS, s);
  }
}
