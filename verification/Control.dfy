/**
 * Which rows the worker has in hand, in every state of every run: a row is claimed at most
 * once, and a claimed row ends in a settled state.
 */
module Control {
  import opened Options
  import opened SharedTypes
  import opened OutboxDb
  import opened Classify
  import opened Protocol
  import opened ServiceCalls

  // ---------- what a call does to the outbox ----------

  datatype Change =
    | Unchanged
    | Added(input: TxInput)
    | BrokerSigned(id: nat, blob: Option<string>, hash: Option<string>)
    | BorrowerSigned(id: nat, blob: Option<string>)

  ghost function ChangeOf(db: Db, call: Call): Change {
    if Handle(db, call).1 != Accepted then Unchanged
    else
      match call
      case CreateVault(owner, _) =>
        Added(TxInput(Kind.VaultCreate, VaultAggregate, |db.vaults|, Some(VaultCreateKey(|db.vaults|)),
                      Tx(owner, None, None, None)))
      case Deposit(v, account, _) =>
        Added(TxInput(Kind.VaultDeposit, VaultAggregate, v, Some(VaultDepositKey(v, account)),
                      Tx(account, None, db.vaults[v].xrplVaultId, None)))
      case CreateLoanBroker(v, owner, _) =>
        Added(TxInput(Kind.LoanBrokerSet, BrokerAggregate, |db.brokers|, Some(BrokerSetKey(|db.brokers|)),
                      Tx(owner, None, db.vaults[v].xrplVaultId, None)))
      case DepositCollateral(b, now, _) =>
        Added(TxInput(Kind.CollateralDeposit, BrokerAggregate, b, Some(CollateralKey(b, now)),
                      Tx(db.brokers[b].ownerAddress, None, db.brokers[b].xrplLoanBrokerId, None)))
      case PrepareCosignPacket(loanId, _) => Added(LoanSetInput(db, loanId))
      case RecordBrokerSignature(loanId, blob, hash, _) =>
        BrokerSigned(FindLoanSet(db.outbox, loanId, Pending, Processing, 0).value, blob, hash)
      case RecordBorrowerSignature(loanId, blob, _) =>
        BorrowerSigned(FindLoanSet(db.outbox, loanId, Signed1, Signed1, 0).value, blob)
      case _ => Unchanged
  }

  /** Is the change one the database lets through? */
  ghost predicate Enabled(outbox: seq<Row>, c: Change) {
    match c
    case Unchanged => true
    case Added(input) => input.dedupeKey.Some? && !Rejects(outbox, input.dedupeKey)
    case BrokerSigned(id, _, _) => id < |outbox| && (outbox[id].status == Pending || outbox[id].status == Processing)
    case BorrowerSigned(id, _) => id < |outbox| && outbox[id].status == Signed1
  }

  ghost function Changed(outbox: seq<Row>, c: Change): seq<Row>
    requires Enabled(outbox, c)
  {
    match c
    case Unchanged => outbox
    case Added(input) => outbox + [NewRow(input)]
    case BrokerSigned(id, blob, hash) => UpdateRow(outbox, id, BrokerPatch(outbox[id], blob, hash))
    case BorrowerSigned(id, blob) => UpdateRow(outbox, id, BorrowerPatch(outbox[id], blob))
  }

  /** Signatures a call leaves in the evidence log, naming the row. */
  ghost predicate NotesAdded(before: seq<Note>, after: seq<Note>, c: Change) {
    match c
    case BrokerSigned(id, _, _) =>
      exists n: Note :: after == before + [n] && n.action == Some("broker_sign") && n.outboxId == Some(id)
    case BorrowerSigned(id, _) =>
      exists n: Note :: after == before + [n] && n.action == Some("borrower_sign") && n.outboxId == Some(id)
    case _ =>
      after == before
      || exists n: Note :: after == before + [n] && n.action != Some("broker_sign") && n.action != Some("borrower_sign")
  }

  lemma HandleChanges(db: Db, call: Call)
    ensures Enabled(db.outbox, ChangeOf(db, call))
    ensures Handle(db, call).0.outbox == Changed(db.outbox, ChangeOf(db, call))
    ensures Handle(db, call).0.transactions == db.transactions
  {
  }

  lemma HandleNotes(db: Db, call: Call)
    ensures NotesAdded(db.evidence, Handle(db, call).0.evidence, ChangeOf(db, call))
  {
    var after := Handle(db, call).0.evidence;
    if |after| > |db.evidence| {
      var n := after[|db.evidence|];
      assert after == db.evidence + [n];
    }
  }

  /** Calls add vaults and brokers and change none; preparing one takes a loan back to its signing. */
  lemma RecordsAfterCall(db: Db, call: Call)
    ensures var t := Handle(db, call).0;
            && db.vaults <= t.vaults && db.brokers <= t.brokers && |db.loans| <= |t.loans|
            && forall x | 0 <= x < |db.loans| ::
                 t.loans[x] == db.loans[x]
                 || (call.PrepareCosignPacket? && call.loanId == x && Handle(db, call).1 == Accepted)
  {
    hide ViolatesSod, Rejects, MayCounterSign, FindLoanSet, FindParty;
  }

  // ---------- the invariant ----------

  /** States in which the executor leaves a row, and those the indexer and reconciliation add. */
  predicate Settled(s: Status) {
    s == Prepared || s == Submitted || s == Validated || s == Failed || s == Blocked
    || s == ManualReview || s == Indexed || s == Reconciled
  }

  /** States of a claimed row the executor has not written yet; signatures may still arrive. */
  predicate InHand(s: Status) { s == Processing || s == Signed1 || s == Signed2 }

  datatype Place = Outside | Waiting | Front(stage: Stage)

  ghost function PlaceOf(w: Worker, i: nat): Place {
    if w.Idle? || i !in w.queue then Outside else if w.queue[0] == i then Front(w.stage) else Waiting
  }

  /** A validated result, with a success code if it carries one. */
  predicate ShowsSuccess(r: TxResult) {
    r.validated && (r.meta.Some? && r.meta.value.code.Some? ==> ClassifyResult(r.meta.value.code.value) == Success)
  }

  /** An outcome about to be written settles the row and leaves its signature marks alone. */
  ghost predicate SettlingPatch(row: Row, p: Patch) {
    && p.status.Some? && Settled(p.status.value) && p.status.value != Indexed && p.status.value != Reconciled
    && (p.meta.Some? ==> p.meta.value.brokerSigned == row.meta.brokerSigned
                         && p.meta.value.brokerBlob == row.meta.brokerBlob
                         && p.meta.value.counterpartySigned == row.meta.counterpartySigned
                         && p.meta.value.counterpartyBlob == row.meta.counterpartyBlob)
    && (p.status.value == Validated ==>
          p.txHash.Some? && p.txHash.value.Some? && p.txResult.Some? && p.txResult.value.Some?
          && ShowsSuccess(p.txResult.value.value))
  }

  ghost predicate FrontOk(row: Row, stage: Stage) {
    match stage
    case Claimed => InHand(row.status)
    case Marked => row.status == Submitted
    case BlobReady => row.status == Submitted && HasBlob(row)
    case Attempt(n) => row.status == Submitted && n <= MAX_SUBMIT_RETRIES
    case Verdict(patch, rec) =>
      && (InHand(row.status) || row.status == Submitted)
      && SettlingPatch(row, patch)
      && (patch.status.value == Validated ==> rec.Some? && patch.txHash.value == Some(rec.value.txHash))
      && (patch.meta.Some? ==> row.status == Submitted)
    case Recording(rec) =>
      Settled(row.status) && row.status != Indexed && row.status != Reconciled
      && (row.status == Validated ==> row.txHash == Some(rec.txHash))
  }

  ghost predicate RowOk(row: Row, place: Place) {
    match place
    case Outside =>
      (row.attempts == 0 && (row.status == Pending || row.status == Signed1 || row.status == Signed2))
      || (row.attempts == 1 && Settled(row.status))
    case Waiting => row.attempts == 1 && InHand(row.status)
    case Front(stage) => row.attempts == 1 && FrontOk(row, stage)
  }

  ghost predicate QueueOk(s: Sys) {
    s.worker.Executing? ==>
      && s.worker.queue != []
      && (forall k | 0 <= k < |s.worker.queue| :: s.worker.queue[k] < |s.db.outbox|)
      && (forall k, l | 0 <= k < l < |s.worker.queue| :: s.worker.queue[k] != s.worker.queue[l])
  }

  ghost predicate ControlInv(s: Sys) {
    QueueOk(s) && forall i: nat | i < |s.db.outbox| :: RowOk(s.db.outbox[i], PlaceOf(s.worker, i))
  }

  lemma ControlStart()
    ensures ControlInv(START)
  {
  }

  /** A call may move a row the worker holds, but only between states it can hold it in. */
  lemma ControlApi(s: Sys, c: Change, db: Db)
    requires ControlInv(s) && Enabled(s.db.outbox, c) && db.outbox == Changed(s.db.outbox, c)
    ensures ControlInv(s.(db := db))
  {
    var t := s.(db := db);
    forall i: nat | i < |t.db.outbox| ensures RowOk(t.db.outbox[i], PlaceOf(t.worker, i)) {
      assert PlaceOf(t.worker, i) == PlaceOf(s.worker, i);
      if i < |s.db.outbox| {
        assert RowOk(s.db.outbox[i], PlaceOf(s.worker, i));
      } else if s.worker.Executing? {
        assert i !in s.worker.queue;
      }
    }
  }

  /** The front row leaves the batch settled, and the next one comes to the front. */
  lemma ControlFinish(s: Sys, db: Db)
    requires ControlInv(s) && s.worker.Executing? && |db.outbox| == |s.db.outbox|
    requires forall i: nat | i < |db.outbox| && i != s.worker.queue[0] :: db.outbox[i] == s.db.outbox[i]
    requires RowOk(db.outbox[s.worker.queue[0]], Outside)
    ensures ControlInv(s.(db := db, worker := Finish(s.worker)))
  {
    var t := s.(db := db, worker := Finish(s.worker));
    var q := s.worker.queue;
    forall i: nat | i < |t.db.outbox| ensures RowOk(t.db.outbox[i], PlaceOf(t.worker, i)) {
      if i == q[0] {
        assert i !in q[1..];
      } else {
        assert i in q[1..] <==> i in q;
        assert RowOk(s.db.outbox[i], PlaceOf(s.worker, i));
      }
    }
  }

  /** The front row moves on to another stage. */
  lemma ControlStage(s: Sys, db: Db, stage: Stage)
    requires ControlInv(s) && s.worker.Executing? && |db.outbox| == |s.db.outbox|
    requires forall i: nat | i < |db.outbox| && i != s.worker.queue[0] :: db.outbox[i] == s.db.outbox[i]
    requires RowOk(db.outbox[s.worker.queue[0]], Front(stage))
    ensures ControlInv(s.(db := db, worker := s.worker.(stage := stage)))
  {
    var t := s.(db := db, worker := s.worker.(stage := stage));
    forall i: nat | i < |t.db.outbox| ensures RowOk(t.db.outbox[i], PlaceOf(t.worker, i)) {
      if i != s.worker.queue[0] {
        assert RowOk(s.db.outbox[i], PlaceOf(s.worker, i));
      }
    }
  }

  lemma ControlWrite(s: Sys)
    requires ControlInv(s) && s.worker.Executing? && s.worker.stage.Verdict?
    ensures ControlInv(ExecutorStep(Config(true, false, 0), s, WriteOutcome))
  {
    var id := s.worker.queue[0];
    var patch, rec := s.worker.stage.patch, s.worker.stage.toRecord;
    var db := s.db.(outbox := UpdateRow(s.db.outbox, id, patch));
    assert RowOk(s.db.outbox[id], PlaceOf(s.worker, id));
    if rec.Some? {
      ControlStage(s, db, Recording(rec.value));
    } else {
      ControlFinish(s, db);
    }
  }

  lemma RouteOk(row: Row, holdsKey: Option<bool>)
    requires row.status == Submitted
    ensures FrontOk(row, RouteStage(row, holdsKey))
  {
  }

  lemma SignedStageOk(row: Row, n: nat, hash: string, engine: string, result: Option<TxResult>, lookup: Option<TxResult>)
    requires row.status == Submitted && n <= MAX_SUBMIT_RETRIES
    ensures FrontOk(row, SignedStage(n, hash, engine, result, lookup))
  {
    hide ClassifyResult;
  }

  lemma ThrownOk(row: Row, n: nat, retryable: bool)
    requires row.status == Submitted && n <= MAX_SUBMIT_RETRIES
    ensures FrontOk(row, ThrownStage(n, retryable))
  {
  }

  lemma BlobOk(row: Row, reply: LedgerReply, lookup: Option<TxResult>)
    requires row.status == Submitted
    ensures FrontOk(row, BlobStage(row, reply, lookup))
  {
    hide ClassifyResult;
  }

  /** After an attempt to sign and send, the front row is retried or has an outcome. */
  lemma ControlSend(s: Sys, n: nat, l: Label)
    requires ControlInv(s) && s.worker.Executing? && s.worker.stage == Attempt(n) && l.SignAndSend?
    ensures ControlInv(DoSignAndSend(s, s.worker.queue[0], n, l))
  {
    hide SignedStage, ThrownStage;
    var id := s.worker.queue[0];
    var row := s.db.outbox[id];
    assert RowOk(row, PlaceOf(s.worker, id));
    var t := DoSignAndSend(s, id, n, l);
    ThrownOk(row, n, l.fetchRetryable);
    if l.reply.Answer? {
      SignedStageOk(row, n, l.hash, l.reply.engine, l.reply.result, l.lookup);
    } else {
      ThrownOk(row, n, l.reply.retryable);
    }
    ControlStage(s, s.db, t.worker.stage);
    SameControl(s.(worker := t.worker), t);
  }

  /** What was sent and reserved does not matter here. */
  lemma SameControl(s: Sys, t: Sys)
    requires ControlInv(s) && t.db == s.db && t.worker == s.worker
    ensures ControlInv(t)
  {
  }

  lemma ControlExecutor(cfg: Config, s: Sys, l: Label)
    requires ControlInv(s) && s.worker.Executing?
    ensures ControlInv(ExecutorStep(cfg, s, l))
  {
    hide BlobStage, RouteStage, DoSignAndSend;
    var w := s.worker;
    var id := w.queue[0];
    var row := s.db.outbox[id];
    assert RowOk(row, PlaceOf(w, id));
    match (w.stage, l)
    case (Claimed, Gate(feeSpike, connects, hash)) =>
      var stage := GateStage(cfg, feeSpike, connects, hash);
      ControlStage(s, if stage == Marked then SetStatus(s.db, id, Submitted) else s.db, stage);
    case (Marked, Route(holdsKey)) =>
      RouteOk(row, holdsKey);
      ControlStage(s, s.db, RouteStage(row, holdsKey));
    case (Attempt(n), SignAndSend(_, _, _, _, _)) => ControlSend(s, n, l);
    case (BlobReady, SendBlob(reply, lookup)) =>
      BlobOk(row, reply, lookup);
      ControlStage(s, s.db, BlobStage(row, reply, lookup));
    case (Verdict(_, _), WriteOutcome) => ControlWrite(s);
    case (Recording(rec), RecordTx) =>
      ControlFinish(s, s.db.(transactions := Record(s.db.transactions, rec)));
    case (_, _) =>
  }

  lemma ControlClaim(cfg: Config, s: Sys)
    requires ControlInv(s) && s.worker.Idle?
    ensures ControlInv(IdleStep(cfg, s, ClaimBatch))
  {
    hide ClaimableIds, Enriched;
    var all := ClaimableIds(s.db.outbox);
    var ids := Firsts(all, cfg.batchSize);
    ClaimableIdsFacts(s.db.outbox);
    if ids != [] {
      var t := IdleStep(cfg, s, ClaimBatch);
      forall i: nat | i < |t.db.outbox| ensures RowOk(t.db.outbox[i], PlaceOf(t.worker, i)) {
        assert RowOk(s.db.outbox[i], PlaceOf(s.worker, i));
        assert i in ids ==> i in all;
      }
      forall k | 0 <= k < |ids| ensures ids[k] < |s.db.outbox| {
        assert ids[k] == all[k] && all[k] in all;
      }
    }
  }

  lemma ControlIdle(cfg: Config, s: Sys, l: Label)
    requires ControlInv(s) && s.worker.Idle?
    ensures ControlInv(IdleStep(cfg, s, l))
  {
    if l.ClaimBatch? {
      ControlClaim(cfg, s);
    } else {
      var t := IdleStep(cfg, s, l);
      forall i: nat | i < |t.db.outbox| ensures RowOk(t.db.outbox[i], PlaceOf(t.worker, i)) {
        assert RowOk(s.db.outbox[i], PlaceOf(s.worker, i));
      }
    }
  }

  /** An API step changes the outbox as the database lets it and leaves the worker alone. */
  lemma ApiStep(cfg: Config, s: Sys, call: Call)
    ensures var t := Next(cfg, s, Api(call));
            && t == s.(db := t.db) && t.db.transactions == s.db.transactions
            && Enabled(s.db.outbox, ChangeOf(s.db, call)) && t.db.outbox == Changed(s.db.outbox, ChangeOf(s.db, call))
            && NotesAdded(s.db.evidence, t.db.evidence, ChangeOf(s.db, call))
  {
    hide Handle;
    HandleChanges(s.db, call);
    HandleNotes(s.db, call);
  }

  lemma ControlNext(cfg: Config, s: Sys, l: Label)
    requires ControlInv(s)
    ensures ControlInv(Next(cfg, s, l))
  {
    match l
    case Api(call) =>
      hide Next;
      ApiStep(cfg, s, call);
      ControlApi(s, ChangeOf(s.db, call), Next(cfg, s, l).db);
    case _ =>
      if s.worker.Idle? { ControlIdle(cfg, s, l); } else { ControlExecutor(cfg, s, l); }
  }

  lemma {:induction false} ControlHolds(cfg: Config, labels: seq<Label>)
    ensures ControlInv(Run(cfg, labels))
  {
    hide Next;
    if labels == [] {
      ControlStart();
    } else {
      ControlHolds(cfg, labels[..|labels| - 1]);
      ControlNext(cfg, Run(cfg, labels[..|labels| - 1]), labels[|labels| - 1]);
    }
  }

  // ---------- what a worker step does to a row ----------

  predicate SameRequest(before: Row, after: Row) {
    && after.kind == before.kind && after.aggregate == before.aggregate && after.aggregateId == before.aggregateId
    && after.dedupeKey == before.dedupeKey && after.tx == before.tx
    && after.meta.brokerSigned == before.meta.brokerSigned
    && after.meta.brokerBlob == before.meta.brokerBlob
    && after.meta.counterpartySigned == before.meta.counterpartySigned
    && after.meta.counterpartyBlob == before.meta.counterpartyBlob
  }

  predicate MovesTo(before: Row, after: Row) {
    if after.status == before.status then after.attempts == before.attempts
    else if after.status == Processing then Claimable(before.status) && before.attempts == 0 && after.attempts == 1
    else if after.status == Indexed then NeedsIndex(before.status) && after.attempts == before.attempts
    else if after.status == Reconciled then ForReconciliation(before.status) && after.attempts == before.attempts
    else
      Settled(after.status) && (InHand(before.status) || before.status == Submitted) && after.attempts == before.attempts
  }

  /** A row becomes validated only on a validated result with a success code. */
  predicate ValidatedByResult(before: Row, after: Row) {
    after.status == Validated && before.status != Validated ==>
      after.txHash.Some? && after.txResult.Some? && ShowsSuccess(after.txResult.value)
  }

  predicate WorkerMoves(before: Row, after: Row) {
    SameRequest(before, after) && MovesTo(before, after) && ValidatedByResult(before, after)
  }

  /** The worker moves rows this way and adds none. */
  ghost predicate RowsMove(s: Sys, t: Sys) {
    |t.db.outbox| == |s.db.outbox|
    && forall i: nat | i < |s.db.outbox| :: WorkerMoves(s.db.outbox[i], t.db.outbox[i])
  }

  /** The executor touches no row but the front one. */
  lemma ExecutorFrame(cfg: Config, s: Sys, l: Label)
    requires QueueOk(s) && s.worker.Executing?
    ensures var t := ExecutorStep(cfg, s, l);
            && |t.db.outbox| == |s.db.outbox| && t.db.evidence == s.db.evidence
            && forall i: nat | i < |s.db.outbox| && i != s.worker.queue[0] :: t.db.outbox[i] == s.db.outbox[i]
  {
    hide DoSignAndSend, BlobStage, RouteStage, GateStage, Record, Finish;
    if s.worker.stage.Attempt? && l.SignAndSend? {
      SendingKeepsDb(s, s.worker.queue[0], s.worker.stage.n, l);
    }
  }

  lemma FrontMoves(cfg: Config, s: Sys, l: Label)
    requires ControlInv(s) && s.worker.Executing?
    ensures var id := s.worker.queue[0];
            id < |ExecutorStep(cfg, s, l).db.outbox| && WorkerMoves(s.db.outbox[id], ExecutorStep(cfg, s, l).db.outbox[id])
  {
    hide DoSignAndSend, BlobStage, RouteStage, GateStage, Record, Finish;
    var id := s.worker.queue[0];
    assert RowOk(s.db.outbox[id], PlaceOf(s.worker, id));
    if s.worker.stage.Attempt? && l.SignAndSend? {
      SendingKeepsDb(s, id, s.worker.stage.n, l);
    }
  }

  lemma ExecutorMoves(cfg: Config, s: Sys, l: Label)
    requires ControlInv(s) && s.worker.Executing?
    ensures RowsMove(s, ExecutorStep(cfg, s, l)) && ExecutorStep(cfg, s, l).db.evidence == s.db.evidence
  {
    hide ExecutorStep;
    ExecutorFrame(cfg, s, l);
    FrontMoves(cfg, s, l);
  }

  lemma SendingKeepsDb(s: Sys, id: nat, n: nat, l: Label)
    requires s.worker.Executing? && id < |s.db.outbox| && l.SignAndSend?
    ensures DoSignAndSend(s, id, n, l).db == s.db
  {
  }

  lemma ClaimMoves(cfg: Config, s: Sys)
    requires ControlInv(s) && s.worker.Idle?
    ensures RowsMove(s, IdleStep(cfg, s, ClaimBatch)) && IdleStep(cfg, s, ClaimBatch).db.evidence == s.db.evidence
  {
    var t := IdleStep(cfg, s, ClaimBatch);
    var ids := Firsts(ClaimableIds(s.db.outbox), cfg.batchSize);
    ClaimableIdsFacts(s.db.outbox);
    hide ClaimableIds;
    forall i: nat | i < |s.db.outbox| ensures WorkerMoves(s.db.outbox[i], t.db.outbox[i]) {
      assert RowOk(s.db.outbox[i], PlaceOf(s.worker, i));
      assert i in ids ==> i in ClaimableIds(s.db.outbox);
    }
  }

  lemma IdleMoves(cfg: Config, s: Sys, l: Label)
    requires ControlInv(s) && s.worker.Idle?
    ensures RowsMove(s, IdleStep(cfg, s, l)) && IdleStep(cfg, s, l).db.evidence == s.db.evidence
  {
    hide CreatedIds, ControlInv, ClaimableIds;
    if l.ClaimBatch? { ClaimMoves(cfg, s); }
  }

  lemma WorkerStepMoves(cfg: Config, s: Sys, l: Label)
    requires ControlInv(s) && !l.Api?
    ensures RowsMove(s, Next(cfg, s, l)) && Next(cfg, s, l).db.evidence == s.db.evidence
  {
    hide ExecutorStep, IdleStep;
    if s.worker.Idle? { IdleMoves(cfg, s, l); } else { ExecutorMoves(cfg, s, l); }
  }

  /** The step enriches an aggregate from a row that is to be indexed or reconciled. */
  predicate Enriching(s: Sys, l: Label) {
    s.worker.Idle? && l.Enrich? && l.id < |s.db.outbox|
    && (NeedsIndex(s.db.outbox[l.id].status) || ForReconciliation(s.db.outbox[l.id].status))
  }

  /** Apart from rows and recorded transactions, the worker changes the database only by enrichment. */
  lemma WorkerKeepsRecords(cfg: Config, s: Sys, l: Label)
    requires !l.Api?
    ensures var t := Next(cfg, s, l).db;
            if Enriching(s, l) then t == Enriched(s.db, s.db.outbox[l.id])
            else t == s.db.(outbox := t.outbox, transactions := t.transactions)
  {
    hide Enriched, DoSignAndSend, ClaimableIds, ClaimRows, BlobStage, RouteStage, GateStage, Record, UpdateRow;
    if s.worker.Executing? && s.worker.queue != [] && s.worker.queue[0] < |s.db.outbox|
       && s.worker.stage.Attempt? && l.SignAndSend? {
      SendingKeepsDb(s, s.worker.queue[0], s.worker.stage.n, l);
    }
  }
}
