/**
 * The outbox protocol as a state machine. An API call is one step; the worker takes one step
 * for each database write and for each exchange with the ledger. A run is a sequence of
 * labels: the label carries what the ledger, the clock or the user answers, and a label that
 * is not enabled does nothing. So a statement about all label sequences covers every
 * interleaving and every behaviour of the ledger.
 */
module Protocol {
  import opened Options
  import opened SharedTypes
  import opened OutboxDb
  import opened Classify
  import LedgerState
  import ServiceCalls
  import SequenceLease

  const MAX_SUBMIT_RETRIES: nat := 2

  datatype Config = Config(lendingEnabled: bool, dryRun: bool, batchSize: nat)

  // ---------- worker ----------

  /** Where the worker is with the first row of its batch. */
  datatype Stage =
    | Claimed                                               // claimed, nothing written yet
    | Marked                                                // written as submitted
    | BlobReady                                             // about to send the cosigned blob
    | Attempt(n: nat)                                       // about to sign and send, after n retries
    | Verdict(patch: Patch, toRecord: Option<TxRecord>)       // about to write the outcome
    | Recording(record: TxRecord)                           // about to record the transaction

  datatype Worker = Idle | Executing(queue: seq<nat>, stage: Stage)

  /** A transaction handed to the ledger; a self-signed one uses reservation `op`. */
  datatype Submission = Blob(row: nat) | Signed(row: nat, account: string, sequence: int, op: nat)

  datatype Sys = Sys(db: Db, worker: Worker, wire: seq<Submission>, ops: seq<SequenceLease.Op>)

  const START := Sys(EMPTY_DB, Idle, [], [])

  // ---------- labels ----------

  /** A request that failed before or after reaching the ledger, or an answer. */
  datatype LedgerReply =
    | NotSent(retryable: bool)
    | SentThrew(retryable: bool)
    | Answer(engine: string, hash: Option<string>, result: Option<TxResult>)

  datatype Label =
    | Api(call: ServiceCalls.Call)
    | ClaimBatch
    | Gate(feeSpike: bool, connects: bool, hash: string)
    | Route(holdsKey: Option<bool>)
    | SignAndSend(fetch: Option<int>, fetchRetryable: bool, hash: string, reply: LedgerReply, lookup: Option<TxResult>)
    | SendBlob(reply: LedgerReply, lookup: Option<TxResult>)
    | WriteOutcome
    | RecordTx
    | Refetch(id: nat, result: TxResult)
    | Enrich(id: nat)
    | MarkIndexed(id: nat)
    | Reconcile(id: nat, missing: seq<string>)

  // ---------- executor ----------

  const NO_PATCH := Patch(None, None, None, None)

  function Finish(w: Worker): Worker
    requires w.Executing? && w.queue != []
  {
    if |w.queue| == 1 then Idle else Executing(w.queue[1..], Claimed)
  }

  /** Only validated results leave the lookup. */
  function Looked(lookup: Option<TxResult>): Option<TxResult> {
    if lookup.Some? && lookup.value.validated then lookup else None
  }

  /** The result code of a looked-up transaction, or else the engine's. */
  function FinalCode(r: TxResult, engine: string): string {
    if r.meta.Some? && r.meta.value.code.Some? then r.meta.value.code.value else engine
  }

  function ValidatedOrFailed(r: TxResult, engine: string): Status {
    if ClassifyResult(FinalCode(r, engine)) == Success then Validated else Failed
  }

  /** Before anything is sent: blocked, dry run, unreachable ledger, or on to submitting. */
  function GateStage(cfg: Config, feeSpike: bool, connects: bool, hash: string): Stage {
    if !cfg.lendingEnabled then Verdict(NO_PATCH.(status := Some(Blocked)), None)
    else if cfg.dryRun then
      Verdict(Patch(Some(Prepared), Some(Some(hash)), Some(Some(TxResult(false, None, None))), None),
              Some(TxRecord(hash, "DRY_RUN")))
    else if feeSpike then Verdict(NO_PATCH.(status := Some(Blocked)), None)
    else if !connects then Verdict(NO_PATCH.(status := Some(Failed)), None)
    else Marked
  }

  predicate HasBlob(row: Row) { row.kind == LoanSet && Truthy(row.meta.counterpartyBlob) }

  /** A cosigned blob is sent as it is; otherwise the key store says whether it holds the account's key, or fails to. */
  function RouteStage(row: Row, holdsKey: Option<bool>): Stage {
    if HasBlob(row) then BlobReady
    else
      match holdsKey
      case None => Verdict(NO_PATCH.(status := Some(Failed)), None)
      case Some(false) => Verdict(NO_PATCH.(status := Some(Blocked)), None)
      case Some(true) => Attempt(0)
  }

  /** After the ledger answered a self-signed transaction. */
  function SignedStage(n: nat, hash: string, engine: string, result: Option<TxResult>, lookup: Option<TxResult>): Stage {
    var grade := ClassifyResult(engine);
    if (SequenceError(engine) || grade == Retry) && n < MAX_SUBMIT_RETRIES then Attempt(n + 1)
    else if grade == Success then
      match Looked(lookup)
      case Some(v) =>
        Verdict(Patch(Some(ValidatedOrFailed(v, engine)), Some(Some(hash)), Some(Some(v)), None),
                Some(TxRecord(hash, FinalCode(v, engine))))
      case None => Verdict(Patch(Some(ManualReview), Some(Some(hash)), Some(result), None), None)
    else
      Verdict(Patch(Some(if grade == Review then ManualReview else Failed), Some(Some(hash)), Some(result), None),
              Some(TxRecord(hash, engine)))
  }

  function ThrownStage(n: nat, retryable: bool): Stage {
    if retryable && n < MAX_SUBMIT_RETRIES then Attempt(n + 1)
    else Verdict(NO_PATCH.(status := Some(Failed)), None)
  }

  function SentStage(n: nat, hash: string, reply: LedgerReply, lookup: Option<TxResult>): Stage {
    match reply
    case Answer(engine, _, result) => SignedStage(n, hash, engine, result, lookup)
    case NotSent(retryable) => ThrownStage(n, retryable)
    case SentThrew(retryable) => ThrownStage(n, retryable)
  }

  /** Does the attempt end by forgetting the account's next sequence? */
  predicate Forgets(n: nat, reply: LedgerReply) {
    n < MAX_SUBMIT_RETRIES && match reply
                              case Answer(engine, _, _) => SequenceError(engine)
                              case NotSent(retryable) => retryable
                              case SentThrew(retryable) => retryable
  }

  /** The last ledger a cosigned row may enter, as far as the row says. */
  function LastLedgerOf(row: Row): Option<nat> {
    if row.tx.lastLedgerSequence.Some? then row.tx.lastLedgerSequence else row.meta.lastLedgerSequence
  }

  /** After the ledger answered a cosigned blob. */
  function BlobStage(row: Row, reply: LedgerReply, lookup: Option<TxResult>): Stage {
    match reply
    case NotSent(_) => Verdict(NO_PATCH.(status := Some(Failed)), None)
    case SentThrew(_) => Verdict(NO_PATCH.(status := Some(Failed)), None)
    case Answer(engine, hash, result) =>
      var grade := ClassifyResult(engine);
      if grade == Success && Truthy(hash) then
        match Looked(lookup)
        case Some(v) =>
          Verdict(Patch(Some(ValidatedOrFailed(v, engine)), Some(hash), Some(Some(v)), None),
                  Some(TxRecord(hash.value, FinalCode(v, engine))))
        case None =>
          Verdict(Patch(Some(Submitted), Some(hash), Some(result), Some(row.meta.(lastLedgerSequence := LastLedgerOf(row)))), None)
      else
        var status := if grade == Review then ManualReview else if grade == Retry then Submitted else Failed;
        Verdict(Patch(Some(status), Some(hash), Some(result), None),
                if Truthy(hash) then Some(TxRecord(hash.value, engine)) else None)
  }

  /** The sequences the memory database would hand out next. */
  ghost function Reservation(ops: seq<SequenceLease.Op>, account: string, fetch: Option<int>): Option<int> {
    SequenceLease.Step(SequenceLease.MemoryDb, SequenceLease.Before(SequenceLease.MemoryDb, ops, |ops|),
                       SequenceLease.Reserve(account, 0, fetch)).1
  }

  ghost function DoSignAndSend(s: Sys, id: nat, n: nat, l: Label): Sys
    requires s.worker.Executing? && id < |s.db.outbox| && l.SignAndSend?
  {
    var account := s.db.outbox[id].tx.account;
    var op := SequenceLease.Reserve(account, 0, l.fetch);
    var sequence := Reservation(s.ops, account, l.fetch);
    var reply := if sequence.None? then NotSent(l.fetchRetryable) else l.reply;
    s.(worker := s.worker.(stage := SentStage(n, l.hash, reply, l.lookup)),
       wire := if reply.NotSent? then s.wire else s.wire + [Signed(id, account, sequence.value, |s.ops|)],
       ops := s.ops + [op] + if Forgets(n, reply) then [SequenceLease.Invalidate(account)] else [])
  }

  // ---------- indexer and reconciliation ----------

  ghost function CreatedIds(result: Option<TxResult>): LedgerState.Ids {
    var items := if result.Some? && result.value.meta.Some? then result.value.meta.value.items else [];
    LedgerState.Extracted(LedgerState.NormalizeAffectedNodes(items))
  }

  datatype Table = Vaults | Brokers | Loans

  function TableOf(kind: Kind): Table {
    match kind
    case VaultCreate => Vaults
    case VaultDeposit => Vaults
    case LoanBrokerSet => Brokers
    case CollateralDeposit => Brokers
    case LoanSet => Loans
  }

  /** What a validated row's metadata adds to its aggregate. */
  ghost function Enriched(db: Db, row: Row): Db {
    var ids := CreatedIds(row.txResult);
    var k := row.aggregateId;
    match row.kind
    case VaultCreate =>
      if Truthy(ids.vaultId) && k < |db.vaults| then
        db.(vaults := db.vaults[k := db.vaults[k].(xrplVaultId := ids.vaultId, status := VaultActive)])
      else db
    case VaultDeposit =>
      if k < |db.vaults| then db.(vaults := db.vaults[k := db.vaults[k].(status := VaultFunded)]) else db
    case LoanBrokerSet =>
      if Truthy(ids.loanBrokerId) && k < |db.brokers| then
        db.(brokers := db.brokers[k := db.brokers[k].(xrplLoanBrokerId := ids.loanBrokerId, status := BrokerActive)])
      else db
    case CollateralDeposit =>
      if k < |db.brokers| then db.(brokers := db.brokers[k := db.brokers[k].(status := CoverFunded)]) else db
    case LoanSet =>
      if (Truthy(ids.loanId) || (ids.loanSeq.Some? && ids.loanSeq.value != 0)) && k < |db.loans| then
        db.(loans := db.loans[k := db.loans[k].(xrplLoanId := ids.loanId, xrplLoanSeq := ids.loanSeq, status := LoanActive)])
      else db
  }

  datatype Severity = Info | Warning | Critical

  datatype Mismatch = Mismatch(field: string, severity: Severity)

  /** Post-submit checks report every missing object as a warning. */
  function PostSubmitMismatches(missing: seq<string>): seq<Mismatch> {
    seq(|missing|, i requires 0 <= i < |missing| => Mismatch(missing[i], Warning))
  }

  function ReconciledStatus(mismatches: seq<Mismatch>): Status {
    if exists i | 0 <= i < |mismatches| :: mismatches[i].severity == Critical then ManualReview else Reconciled
  }

  predicate NeedsIndex(s: Status) { s == Submitted || s == Validated }

  predicate ForReconciliation(s: Status) { s == Validated || s == Indexed || s == Prepared }

  // ---------- one step ----------

  function SetStatus(db: Db, id: nat, s: Status): Db { db.(outbox := UpdateRow(db.outbox, id, NO_PATCH.(status := Some(s)))) }

  ghost function ExecutorStep(cfg: Config, s: Sys, l: Label): Sys
    requires s.worker.Executing?
  {
    var w := s.worker;
    if w.queue == [] || w.queue[0] >= |s.db.outbox| then s
    else
      var id := w.queue[0];
      var row := s.db.outbox[id];
      match (w.stage, l)
      case (Claimed, Gate(feeSpike, connects, hash)) =>
        var stage := GateStage(cfg, feeSpike, connects, hash);
        s.(worker := w.(stage := stage), db := if stage == Marked then SetStatus(s.db, id, Submitted) else s.db)
      case (Marked, Route(holdsKey)) => s.(worker := w.(stage := RouteStage(row, holdsKey)))
      case (Attempt(n), SignAndSend(_, _, _, _, _)) => DoSignAndSend(s, id, n, l)
      case (BlobReady, SendBlob(reply, lookup)) =>
        s.(worker := w.(stage := BlobStage(row, reply, lookup)),
           wire := if reply.NotSent? then s.wire else s.wire + [Blob(id)])
      case (Verdict(patch, record), WriteOutcome) =>
        s.(worker := if record.Some? then w.(stage := Recording(record.value)) else Finish(w),
           db := s.db.(outbox := UpdateRow(s.db.outbox, id, patch)))
      case (Recording(record), RecordTx) =>
        s.(worker := Finish(w), db := s.db.(transactions := Record(s.db.transactions, record)))
      case (_, _) => s
  }

  ghost function IdleStep(cfg: Config, s: Sys, l: Label): Sys {
    match l
    case ClaimBatch =>
      var ids := Firsts(ClaimableIds(s.db.outbox), cfg.batchSize);
      if ids == [] then s
      else s.(worker := Executing(ids, Claimed), db := s.db.(outbox := ClaimRows(s.db.outbox, ids)))
    case Refetch(id, result) =>
      if id < |s.db.outbox| && NeedsIndex(s.db.outbox[id].status) && result.validated then
        s.(db := s.db.(outbox := UpdateRow(s.db.outbox, id, NO_PATCH.(txResult := Some(Some(result))))))
      else s
    case Enrich(id) =>
      if id < |s.db.outbox| && (NeedsIndex(s.db.outbox[id].status) || ForReconciliation(s.db.outbox[id].status)) then
        s.(db := Enriched(s.db, s.db.outbox[id]))
      else s
    case MarkIndexed(id) =>
      if id < |s.db.outbox| && NeedsIndex(s.db.outbox[id].status) && s.db.outbox[id].txResult.Some? then
        s.(db := SetStatus(s.db, id, Indexed))
      else s
    case Reconcile(id, missing) =>
      if id < |s.db.outbox| && ForReconciliation(s.db.outbox[id].status) then
        s.(db := SetStatus(s.db, id, ReconciledStatus(PostSubmitMismatches(missing))))
      else s
    case _ => s
  }

  ghost function Next(cfg: Config, s: Sys, l: Label): Sys {
    match l
    case Api(call) => s.(db := ServiceCalls.Handle(s.db, call).0)
    case _ => if s.worker.Idle? then IdleStep(cfg, s, l) else ExecutorStep(cfg, s, l)
  }

  /** The state after a run from the empty database. */
  ghost function Run(cfg: Config, labels: seq<Label>): Sys {
    if labels == [] then START else Next(cfg, Run(cfg, labels[..|labels| - 1]), labels[|labels| - 1])
  }

  lemma RunLast(cfg: Config, labels: seq<Label>, l: Label)
    ensures Run(cfg, labels + [l]) == Next(cfg, Run(cfg, labels), l)
  {
    assert (labels + [l])[..|labels|] == labels;
  }

  // ---------- states of a run ----------

  /** Names a moment of a run; its step is looked at only where the moment is named. */
  ghost predicate Moment(k: nat) { true }

  /** The states a run passes through under its labels. */
  ghost predicate IsRun(cfg: Config, labels: seq<Label>, states: seq<Sys>) {
    && |states| == |labels| + 1 && states[0] == START
    && forall k: nat {:trigger Moment(k)} | k < |labels| && Moment(k) :: states[k + 1] == Next(cfg, states[k], labels[k])
  }

  /** Some run passes through the state. */
  ghost predicate Reachable(cfg: Config, s: Sys) {
    exists labels: seq<Label>, states: seq<Sys> :: IsRun(cfg, labels, states) && s in states
  }

  lemma {:induction false} StateAt(cfg: Config, labels: seq<Label>, states: seq<Sys>, k: nat)
    requires IsRun(cfg, labels, states) && k <= |labels|
    ensures states[k] == Run(cfg, labels[..k])
  {
    hide Next;
    if k > 0 {
      StateAt(cfg, labels, states, k - 1);
      assert Moment(k - 1);
      RunLast(cfg, labels[..k - 1], labels[k - 1]);
      assert labels[..k - 1] + [labels[k - 1]] == labels[..k];
    }
  }

  /** A reachable state is where some labels lead. */
  lemma ReachedBy(cfg: Config, s: Sys) returns (labels: seq<Label>)
    requires Reachable(cfg, s)
    ensures Run(cfg, labels) == s
  {
    hide Run, Next;
    var all: seq<Label>, states: seq<Sys> :| IsRun(cfg, all, states) && s in states;
    var k: nat :| k < |states| && states[k] == s;
    StateAt(cfg, all, states, k);
    labels := all[..k];
  }

  /** Labels make a run through the states they lead to one by one. */
  lemma RunOf(cfg: Config, labels: seq<Label>) returns (states: seq<Sys>)
    ensures IsRun(cfg, labels, states) && forall k | 0 <= k <= |labels| :: states[k] == Run(cfg, labels[..k])
  {
    assert Run(cfg, []) == START;
    hide Run, Next;
    states := seq(|labels| + 1, k requires 0 <= k <= |labels| => Run(cfg, labels[..k]));
    forall k: nat | k < |labels| && Moment(k) ensures states[k + 1] == Next(cfg, states[k], labels[k]) {
      RunLast(cfg, labels[..k], labels[k]);
      assert labels[..k] + [labels[k]] == labels[..k + 1];
    }
    assert labels[..0] == [];
  }

  /** And where labels lead is reachable. */
  lemma LedToIsReachable(cfg: Config, labels: seq<Label>)
    ensures Reachable(cfg, Run(cfg, labels))
  {
    hide Run, Next, IsRun;
    var states := RunOf(cfg, labels);
    assert labels[..|labels|] == labels;
    Length(cfg, labels, states);
    assert states[|labels|] == Run(cfg, labels);
  }

  lemma Length(cfg: Config, labels: seq<Label>, states: seq<Sys>)
    requires IsRun(cfg, labels, states)
    ensures |states| == |labels| + 1
  {
  }
}
