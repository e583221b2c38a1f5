/** What a validated row shows, over every run. */
module ValidatedRecords {
  import opened Options
  import opened SharedTypes
  import opened OutboxDb
  import opened Classify
  import opened Protocol
  import opened ServiceCalls
  import opened Control

  /** A validated row has a validated result, and its transaction is recorded or about to be. */
  ghost predicate ValidatedOk(row: Row, place: Place, transactions: seq<TxRecord>) {
    row.status == Validated ==>
      && row.txHash.Some? && row.txResult.Some? && row.txResult.value.validated
      && (place == Outside ==> Recorded(transactions, row.txHash.value))
  }

  ghost predicate ValidatedInv(s: Sys) {
    forall i: nat | i < |s.db.outbox| :: ValidatedOk(s.db.outbox[i], PlaceOf(s.worker, i), s.db.transactions)
  }

  lemma ValidatedApi(s: Sys, c: Change, db: Db)
    requires ControlInv(s) && ValidatedInv(s) && Enabled(s.db.outbox, c)
    requires db.outbox == Changed(s.db.outbox, c) && db.transactions == s.db.transactions
    ensures ValidatedInv(s.(db := db))
  {
    hide ControlInv, Recorded;
    var t := s.(db := db);
    forall i: nat | i < |t.db.outbox| ensures ValidatedOk(t.db.outbox[i], PlaceOf(t.worker, i), t.db.transactions) {
      if i < |s.db.outbox| {
        assert ValidatedOk(s.db.outbox[i], PlaceOf(s.worker, i), s.db.transactions);
      }
    }
  }

  lemma ValidatedIdle(cfg: Config, s: Sys, l: Label)
    requires ControlInv(s) && ValidatedInv(s) && s.worker.Idle?
    ensures ValidatedInv(IdleStep(cfg, s, l))
  {
    hide Recorded, CreatedIds, ControlInv, ClaimableIds;
    var t := IdleStep(cfg, s, l);
    forall i: nat | i < |t.db.outbox| ensures ValidatedOk(t.db.outbox[i], PlaceOf(t.worker, i), t.db.transactions) {
      assert ValidatedOk(s.db.outbox[i], PlaceOf(s.worker, i), s.db.transactions);
    }
  }

  /** The executor touches its front row only, and lets go of it when its transaction is recorded. */
  lemma ValidatedExecutor(cfg: Config, s: Sys, l: Label)
    requires ControlInv(s) && ValidatedInv(s) && s.worker.Executing?
    ensures ValidatedInv(ExecutorStep(cfg, s, l))
  {
    hide Recorded, BlobStage, RouteStage, DoSignAndSend, Record;
    var t := ExecutorStep(cfg, s, l);
    var q := s.worker.queue;
    var id := q[0];
    assert RowOk(s.db.outbox[id], PlaceOf(s.worker, id));
    if s.worker.stage.Attempt? && l.SignAndSend? { SendingKeepsDb(s, id, s.worker.stage.n, l); }
    ControlExecutor(cfg, s, l);
    assert RowOk(t.db.outbox[id], PlaceOf(t.worker, id));
    RecordsKept(cfg, s, l);
    forall i: nat | i < |t.db.outbox| ensures ValidatedOk(t.db.outbox[i], PlaceOf(t.worker, i), t.db.transactions) {
      assert ValidatedOk(s.db.outbox[i], PlaceOf(s.worker, i), s.db.transactions);
      assert RowOk(s.db.outbox[i], PlaceOf(s.worker, i));
      assert i in q[1..] <==> i in q && i != id;
    }
  }

  lemma RecordsKept(cfg: Config, s: Sys, l: Label)
    requires s.worker.Executing?
    ensures var t := ExecutorStep(cfg, s, l);
            && (forall h | Recorded(s.db.transactions, h) :: Recorded(t.db.transactions, h))
            && (t != s && s.worker.stage.Recording? ==> Recorded(t.db.transactions, s.worker.stage.record.txHash))
  {
    hide Recorded, BlobStage, RouteStage, Record;
    var t := ExecutorStep(cfg, s, l);
    if s.worker.stage.Recording? {
      var rec := s.worker.stage.record;
      forall h ensures Recorded(s.db.transactions, h) || h == rec.txHash ==> Recorded(Record(s.db.transactions, rec), h) {
        RecordedAfter(s.db.transactions, rec, h);
      }
    }
  }

  lemma ValidatedNext(cfg: Config, s: Sys, l: Label)
    requires ControlInv(s) && ValidatedInv(s)
    ensures ValidatedInv(Next(cfg, s, l))
  {
    match l
    case Api(call) =>
      hide Next, ValidatedInv;
      ApiStep(cfg, s, call);
      ValidatedApi(s, ChangeOf(s.db, call), Next(cfg, s, l).db);
    case _ =>
      hide ExecutorStep, IdleStep, ValidatedInv;
      if s.worker.Idle? { ValidatedIdle(cfg, s, l); } else { ValidatedExecutor(cfg, s, l); }
  }

  lemma {:induction false} ValidatedHolds(cfg: Config, labels: seq<Label>)
    ensures ValidatedInv(Run(cfg, labels))
  {
    hide Next;
    if labels != [] {
      var front := labels[..|labels| - 1];
      ValidatedHolds(cfg, front);
      ControlHolds(cfg, front);
      ValidatedNext(cfg, Run(cfg, front), labels[|labels| - 1]);
    }
  }

  // ---------- validated once ----------

  /** Row i went through under a hash: it keeps both, and once the executor let go of it the hash is recorded. */
  ghost predicate ThroughUnder(s: Sys, i: nat, hash: string) {
    && i < |s.db.outbox| && s.db.outbox[i].status in {Validated, Indexed, Reconciled}
    && s.db.outbox[i].txHash == Some(hash)
    && s.db.outbox[i].txResult.Some? && s.db.outbox[i].txResult.value.validated
    && (PlaceOf(s.worker, i) == Outside ==> Recorded(s.db.transactions, hash))
  }

  lemma ThroughExecutor(cfg: Config, s: Sys, l: Label, i: nat, hash: string)
    requires ControlInv(s) && s.worker.Executing? && ThroughUnder(s, i, hash)
    ensures ThroughUnder(ExecutorStep(cfg, s, l), i, hash)
  {
    hide Recorded, BlobStage, RouteStage, DoSignAndSend, Record;
    var q := s.worker.queue;
    assert RowOk(s.db.outbox[i], PlaceOf(s.worker, i));
    ExecutorFrame(cfg, s, l);
    RecordsKept(cfg, s, l);
    assert i in q[1..] <==> i in q && i != q[0];
  }

  lemma ThroughIdle(cfg: Config, s: Sys, l: Label, i: nat, hash: string)
    requires ControlInv(s) && s.worker.Idle? && ThroughUnder(s, i, hash)
    ensures ThroughUnder(IdleStep(cfg, s, l), i, hash)
  {
    hide Recorded, CreatedIds, ControlInv;
    ClaimableIdsFacts(s.db.outbox);
    hide ClaimableIds;
    var ids := Firsts(ClaimableIds(s.db.outbox), cfg.batchSize);
    assert i in ids ==> i in ClaimableIds(s.db.outbox);
  }

  lemma ThroughNext(cfg: Config, s: Sys, l: Label, i: nat, hash: string)
    requires ControlInv(s) && ThroughUnder(s, i, hash)
    ensures ThroughUnder(Next(cfg, s, l), i, hash)
  {
    match l
    case Api(call) =>
      hide Next, ControlInv, Recorded;
      ApiStep(cfg, s, call);
    case _ =>
      hide ExecutorStep, IdleStep, ThroughUnder;
      if s.worker.Idle? { ThroughIdle(cfg, s, l, i, hash); } else { ThroughExecutor(cfg, s, l, i, hash); }
  }

  lemma {:induction false} ThroughUntil(cfg: Config, labels: seq<Label>, states: seq<Sys>, i: nat, hash: string, j: nat, k: nat)
    requires IsRun(cfg, labels, states) && j <= k <= |labels| && ThroughUnder(states[j], i, hash)
    ensures ThroughUnder(states[k], i, hash)
    decreases k - j
  {
    hide Run, Next, ThroughUnder, ControlInv;
    if j < k {
      StateAt(cfg, labels, states, j);
      ControlHolds(cfg, labels[..j]);
      assert Moment(j);
      ThroughNext(cfg, states[j], labels[j], i, hash);
      ThroughUntil(cfg, labels, states, i, hash, j + 1, k);
    }
  }

  // ---------- main results ----------

  lemma ValidatedIsThrough(cfg: Config, labels: seq<Label>, i: nat)
    requires i < |Run(cfg, labels).db.outbox| && Run(cfg, labels).db.outbox[i].status == Validated
    ensures var s := Run(cfg, labels);
            s.db.outbox[i].txHash.Some? && ThroughUnder(s, i, s.db.outbox[i].txHash.value)
  {
    hide Run, Recorded;
    var s := Run(cfg, labels);
    ValidatedHolds(cfg, labels);
    assert ValidatedOk(s.db.outbox[i], PlaceOf(s.worker, i), s.db.transactions);
  }

  /**
   * From the moment a row is validated it keeps its hash and has a validated result, whether it is indexed or
   * reconciled since; and whenever the executor does not have it in hand, its transaction is recorded.
   */
  lemma ValidatedRowsAreRecorded(cfg: Config, labels: seq<Label>, states: seq<Sys>, i: nat, j: nat, k: nat)
    requires IsRun(cfg, labels, states) && j <= k <= |labels|
    requires i < |states[j].db.outbox| && states[j].db.outbox[i].status == Validated
    ensures i < |states[k].db.outbox| && states[j].db.outbox[i].txHash.Some?
    ensures var row := states[k].db.outbox[i];
            var hash := states[j].db.outbox[i].txHash.value;
            && row.status in {Validated, Indexed, Reconciled} && row.txHash == Some(hash)
            && row.txResult.Some? && row.txResult.value.validated
            && (states[k].worker.Idle? || i !in states[k].worker.queue ==> Recorded(states[k].db.transactions, hash))
  {
    hide Run, Recorded;
    StateAt(cfg, labels, states, j);
    ValidatedIsThrough(cfg, labels[..j], i);
    ThroughUntil(cfg, labels, states, i, states[j].db.outbox[i].txHash.value, j, k);
  }

  lemma SuccessByText(r: Option<TxResult>)
    ensures r.Some? && ShowsSuccess(r.value) && r.value.meta.Some? && r.value.meta.value.code.Some? ==>
              r.value.meta.value.code == Some("terQUEUED") || "tes" <= r.value.meta.value.code.value
  {
    if r.Some? && r.value.meta.Some? && r.value.meta.value.code.Some? { ClassesByText(r.value.meta.value.code.value); }
  }

  /** The only step that makes a row validated writes the executor's verdict on a validated result with a success code. */
  lemma OnlySuccessValidates(cfg: Config, labels: seq<Label>, states: seq<Sys>, k: nat, i: nat)
    requires IsRun(cfg, labels, states) && k < |labels|
    requires i < |states[k].db.outbox| && i < |states[k + 1].db.outbox|
    requires states[k].db.outbox[i].status != Validated && states[k + 1].db.outbox[i].status == Validated
    ensures labels[k] == WriteOutcome
    ensures var row := states[k + 1].db.outbox[i];
            && row.txHash.Some? && row.txResult.Some? && row.txResult.value.validated
            && var meta := row.txResult.value.meta;
               meta.Some? && meta.value.code.Some? ==> meta.value.code == Some("terQUEUED") || "tes" <= meta.value.code.value
  {
    hide Run, Next, ClassifyResult;
    StateAt(cfg, labels, states, k);
    ControlHolds(cfg, labels[..k]);
    assert Moment(k);
    var s, l := states[k], labels[k];
    match l
    case Api(call) => ApiStep(cfg, s, call);
    case _ =>
      WorkerStepMoves(cfg, s, l);
      var row := Next(cfg, s, l).db.outbox[i];
      assert WorkerMoves(s.db.outbox[i], row);
      OnlyVerdicts(cfg, s, l, i);
      SuccessByText(row.txResult);
  }

  lemma OnlyVerdicts(cfg: Config, s: Sys, l: Label, i: nat)
    requires ControlInv(s) && !l.Api? && i < |s.db.outbox| && i < |Next(cfg, s, l).db.outbox|
    requires s.db.outbox[i].status != Validated && Next(cfg, s, l).db.outbox[i].status == Validated
    ensures l == WriteOutcome
  {
    hide CreatedIds, ControlInv, ClaimableIds, DoSignAndSend, BlobStage, RouteStage;
    if s.worker.Executing? && s.worker.queue != [] && s.worker.queue[0] < |s.db.outbox|
       && s.worker.stage.Attempt? && l.SignAndSend? {
      SendingKeepsDb(s, s.worker.queue[0], s.worker.stage.n, l);
    }
  }

  // ---------- one record for each transaction ----------

  lemma TransactionsNext(cfg: Config, s: Sys, l: Label)
    requires DistinctHashes(s.db.transactions)
    ensures DistinctHashes(Next(cfg, s, l).db.transactions)
  {
    hide DistinctHashes;
    match l
    case Api(call) =>
      hide Next;
      ApiStep(cfg, s, call);
    case _ =>
      hide Next;
      TransactionsWorker(cfg, s, l);
  }

  lemma TransactionsWorker(cfg: Config, s: Sys, l: Label)
    requires DistinctHashes(s.db.transactions) && !l.Api?
    ensures DistinctHashes(Next(cfg, s, l).db.transactions)
  {
    hide DistinctHashes, ExecutorStep, IdleStep;
    if s.worker.Executing? { TransactionsExecutor(cfg, s, l); } else { TransactionsIdle(cfg, s, l); }
  }

  lemma TransactionsExecutor(cfg: Config, s: Sys, l: Label)
    requires DistinctHashes(s.db.transactions) && s.worker.Executing?
    ensures DistinctHashes(ExecutorStep(cfg, s, l).db.transactions)
  {
    hide DistinctHashes, DoSignAndSend, BlobStage, RouteStage, GateStage, UpdateRow, Record;
    var stage := s.worker.stage;
    if stage.Attempt? && l.SignAndSend? && s.worker.queue != [] && s.worker.queue[0] < |s.db.outbox| {
      SendingKeepsDb(s, s.worker.queue[0], stage.n, l);
    }
    if stage.Recording? { RecordExactly(s.db.transactions, stage.record, stage.record); }
  }

  lemma TransactionsIdle(cfg: Config, s: Sys, l: Label)
    ensures IdleStep(cfg, s, l).db.transactions == s.db.transactions
  {
    hide Enriched, ClaimableIds, ClaimRows, UpdateRow;
    if l.Enrich? && l.id < |s.db.outbox| { EnrichedKeepsTransactions(s.db, s.db.outbox[l.id]); }
  }

  lemma EnrichedKeepsTransactions(db: Db, row: Row)
    ensures Enriched(db, row).transactions == db.transactions
  {
  }

  lemma {:induction false} TransactionsHold(cfg: Config, labels: seq<Label>)
    ensures DistinctHashes(Run(cfg, labels).db.transactions)
  {
    hide Next;
    if labels != [] {
      TransactionsHold(cfg, labels[..|labels| - 1]);
      TransactionsNext(cfg, Run(cfg, labels[..|labels| - 1]), labels[|labels| - 1]);
    }
  }

  /** In every state of every run each hash is recorded once. */
  lemma RecordedOnce(cfg: Config, s: Sys)
    requires Reachable(cfg, s)
    ensures DistinctHashes(s.db.transactions)
  {
    hide Run, Reachable;
    var labels := ReachedBy(cfg, s);
    TransactionsHold(cfg, labels);
  }

  // ---------- indexed rows ----------

  ghost predicate IndexedInv(outbox: seq<Row>) {
    forall i | 0 <= i < |outbox| && outbox[i].status == Indexed :: outbox[i].txResult.Some?
  }

  lemma IndexedIdle(cfg: Config, s: Sys, l: Label)
    requires IndexedInv(s.db.outbox) && s.worker.Idle?
    ensures IndexedInv(IdleStep(cfg, s, l).db.outbox)
  {
    hide CreatedIds, ClaimableIds;
  }

  lemma IndexedExecutor(cfg: Config, s: Sys, l: Label)
    requires ControlInv(s) && IndexedInv(s.db.outbox) && s.worker.Executing?
    ensures IndexedInv(ExecutorStep(cfg, s, l).db.outbox)
  {
    hide ExecutorStep;
    var t, id := ExecutorStep(cfg, s, l), s.worker.queue[0];
    ExecutorFrame(cfg, s, l);
    FrontMoves(cfg, s, l);
    assert RowOk(s.db.outbox[id], PlaceOf(s.worker, id));
    assert WorkerMoves(s.db.outbox[id], t.db.outbox[id]);
    NeverIndexes(cfg, s, l);
  }

  /** The executor leaves its front row in no state that the indexer puts rows in. */
  lemma NeverIndexes(cfg: Config, s: Sys, l: Label)
    requires ControlInv(s) && s.worker.Executing?
    ensures s.worker.queue[0] < |ExecutorStep(cfg, s, l).db.outbox|
    ensures ExecutorStep(cfg, s, l).db.outbox[s.worker.queue[0]].status != Indexed
  {
    hide DoSignAndSend, BlobStage, RouteStage, GateStage, Record;
    var id := s.worker.queue[0];
    assert RowOk(s.db.outbox[id], PlaceOf(s.worker, id));
    if s.worker.stage.Attempt? && l.SignAndSend? { SendingKeepsDb(s, id, s.worker.stage.n, l); }
  }

  lemma IndexedNext(cfg: Config, s: Sys, l: Label)
    requires ControlInv(s) && IndexedInv(s.db.outbox)
    ensures IndexedInv(Next(cfg, s, l).db.outbox)
  {
    match l
    case Api(call) =>
      hide Next, ControlInv;
      ApiStep(cfg, s, call);
      var c := ChangeOf(s.db, call);
      hide ChangeOf, NotesAdded;
    case _ =>
      hide ExecutorStep, IdleStep, IndexedInv;
      if s.worker.Idle? { IndexedIdle(cfg, s, l); } else { IndexedExecutor(cfg, s, l); }
  }

  lemma {:induction false} IndexedHolds(cfg: Config, labels: seq<Label>)
    ensures IndexedInv(Run(cfg, labels).db.outbox)
  {
    hide Next;
    if labels != [] {
      var front := labels[..|labels| - 1];
      IndexedHolds(cfg, front);
      ControlHolds(cfg, front);
      IndexedNext(cfg, Run(cfg, front), labels[|labels| - 1]);
    }
  }

  /** In every state of every run an indexed row has the result it was indexed from. */
  lemma IndexedRowsHaveResults(cfg: Config, s: Sys, i: nat)
    requires Reachable(cfg, s) && i < |s.db.outbox| && s.db.outbox[i].status == Indexed
    ensures s.db.outbox[i].txResult.Some?
  {
    hide Run, Reachable;
    var labels := ReachedBy(cfg, s);
    IndexedHolds(cfg, labels);
  }
}
