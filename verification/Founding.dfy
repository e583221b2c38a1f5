/**
 * A vault or broker and the rows about it: the row that creates it comes first and is done with before
 * anything is deposited. Where rows are reconciled in that order, a reconciled deposit stays in effect.
 */
module Founding {
  import opened Options
  import opened SharedTypes
  import opened OutboxDb
  import opened Classify
  import opened Protocol
  import opened ServiceCalls
  import opened Control
  import opened Ownership

  predicate Founds(kind: Kind) { kind == VaultCreate || kind == LoanBrokerSet }

  predicate Funds(kind: Kind) { kind == VaultDeposit || kind == CollateralDeposit }

  predicate SameThing(a: Row, b: Row) { TableOf(a.kind) == TableOf(b.kind) && a.aggregateId == b.aggregateId }

  /** The ledger gave the row's vault or broker an id. */
  predicate Known(db: Db, row: Row) {
    match TableOf(row.kind)
    case Vaults => row.aggregateId < |db.vaults| && Truthy(db.vaults[row.aggregateId].xrplVaultId)
    case Brokers => row.aggregateId < |db.brokers| && Truthy(db.brokers[row.aggregateId].xrplLoanBrokerId)
    case Loans => false
  }

  /** The row's vault or broker shows what was deposited. */
  predicate Funded(db: Db, row: Row) {
    match TableOf(row.kind)
    case Vaults => row.aggregateId < |db.vaults| && db.vaults[row.aggregateId].status == VaultFunded
    case Brokers => row.aggregateId < |db.brokers| && db.brokers[row.aggregateId].status == CoverFunded
    case Loans => true
  }

  // ---------- the creating row ----------

  /** Only a cosigned LoanSet is ever left as submitted. */
  ghost predicate SubmittedOk(row: Row, place: Place) {
    match place
    case Outside => row.status == Submitted ==> row.kind == LoanSet
    case Waiting => true
    case Front(stage) =>
      match stage
      case BlobReady => row.kind == LoanSet
      case Verdict(patch, _) => patch.status == Some(Status.Submitted) ==> row.kind == LoanSet
      case Recording(_) => row.status == Submitted ==> row.kind == LoanSet
      case _ => true
  }

  const MADE := {Validated, Indexed, Prepared, Reconciled}

  /** Once the thing is known to the ledger, its creating row is out of the executor's hands for good. */
  ghost predicate FounderOk(db: Db, row: Row, place: Place) {
    Founds(row.kind) && Known(db, row) ==> place == Outside && row.status in MADE
  }

  /** No row about a thing is older than the one that creates it. */
  ghost predicate FounderIsFirst(outbox: seq<Row>) {
    forall c: nat, d: nat | c < d < |outbox| && Founds(outbox[d].kind) :: !SameThing(outbox[c], outbox[d])
  }

  ghost predicate FoundingInv(s: Sys) {
    && FounderIsFirst(s.db.outbox)
    && forall i: nat | i < |s.db.outbox| ::
         SubmittedOk(s.db.outbox[i], PlaceOf(s.worker, i)) && FounderOk(s.db, s.db.outbox[i], PlaceOf(s.worker, i))
  }

  /** A new creating row is about a new thing. */
  lemma NewThing(db: Db, call: Call, row: Row)
    requires ChangeOf(db, call).Added? && RowOwned(db, row)
    ensures var added := NewRow(ChangeOf(db, call).input);
            Founds(added.kind) ==> !SameThing(row, added)
  {
    hide ViolatesSod, Rejects, MayCounterSign, FindLoanSet;
  }

  lemma NotYetKnown(db: Db, call: Call)
    requires ChangeOf(db, call).Added?
    ensures var added := NewRow(ChangeOf(db, call).input); Founds(added.kind) ==> !Known(Handle(db, call).0, added)
  {
    hide ViolatesSod, Rejects, MayCounterSign, FindLoanSet;
  }

  lemma CallKeepsThings(db: Db, call: Call, row: Row)
    requires RowOwned(db, row)
    ensures Founds(row.kind) || Funds(row.kind) ==> (Known(Handle(db, call).0, row) <==> Known(db, row))
    ensures Founds(row.kind) || Funds(row.kind) ==> (Funded(Handle(db, call).0, row) <==> Funded(db, row))
  {
    hide Handle;
    RecordsAfterCall(db, call);
  }

  lemma FoundingApi(s: Sys, call: Call, db: Db)
    requires ControlInv(s) && OwnershipInv(s.db) && FoundingInv(s) && db == Handle(s.db, call).0
    ensures FoundingInv(s.(db := db))
  {
    hide Handle, RowOwned, RowOk, Known, ChangeOf;
    var c := ChangeOf(s.db, call);
    HandleChanges(s.db, call);
    forall i: nat | i < |db.outbox|
      ensures SubmittedOk(db.outbox[i], PlaceOf(s.worker, i)) && FounderOk(db, db.outbox[i], PlaceOf(s.worker, i))
    {
      if i < |s.db.outbox| {
        CallKeepsThings(s.db, call, s.db.outbox[i]);
        SameKnown(db, s.db.outbox[i], db.outbox[i]);
      } else {
        NotYetKnown(s.db, call);
      }
    }
    forall i: nat, j: nat | i < j < |db.outbox| && Founds(db.outbox[j].kind)
      ensures !SameThing(db.outbox[i], db.outbox[j])
    {
      if j == |s.db.outbox| { NewThing(s.db, call, s.db.outbox[i]); }
    }
  }

  lemma SameKnown(db: Db, before: Row, after: Row)
    requires after.kind == before.kind && after.aggregateId == before.aggregateId
    ensures Known(db, after) <==> Known(db, before)
  {
  }

  /** A thing becomes known only by enrichment from its creating row. */
  lemma KnownByFounder(db: Db, row: Row, other: Row)
    requires Founds(row.kind) && Known(Enriched(db, other), row) && !Known(db, row)
    ensures Founds(other.kind) && SameThing(row, other)
  {
    hide CreatedIds;
  }

  lemma FounderKnownBefore(s: Sys, l: Label, i: nat)
    requires ControlInv(s) && FoundingInv(s) && Enriching(s, l) && i < |s.db.outbox|
    requires Founds(s.db.outbox[i].kind) && Known(Enriched(s.db, s.db.outbox[l.id]), s.db.outbox[i])
    ensures s.db.outbox[i].status in MADE
  {
    hide Enriched, Known;
    if Known(s.db, s.db.outbox[i]) {
      assert FounderOk(s.db, s.db.outbox[i], PlaceOf(s.worker, i));
    } else {
      KnownByFounder(s.db, s.db.outbox[i], s.db.outbox[l.id]);
      assert l.id == i;
      assert SubmittedOk(s.db.outbox[i], Outside);
    }
  }

  lemma FounderWorker(cfg: Config, s: Sys, l: Label, i: nat)
    requires ControlInv(s) && FoundingInv(s) && !l.Api? && i < |s.db.outbox|
    ensures var t := Next(cfg, s, l);
            i < |t.db.outbox| && FounderOk(t.db, t.db.outbox[i], PlaceOf(t.worker, i))
  {
    hide Next, Enriched, Known, ControlInv, FoundingInv;
    var t := Next(cfg, s, l);
    WorkerKeepsRecords(cfg, s, l);
    WorkerStepMoves(cfg, s, l);
    var before, after := s.db.outbox[i], t.db.outbox[i];
    assert WorkerMoves(before, after);
    if Founds(after.kind) && Known(t.db, after) {
      SameKnown(t.db, before, after);
      if Enriching(s, l) {
        FounderKnownBefore(s, l, i);
        StaysOut(cfg, s, l, i);
      } else {
        RecordsKnown(s.db, t.db, before);
        FounderOut(s, i);
        StaysOut(cfg, s, l, i);
      }
    }
  }

  lemma RecordsKnown(db: Db, t: Db, row: Row)
    requires t.vaults == db.vaults && t.brokers == db.brokers
    ensures Known(t, row) == Known(db, row) && Funded(t, row) == Funded(db, row)
  {
  }

  lemma FounderOut(s: Sys, i: nat)
    requires FoundingInv(s) && i < |s.db.outbox| && Founds(s.db.outbox[i].kind) && Known(s.db, s.db.outbox[i])
    ensures PlaceOf(s.worker, i) == Outside && s.db.outbox[i].status in MADE
  {
    assert FounderOk(s.db, s.db.outbox[i], PlaceOf(s.worker, i));
  }

  /** The worker takes no row in hand but one that waits to be claimed. */
  lemma StaysOut(cfg: Config, s: Sys, l: Label, i: nat)
    requires ControlInv(s) && !l.Api? && i < |s.db.outbox| && s.db.outbox[i].status in MADE
    requires PlaceOf(s.worker, i) == Outside
    ensures PlaceOf(Next(cfg, s, l).worker, i) == Outside
  {
    hide ExecutorStep, CreatedIds, Enriched;
    if s.worker.Executing? {
      var q := s.worker.queue;
      WorkerAfter(cfg, s, l);
      assert forall k | k in q[1..] :: k in q;
    } else {
      ClaimableIdsFacts(s.db.outbox);
      hide ClaimableIds;
      var ids := Firsts(ClaimableIds(s.db.outbox), cfg.batchSize);
      assert i in ids ==> i in ClaimableIds(s.db.outbox);
    }
  }

  lemma WorkerAfter(cfg: Config, s: Sys, l: Label)
    requires ControlInv(s) && s.worker.Executing?
    ensures var t := ExecutorStep(cfg, s, l);
            t.worker == Finish(s.worker) || (t.worker.Executing? && t.worker.queue == s.worker.queue)
  {
    hide SentStage, BlobStage, RouteStage, GateStage, Record, Reservation;
  }

  lemma SubmittedIdle(cfg: Config, s: Sys, l: Label, i: nat)
    requires ControlInv(s) && FoundingInv(s) && s.worker.Idle? && !l.Api? && i < |s.db.outbox|
    ensures var t := IdleStep(cfg, s, l);
            i < |t.db.outbox| && SubmittedOk(t.db.outbox[i], PlaceOf(t.worker, i))
  {
    hide CreatedIds, ClaimableIds;
    var t := IdleStep(cfg, s, l);
    IdleMoves(cfg, s, l);
    assert RowOk(s.db.outbox[i], Outside) && SubmittedOk(s.db.outbox[i], Outside);
    assert WorkerMoves(s.db.outbox[i], t.db.outbox[i]);
  }

  lemma BlobStageSubmits(row: Row, reply: LedgerReply, lookup: Option<TxResult>)
    requires row.kind == LoanSet
    ensures SubmittedOk(row, Front(BlobStage(row, reply, lookup)))
  {
    hide BlobStage;
  }

  lemma SignedNeverSubmits(n: nat, hash: string, reply: LedgerReply, lookup: Option<TxResult>)
    ensures var stage := SentStage(n, hash, reply, lookup);
            stage.Attempt? || (stage.Verdict? && stage.patch.status != Some(Status.Submitted))
  {
    hide ClassifyResult;
  }

  lemma SubmittedFront(cfg: Config, s: Sys, l: Label)
    requires ControlInv(s) && FoundingInv(s) && s.worker.Executing?
    ensures var id := s.worker.queue[0];
            var t := ExecutorStep(cfg, s, l);
            id < |t.db.outbox| && SubmittedOk(t.db.outbox[id], PlaceOf(t.worker, id))
  {
    hide SentStage, BlobStage, Record, Reservation;
    var q := s.worker.queue;
    var row := s.db.outbox[q[0]];
    assert RowOk(row, Front(s.worker.stage)) && SubmittedOk(row, Front(s.worker.stage));
    assert q[0] !in q[1..];
    if s.worker.stage.Attempt? && l.SignAndSend? {
      var n := s.worker.stage.n;
      SendingKeepsDb(s, q[0], n, l);
      SignedNeverSubmits(n, l.hash, l.reply, l.lookup);
      SignedNeverSubmits(n, l.hash, NotSent(l.fetchRetryable), l.lookup);
    } else if s.worker.stage.BlobReady? && l.SendBlob? {
      BlobStageSubmits(row, l.reply, l.lookup);
    }
  }

  lemma SubmittedExecutor(cfg: Config, s: Sys, l: Label, i: nat)
    requires ControlInv(s) && FoundingInv(s) && s.worker.Executing? && i < |s.db.outbox|
    ensures var t := ExecutorStep(cfg, s, l);
            i < |t.db.outbox| && SubmittedOk(t.db.outbox[i], PlaceOf(t.worker, i))
  {
    hide ExecutorStep;
    var q := s.worker.queue;
    if i == q[0] {
      SubmittedFront(cfg, s, l);
    } else {
      ExecutorFrame(cfg, s, l);
      WorkerAfter(cfg, s, l);
      assert SubmittedOk(s.db.outbox[i], PlaceOf(s.worker, i));
      assert i in q[1..] <==> i in q;
      QueuedNext(cfg, s, l);
    }
  }

  /** A row that comes to the front is only claimed yet. */
  lemma QueuedNext(cfg: Config, s: Sys, l: Label)
    requires ControlInv(s) && s.worker.Executing?
    ensures var t := ExecutorStep(cfg, s, l).worker;
            t.Executing? && t.queue[0] != s.worker.queue[0] ==> t.stage == Claimed
  {
    WorkerAfter(cfg, s, l);
    hide ExecutorStep;
  }

  lemma FoundingWorker(cfg: Config, s: Sys, l: Label)
    requires ControlInv(s) && FoundingInv(s) && !l.Api?
    ensures FoundingInv(Next(cfg, s, l))
  {
    hide ExecutorStep, IdleStep, SubmittedOk, FounderOk, ControlInv;
    var t := Next(cfg, s, l);
    WorkerStepMoves(cfg, s, l);
    forall i: nat | i < |t.db.outbox|
      ensures SubmittedOk(t.db.outbox[i], PlaceOf(t.worker, i)) && FounderOk(t.db, t.db.outbox[i], PlaceOf(t.worker, i))
    {
      if s.worker.Idle? { SubmittedIdle(cfg, s, l, i); } else { SubmittedExecutor(cfg, s, l, i); }
      FounderWorker(cfg, s, l, i);
    }
    forall i: nat, j: nat | i < j < |t.db.outbox| && Founds(t.db.outbox[j].kind)
      ensures !SameThing(t.db.outbox[i], t.db.outbox[j])
    {
      assert WorkerMoves(s.db.outbox[i], t.db.outbox[i]) && WorkerMoves(s.db.outbox[j], t.db.outbox[j]);
    }
  }

  lemma FoundingNext(cfg: Config, s: Sys, l: Label)
    requires ControlInv(s) && OwnershipInv(s.db) && FoundingInv(s)
    ensures FoundingInv(Next(cfg, s, l))
  {
    hide FoundingInv, ControlInv, OwnershipInv, Handle;
    match l
    case Api(call) => FoundingApi(s, call, Handle(s.db, call).0);
    case _ =>
      hide Next;
      FoundingWorker(cfg, s, l);
  }

  lemma {:induction false} FoundingHolds(cfg: Config, labels: seq<Label>)
    ensures FoundingInv(Run(cfg, labels))
  {
    hide Next, OwnershipInv, ControlInv;
    if labels != [] {
      var front := labels[..|labels| - 1];
      FoundingHolds(cfg, front);
      ControlHolds(cfg, front);
      OwnershipHolds(cfg, front);
      FoundingNext(cfg, Run(cfg, front), labels[|labels| - 1]);
    }
  }

  /** In every state of every run a deposit comes after the row that created what it is for, and that row is made. */
  lemma DepositsFollowCreation(cfg: Config, s: Sys, c: nat, d: nat)
    requires Reachable(cfg, s) && c < |s.db.outbox| && d < |s.db.outbox|
    requires Founds(s.db.outbox[c].kind) && Funds(s.db.outbox[d].kind) && SameThing(s.db.outbox[c], s.db.outbox[d])
    ensures c < d && s.db.outbox[c].status in {Validated, Indexed, Prepared, Reconciled}
  {
    hide Run, Reachable;
    var labels := ReachedBy(cfg, s);
    FoundingHolds(cfg, labels);
    OwnershipHolds(cfg, labels);
    assert RowOwned(s.db, s.db.outbox[d]);
    assert FounderOk(s.db, s.db.outbox[c], PlaceOf(s.worker, c));
    assert !SameThing(s.db.outbox[d], s.db.outbox[c]) || c <= d;
  }

  // ---------- reconciled deposits ----------

  /** The row that created what this one is about is reconciled. */
  ghost predicate FounderDone(outbox: seq<Row>, row: Row) {
    forall c: nat | c < |outbox| && Founds(outbox[c].kind) && SameThing(outbox[c], row) :: outbox[c].status == Reconciled
  }

  /** If the row is a deposit, it is in effect and nothing can take it back. */
  ghost predicate InEffect(db: Db, row: Row) { Funds(row.kind) ==> Funded(db, row) && FounderDone(db.outbox, row) }

  /** Every reconciled deposit is in effect. */
  ghost predicate FundedInv(db: Db) {
    forall i: nat | i < |db.outbox| && db.outbox[i].status == Reconciled :: InEffect(db, db.outbox[i])
  }

  /** A step that reconciles a deposit finds it in effect, and what it is for reconciled. */
  ghost predicate InOrderAt(s: Sys, l: Label) {
    l.Reconcile? && s.worker.Idle? && l.id < |s.db.outbox| && ForReconciliation(s.db.outbox[l.id].status) ==>
      InEffect(s.db, s.db.outbox[l.id])
  }

  ghost predicate InOrder(cfg: Config, labels: seq<Label>) {
    forall j: nat {:trigger Moment(j)} | j < |labels| && Moment(j) :: InOrderAt(Run(cfg, labels[..j]), labels[j])
  }

  lemma InOrderStart(cfg: Config)
    ensures InOrder(cfg, [])
  {
  }

  lemma InOrderLonger(cfg: Config, labels: seq<Label>, l: Label)
    ensures InOrder(cfg, labels + [l]) <==> InOrder(cfg, labels) && InOrderAt(Run(cfg, labels), l)
  {
    hide Run, InOrderAt;
    var more := labels + [l];
    assert forall j: nat | j < |labels| :: more[..j] == labels[..j];
    assert more[..|labels|] == labels;
    assert Moment(|labels|);
  }

  /** Only reconciliation reconciles. */
  lemma OnlyReconcile(cfg: Config, s: Sys, l: Label, i: nat)
    requires ControlInv(s) && !l.Api? && i < |s.db.outbox| && i < |Next(cfg, s, l).db.outbox|
    requires s.db.outbox[i].status != Reconciled && Next(cfg, s, l).db.outbox[i].status == Reconciled
    ensures l.Reconcile? && l.id == i && s.worker.Idle? && ForReconciliation(s.db.outbox[i].status)
    ensures Next(cfg, s, l).db.vaults == s.db.vaults && Next(cfg, s, l).db.brokers == s.db.brokers
  {
    hide CreatedIds, ClaimableIds, ExecutorStep, Enriched;
    if s.worker.Executing? {
      ExecutorFrame(cfg, s, l);
      FrontMoves(cfg, s, l);
      NeverReconciles(cfg, s, l);
    } else {
      OnlyOutbox(s.db, if l.Enrich? && l.id < |s.db.outbox| then s.db.outbox[l.id] else s.db.outbox[i]);
    }
  }

  lemma OnlyOutbox(db: Db, row: Row)
    ensures Enriched(db, row).outbox == db.outbox
  {
  }

  lemma NeverReconciles(cfg: Config, s: Sys, l: Label)
    requires ControlInv(s) && s.worker.Executing?
    ensures var id := s.worker.queue[0];
            id < |ExecutorStep(cfg, s, l).db.outbox|
            && (ExecutorStep(cfg, s, l).db.outbox[id].status == Reconciled ==> s.db.outbox[id].status == Reconciled)
  {
    hide ExecutorStep;
    var id := s.worker.queue[0];
    ExecutorFrame(cfg, s, l);
    FrontMoves(cfg, s, l);
    assert RowOk(s.db.outbox[id], PlaceOf(s.worker, id));
    assert WorkerMoves(s.db.outbox[id], ExecutorStep(cfg, s, l).db.outbox[id]);
    if s.worker.stage.Recording? { RecordingKeepsRows(cfg, s, l); }
  }

  lemma RecordingKeepsRows(cfg: Config, s: Sys, l: Label)
    requires s.worker.Executing? && s.worker.stage.Recording?
    ensures ExecutorStep(cfg, s, l).db.outbox == s.db.outbox
  {
  }

  lemma FounderStaysDone(before: seq<Row>, after: seq<Row>, row: Row)
    requires |before| == |after| && FounderDone(before, row)
    requires forall i: nat | i < |before| :: WorkerMoves(before[i], after[i])
    ensures FounderDone(after, row)
  {
    forall c: nat | c < |after| && Founds(after[c].kind) && SameThing(after[c], row) ensures after[c].status == Reconciled {
      assert WorkerMoves(before[c], after[c]);
    }
  }

  lemma EnrichedKeepsFunded(db: Db, row: Row, other: Row)
    requires Funds(row.kind) && Funded(db, row) && !(Founds(other.kind) && SameThing(other, row))
    ensures Funded(Enriched(db, other), row)
  {
    hide CreatedIds;
  }

  lemma StaysInEffect(cfg: Config, s: Sys, l: Label, row: Row)
    requires ControlInv(s) && !l.Api? && Funds(row.kind) && InEffect(s.db, row)
    ensures InEffect(Next(cfg, s, l).db, row)
  {
    hide Next, Enriched, Funded, ControlInv;
    var t := Next(cfg, s, l);
    WorkerKeepsRecords(cfg, s, l);
    WorkerStepMoves(cfg, s, l);
    FounderStaysDone(s.db.outbox, t.db.outbox, row);
    if Enriching(s, l) {
      var other := s.db.outbox[l.id];
      assert Founds(other.kind) && SameThing(other, row) ==> other.status == Reconciled;
      EnrichedKeepsFunded(s.db, row, other);
    } else {
      RecordsKnown(s.db, t.db, row);
    }
  }

  lemma SameEffect(db: Db, before: Row, after: Row)
    requires after.kind == before.kind && after.aggregateId == before.aggregateId
    ensures InEffect(db, after) <==> InEffect(db, before)
  {
  }

  lemma FundedWorker(cfg: Config, s: Sys, l: Label)
    requires ControlInv(s) && FundedInv(s.db) && !l.Api? && InOrderAt(s, l)
    ensures FundedInv(Next(cfg, s, l).db)
  {
    hide Next, InEffect, ControlInv;
    var t := Next(cfg, s, l);
    WorkerStepMoves(cfg, s, l);
    forall i: nat | i < |t.db.outbox| && t.db.outbox[i].status == Reconciled ensures InEffect(t.db, t.db.outbox[i]) {
      var before, after := s.db.outbox[i], t.db.outbox[i];
      assert WorkerMoves(before, after);
      if before.status != Reconciled { OnlyReconcile(cfg, s, l, i); }
      SameEffect(t.db, before, after);
      if Funds(before.kind) { StaysInEffect(cfg, s, l, before); } else { NoDeposit(t.db, before); }
    }
  }

  lemma NoDeposit(db: Db, row: Row)
    requires !Funds(row.kind)
    ensures InEffect(db, row)
  {
  }

  lemma FundedApi(db: Db, call: Call)
    requires OwnershipInv(db) && FundedInv(db)
    ensures FundedInv(Handle(db, call).0)
  {
    hide Handle, RowOwned, Funded, ChangeOf;
    var t := Handle(db, call).0;
    HandleChanges(db, call);
    forall i: nat | i < |t.outbox| && t.outbox[i].status == Reconciled && Funds(t.outbox[i].kind)
      ensures Funded(t, t.outbox[i]) && FounderDone(t.outbox, t.outbox[i])
    {
      assert i < |db.outbox| && t.outbox[i] == db.outbox[i] && InEffect(db, db.outbox[i]);
      CallKeepsThings(db, call, db.outbox[i]);
      if |t.outbox| > |db.outbox| { NewThing(db, call, db.outbox[i]); }
    }
  }

  lemma FundedNext(cfg: Config, s: Sys, l: Label)
    requires ControlInv(s) && OwnershipInv(s.db) && FundedInv(s.db) && InOrderAt(s, l)
    ensures FundedInv(Next(cfg, s, l).db)
  {
    hide FundedInv, ControlInv, OwnershipInv, Handle, InOrderAt;
    match l
    case Api(call) => FundedApi(s.db, call);
    case _ =>
      hide Next;
      FundedWorker(cfg, s, l);
  }

  /** In a run whose deposits are reconciled in order, every reconciled deposit is in effect. */
  lemma {:induction false} FundedHolds(cfg: Config, labels: seq<Label>)
    requires InOrder(cfg, labels)
    ensures FundedInv(Run(cfg, labels).db)
  {
    hide Next, OwnershipInv, ControlInv, InOrder, InOrderAt, InEffect;
    if labels != [] {
      var front, l := labels[..|labels| - 1], labels[|labels| - 1];
      assert labels == front + [l];
      InOrderLonger(cfg, front, l);
      FundedHolds(cfg, front);
      ControlHolds(cfg, front);
      OwnershipHolds(cfg, front);
      FundedNext(cfg, Run(cfg, front), l);
    }
  }

  /** A deposit reconciled out of order is one that is reconciled and not in effect. */
  lemma OutOfOrderShows(cfg: Config, s: Sys, l: Label)
    requires FundedInv(Next(cfg, s, l).db)
    ensures InOrderAt(s, l)
  {
    hide CreatedIds, Funded;
    if l.Reconcile? && s.worker.Idle? && l.id < |s.db.outbox| && ForReconciliation(s.db.outbox[l.id].status)
       && Funds(s.db.outbox[l.id].kind) {
      var before, t := s.db.outbox, Next(cfg, s, l).db;
      assert t == s.db.(outbox := before[l.id := before[l.id].(status := Reconciled)]);
      assert InEffect(t, t.outbox[l.id]);
      RecordsKnown(s.db, t, before[l.id]);
      SameFunded(t, before[l.id], t.outbox[l.id]);
      forall c: nat | c < |before| && Founds(before[c].kind) && SameThing(before[c], before[l.id])
        ensures before[c].status == Reconciled
      {
        assert t.outbox[c] == before[c];
      }
    }
  }

  lemma SameFunded(db: Db, before: Row, after: Row)
    requires after.kind == before.kind && after.aggregateId == before.aggregateId
    ensures Funded(db, after) <==> Funded(db, before)
  {
  }

  /** In all states of a run every reconciled deposit is in effect, exactly when each was in effect as it was reconciled. */
  lemma InEffectExactlyWhenInOrder(cfg: Config, labels: seq<Label>, states: seq<Sys>)
    requires IsRun(cfg, labels, states)
    ensures (forall k: nat | k < |states| :: FundedInv(states[k].db)) <==> InOrder(cfg, labels)
  {
    hide Run, Next, FundedInv, InOrderAt;
    if forall k: nat | k < |states| :: FundedInv(states[k].db) {
      forall j: nat | j < |labels| && Moment(j) ensures InOrderAt(Run(cfg, labels[..j]), labels[j]) {
        StateAt(cfg, labels, states, j);
        OutOfOrderShows(cfg, states[j], labels[j]);
      }
    }
    if InOrder(cfg, labels) {
      forall k: nat | k < |states| ensures FundedInv(states[k].db) {
        StateAt(cfg, labels, states, k);
        InOrderPrefix(cfg, labels, k);
        FundedHolds(cfg, labels[..k]);
      }
    }
  }

  lemma InOrderPrefix(cfg: Config, labels: seq<Label>, k: nat)
    requires InOrder(cfg, labels) && k <= |labels|
    ensures InOrder(cfg, labels[..k])
  {
    hide Run, InOrderAt;
    assert forall j: nat | j < k :: labels[..k][..j] == labels[..j];
  }
}
