/**
 * A row's way through the protocol when the ledger takes it: from every reachable state it leads
 * on to a reachable state, so whatever is proved of reachable states is proved of it.
 */
module Reachability {
  import opened Options
  import opened SharedTypes
  import opened OutboxDb
  import opened Classify
  import opened Protocol
  import opened Control
  import opened Progress
  import opened TxExecutor
  import opened LedgerWorker
  import opened ServiceCalls
  import ValidatedRecords
  import SequenceLease

  predicate Submitting(cfg: Config) { cfg.lendingEnabled && !cfg.dryRun && cfg.batchSize >= 1 }

  // ---------- going on from a reachable state ----------

  lemma StartIsReachable(cfg: Config)
    ensures Reachable(cfg, START)
  {
    LedToIsReachable(cfg, []);
  }

  lemma AfterStep(cfg: Config, s: Sys, l: Label) returns (t: Sys)
    requires Reachable(cfg, s)
    ensures Reachable(cfg, t) && t == Next(cfg, s, l)
  {
    hide Run, Next, Reachable;
    var labels := ReachedBy(cfg, s);
    RunLast(cfg, labels, l);
    LedToIsReachable(cfg, labels + [l]);
    t := Next(cfg, s, l);
  }

  /** A step from a reachable state is a step of some run. */
  lemma StepOfRun(cfg: Config, s: Sys, l: Label) returns (labels: seq<Label>, states: seq<Sys>, k: nat)
    requires Reachable(cfg, s)
    ensures IsRun(cfg, labels, states) && k < |labels| && labels[k] == l
    ensures states[k] == s && states[k + 1] == Next(cfg, s, l)
  {
    hide Run, Next, Reachable;
    var before := ReachedBy(cfg, s);
    labels, k := before + [l], |before|;
    states := RunOf(cfg, labels);
    assert labels[..k] == before;
    assert Moment(k);
  }

  lemma AfterCall(cfg: Config, s: Sys, call: Call) returns (t: Sys)
    requires Reachable(cfg, s)
    ensures Reachable(cfg, t) && t == s.(db := Handle(s.db, call).0)
  {
    hide Next, Reachable, Handle;
    t := AfterStep(cfg, s, Api(call));
    ApiOnDb(cfg, s, call);
  }

  lemma InControl(cfg: Config, s: Sys)
    requires Reachable(cfg, s)
    ensures ControlInv(s)
  {
    hide Run, Reachable, ControlInv;
    var labels := ReachedBy(cfg, s);
    ControlHolds(cfg, labels);
  }

  // ---------- what a pass leaves as it is ----------

  /** A row that the executor neither has to write nor may claim. */
  ghost predicate AtRest(s: Sys, i: nat)
    requires i < |s.db.outbox|
  {
    match PlaceOf(s.worker, i)
    case Outside => !Claimable(s.db.outbox[i].status)
    case Waiting => false
    case Front(stage) => stage.Recording?
  }

  /** From s to t rows at rest stay as they are, no recorded transaction is forgotten, and other records do not change. */
  ghost predicate Kept(s: Sys, t: Sys) {
    && |t.db.outbox| == |s.db.outbox|
    && (forall i: nat | i < |s.db.outbox| && AtRest(s, i) :: AtRest(t, i) && t.db.outbox[i] == s.db.outbox[i])
    && t.db == s.db.(outbox := t.db.outbox, transactions := t.db.transactions)
    && forall h | Recorded(s.db.transactions, h) :: Recorded(t.db.transactions, h)
  }

  lemma KeptAtOnce(s: Sys)
    ensures Kept(s, s)
  {
  }

  lemma KeptOn(s: Sys, t: Sys, u: Sys)
    requires Kept(s, t) && Kept(t, u)
    ensures Kept(s, u)
  {
    hide AtRest, Recorded;
  }

  lemma RestInExecutor(cfg: Config, s: Sys, l: Label, i: nat)
    requires ControlInv(s) && s.worker.Executing? && i < |s.db.outbox|
    ensures var t := ExecutorStep(cfg, s, l);
            && |t.db.outbox| == |s.db.outbox|
            && (AtRest(s, i) ==> AtRest(t, i) && t.db.outbox[i] == s.db.outbox[i])
            && (PlaceOf(s.worker, i) == Outside ==> PlaceOf(t.worker, i) == Outside && t.db.outbox[i] == s.db.outbox[i])
  {
    hide DoSignAndSend, BlobStage, RouteStage, GateStage, Record, UpdateRow;
    ExecutorFrame(cfg, s, l);
    assert RowOk(s.db.outbox[i], PlaceOf(s.worker, i));
    if ExecutorStep(cfg, s, l) != s { SendsOne(cfg, s, l); }
    var q := s.worker.queue;
    assert i in q[1..] ==> i in q;
    assert i == q[0] ==> i !in q[1..];
  }

  lemma ExecutorKeeps(cfg: Config, s: Sys, l: Label)
    requires ControlInv(s) && s.worker.Executing? && !l.Api?
    ensures Kept(s, Next(cfg, s, l))
  {
    hide ExecutorStep, ControlInv, AtRest, Recorded, Enriched;
    var t := ExecutorStep(cfg, s, l);
    WorkerKeepsRecords(cfg, s, l);
    ValidatedRecords.RecordsKept(cfg, s, l);
    SameLength(cfg, s, l);
    forall i: nat | i < |s.db.outbox| && AtRest(s, i) ensures AtRest(t, i) && t.db.outbox[i] == s.db.outbox[i] {
      RestInExecutor(cfg, s, l, i);
    }
  }

  lemma SameLength(cfg: Config, s: Sys, l: Label)
    requires ControlInv(s) && s.worker.Executing?
    ensures |ExecutorStep(cfg, s, l).db.outbox| == |s.db.outbox|
  {
    hide ExecutorStep;
    ExecutorFrame(cfg, s, l);
  }

  lemma ClaimKeeps(cfg: Config, s: Sys)
    requires ControlInv(s) && s.worker.Idle?
    ensures Kept(s, Next(cfg, s, ClaimBatch))
  {
    hide Recorded;
    ClaimableIdsFacts(s.db.outbox);
    hide ClaimableIds;
    ClaimStep(cfg, s);
    var ids := Firsts(ClaimableIds(s.db.outbox), cfg.batchSize);
    assert forall i | i in ids :: i in ClaimableIds(s.db.outbox);
  }

  // ---------- giving up a batch ----------

  /** The answer that ends the front row's way soonest. */
  function GiveUpLabel(stage: Stage): Label {
    match stage
    case Claimed => Gate(false, false, "")
    case Marked => Route(Some(false))
    case BlobReady => SendBlob(NotSent(false), None)
    case Attempt(_) => SignAndSend(None, false, "", NotSent(false), None)
    case Verdict(_, _) => WriteOutcome
    case Recording(_) => RecordTx
  }

  /** One step on with the front row; the rows outside the batch and those waiting in it stay. */
  lemma GiveUpStep(cfg: Config, s: Sys) returns (t: Sys)
    requires Reachable(cfg, s) && s.worker.Executing?
    ensures Reachable(cfg, t) && Kept(s, t) && StepsLeft(t.worker) < StepsLeft(s.worker)
    ensures forall i: nat | i < |s.db.outbox| && PlaceOf(s.worker, i) == Outside ::
              PlaceOf(t.worker, i) == Outside && t.db.outbox[i] == s.db.outbox[i]
    ensures forall i: nat | i < |s.db.outbox| && PlaceOf(s.worker, i) == Waiting ::
              PlaceOf(t.worker, i) in {Waiting, Front(Claimed)} && t.db.outbox[i] == s.db.outbox[i]
    ensures Quiet(s) ==> Quiet(t) && ClaimableIds(t.db.outbox) == ClaimableIds(s.db.outbox)
  {
    hide Reachable, ControlInv, StepsLeft, Kept, Quiet, ClaimableIds, AtRest, ExecutorStep;
    var l := GiveUpLabel(s.worker.stage);
    InControl(cfg, s);
    t := AfterStep(cfg, s, l);
    StepsGoDown(cfg, s, l);
    ExecutorKeeps(cfg, s, l);
    if Quiet(s) { ExecutorKeepsClaimable(cfg, s, l); SameClaimableIds(s, t); }
    SameLength(cfg, s, l);
    forall i: nat | i < |s.db.outbox|
      ensures PlaceOf(s.worker, i) == Outside ==> PlaceOf(t.worker, i) == Outside && t.db.outbox[i] == s.db.outbox[i]
      ensures PlaceOf(s.worker, i) == Waiting ==>
                PlaceOf(t.worker, i) in {Waiting, Front(Claimed)} && t.db.outbox[i] == s.db.outbox[i]
    {
      RestInExecutor(cfg, s, l, i);
      if PlaceOf(s.worker, i) == Waiting { WaitingStays(cfg, s, l, i); }
    }
  }

  lemma WaitingStays(cfg: Config, s: Sys, l: Label, i: nat)
    requires ControlInv(s) && s.worker.Executing? && i < |s.db.outbox| && PlaceOf(s.worker, i) == Waiting
    ensures var t := ExecutorStep(cfg, s, l);
            && |t.db.outbox| == |s.db.outbox|
            && PlaceOf(t.worker, i) in {Waiting, Front(Claimed)} && t.db.outbox[i] == s.db.outbox[i]
  {
    hide ExecutorStep;
    ExecutorFrame(cfg, s, l);
    if ExecutorStep(cfg, s, l) != s { SendsOne(cfg, s, l); }
    var q := s.worker.queue;
    assert q == [q[0]] + q[1..];
  }

  /** The worker is done with its batch sooner or later, and rows outside it are as they were. */
  lemma {:induction false} GiveUp(cfg: Config, s: Sys, id: nat) returns (t: Sys)
    requires Reachable(cfg, s) && id < |s.db.outbox| && PlaceOf(s.worker, id) == Outside
    ensures Reachable(cfg, t) && t.worker.Idle? && Kept(s, t) && t.db.outbox[id] == s.db.outbox[id]
    ensures Quiet(s) ==> ClaimableIds(t.db.outbox) == ClaimableIds(s.db.outbox)
    decreases StepsLeft(s.worker)
  {
    hide Reachable, StepsLeft, AtRest, Recorded, Quiet, ClaimableIds;
    t := s;
    if s.worker.Executing? {
      var u := GiveUpStep(cfg, s);
      t := GiveUp(cfg, u, id);
      KeptOn(s, u, t);
    } else {
      KeptAtOnce(s);
    }
  }

  // ---------- a row's turn ----------

  /** A row in the batch comes to the front. */
  lemma {:induction false} ToFront(cfg: Config, s: Sys, id: nat) returns (t: Sys)
    requires Reachable(cfg, s) && id < |s.db.outbox| && PlaceOf(s.worker, id) in {Waiting, Front(Claimed)}
    ensures Reachable(cfg, t) && Kept(s, t) && Holds(t, id, Claimed) && t.db.outbox[id] == s.db.outbox[id]
    decreases StepsLeft(s.worker)
  {
    hide Reachable, StepsLeft, AtRest, Recorded, Quiet, ClaimableIds;
    t := s;
    if PlaceOf(s.worker, id) == Waiting {
      var u := GiveUpStep(cfg, s);
      t := ToFront(cfg, u, id);
      KeptOn(s, u, t);
    } else {
      KeptAtOnce(s);
    }
  }

  /** A claim takes the row or brings its turn nearer. */
  lemma ClaimNears(cfg: Config, s: Sys, id: nat) returns (t: Sys)
    requires Submitting(cfg) && Reachable(cfg, s) && s.worker.Idle? && id < |s.db.outbox| && Claimable(s.db.outbox[id].status)
    ensures Reachable(cfg, t) && Kept(s, t) && Quiet(t) && |ClaimableIds(t.db.outbox)| < |ClaimableIds(s.db.outbox)|
    ensures if PlaceOf(t.worker, id) == Outside then t.db.outbox[id] == s.db.outbox[id]
            else PlaceOf(t.worker, id) in {Waiting, Front(Claimed)} && t.db.outbox[id] == ClaimRow(s.db.outbox[id])
  {
    hide Reachable, Kept, ControlInv;
    InControl(cfg, s);
    t := AfterStep(cfg, s, ClaimBatch);
    ClaimKeeps(cfg, s);
    ClaimDrains(cfg, s);
    ClaimableIdsFacts(s.db.outbox);
    hide ClaimableIds;
    ClaimStep(cfg, s);
    assert id in ClaimableIds(s.db.outbox);
  }

  /** A claimable row is claimed in the end. */
  lemma {:induction false} UntilClaimed(cfg: Config, s: Sys, id: nat) returns (t: Sys)
    requires Submitting(cfg) && Reachable(cfg, s) && s.worker.Idle? && id < |s.db.outbox| && Claimable(s.db.outbox[id].status)
    ensures Reachable(cfg, t) && Kept(s, t) && Holds(t, id, Claimed) && t.db.outbox[id] == ClaimRow(s.db.outbox[id])
    decreases |ClaimableIds(s.db.outbox)|
  {
    hide Reachable, AtRest, Recorded, Quiet, ClaimableIds;
    var u := ClaimNears(cfg, s, id);
    if PlaceOf(u.worker, id) == Outside {
      var v := GiveUp(cfg, u, id);
      t := UntilClaimed(cfg, v, id);
      KeptOn(u, v, t);
    } else {
      t := ToFront(cfg, u, id);
    }
    KeptOn(s, u, t);
  }

  /** A row that nothing has been sent for and that needs no further call: claimable, or claimed and not yet marked. */
  ghost predicate ToSend(s: Sys, id: nat) {
    id < |s.db.outbox|
    && match PlaceOf(s.worker, id)
       case Outside => Claimable(s.db.outbox[id].status)
       case Waiting => true
       case Front(stage) => stage.Claimed?
  }

  /** Whatever the worker is doing, such a row has its turn. */
  lemma HasItsTurn(cfg: Config, s: Sys, id: nat) returns (t: Sys)
    requires Submitting(cfg) && Reachable(cfg, s) && ToSend(s, id)
    ensures Reachable(cfg, t) && Kept(s, t) && Holds(t, id, Claimed)
    ensures t.db.outbox[id] == s.db.outbox[id].(status := t.db.outbox[id].status, attempts := 1)
  {
    hide Reachable, AtRest, Recorded, Quiet, ClaimableIds;
    InControl(cfg, s);
    assert RowOk(s.db.outbox[id], PlaceOf(s.worker, id));
    if PlaceOf(s.worker, id) == Outside {
      var u := GiveUp(cfg, s, id);
      t := UntilClaimed(cfg, u, id);
      KeptOn(s, u, t);
    } else {
      t := ToFront(cfg, s, id);
    }
  }

  // ---------- from its turn to success ----------

  /** Where the row's transaction is sent from: as a blob if both parties signed, else signed here. */
  function SendStage(row: Row): Stage { if HasBlob(row) then BlobReady else Attempt(0) }

  /** The ledger takes the transaction and validates it. */
  function SendLabel(row: Row, r: TxResult): Label {
    if HasBlob(row) then SendBlob(Answer("tesSUCCESS", Some("H"), None), Some(r))
    else SignAndSend(Some(1), false, "H", Answer("tesSUCCESS", Some("H"), None), Some(r))
  }

  /** The row as it is when it is sent, and when it has gone through. */
  function AsSent(row: Row): Row { row.(status := Status.Submitted, attempts := 1) }

  function Outcome(row: Row, r: TxResult): Row {
    AsSent(row).(status := Validated, txHash := Some("H"), txResult := Some(r))
  }

  /** A success with a success code. */
  predicate Succeeds(r: TxResult) { r.validated && r.meta.Some? && r.meta.value.code == Some("tesSUCCESS") }

  const RECORD := TxRecord("H", "tesSUCCESS")

  const PATCH := Patch(Some(Validated), Some(Some("H")), None, None)

  function Succeeded(r: TxResult): Stage { Verdict(PATCH.(txResult := Some(Some(r))), Some(RECORD)) }

  lemma SuccessIsSuccess()
    ensures ClassifyResult("tesSUCCESS") == Success && !SequenceError("tesSUCCESS")
  {
    assert SUCCESS_CODES[0] == "tesSUCCESS";
    assert "tesSUCCESS"[0] != "unknown"[0] && "tesSUCCESS"[2] != "terPRE_SEQ"[2] && "tesSUCCESS"[2] != "tefPAST_SEQ"[2];
  }

  /** Marked and routed. */
  lemma ToSending(cfg: Config, s: Sys, id: nat) returns (t: Sys)
    requires Submitting(cfg) && Reachable(cfg, s) && ToSend(s, id)
    ensures Reachable(cfg, t) && Kept(s, t) && Holds(t, id, SendStage(s.db.outbox[id])) && t.db.outbox[id] == AsSent(s.db.outbox[id])
  {
    hide Reachable, Next, Kept;
    var u := HasItsTurn(cfg, s, id);
    InControl(cfg, u);
    GateStep(cfg, u, id, false, true, "");
    ExecutorKeeps(cfg, u, Gate(false, true, ""));
    var v := AfterStep(cfg, u, Gate(false, true, ""));
    InControl(cfg, v);
    RouteStep(cfg, v, id, Some(true));
    ExecutorKeeps(cfg, v, Route(Some(true)));
    t := AfterStep(cfg, v, Route(Some(true)));
    KeptOn(u, v, t);
    KeptOn(s, u, t);
  }

  lemma ReservedOnce(ops: seq<SequenceLease.Op>, account: string)
    ensures Reservation(ops, account, Some(1)).Some?
  {
  }

  /** Sent and found validated, whichever way it is sent. */
  lemma Sending(cfg: Config, s: Sys, id: nat, r: TxResult)
    requires id < |s.db.outbox| && Holds(s, id, SendStage(s.db.outbox[id])) && Succeeds(r)
    ensures var t := Next(cfg, s, SendLabel(s.db.outbox[id], r));
            t == s.(worker := At(s.worker, Succeeded(r)), wire := t.wire, ops := t.ops)
  {
    SuccessIsSuccess();
    hide Next, ClassifyResult, SequenceError, Forgets, Reservation;
    var l := SendLabel(s.db.outbox[id], r);
    if HasBlob(s.db.outbox[id]) {
      BlobStep(cfg, s, id, l.reply, l.lookup);
    } else {
      ReservedOnce(s.ops, s.db.outbox[id].tx.account);
      SendStep(cfg, s, id, 0, l, l.reply);
    }
  }

  /** Sent, found validated, written, recorded. */
  lemma Succeed(cfg: Config, s: Sys, id: nat, r: TxResult) returns (t: Sys)
    requires Reachable(cfg, s) && id < |s.db.outbox| && Holds(s, id, SendStage(s.db.outbox[id])) && Succeeds(r)
    ensures Reachable(cfg, t) && Kept(s, t) && PlaceOf(t.worker, id) == Outside
    ensures t.db.outbox[id] == s.db.outbox[id].(status := Validated, txHash := Some("H"), txResult := Some(r))
    ensures Recorded(t.db.transactions, "H")
  {
    hide Reachable, Next, Kept, ControlInv;
    InControl(cfg, s);
    Sending(cfg, s, id, r);
    var l := SendLabel(s.db.outbox[id], r);
    ExecutorKeeps(cfg, s, l);
    var u := AfterStep(cfg, s, l);
    InControl(cfg, u);
    WriteStep(cfg, u, id, PATCH.(txResult := Some(Some(r))), Some(RECORD));
    ExecutorKeeps(cfg, u, WriteOutcome);
    var v := AfterStep(cfg, u, WriteOutcome);
    InControl(cfg, v);
    RecordStep(cfg, v, id, RECORD);
    ExecutorKeeps(cfg, v, RecordTx);
    t := AfterStep(cfg, v, RecordTx);
    RecordedAfter(v.db.transactions, RECORD, "H");
    KeptOn(s, u, v);
    KeptOn(s, v, t);
    LetGo(v, id);
  }

  lemma LetGo(s: Sys, id: nat)
    requires ControlInv(s) && s.worker.Executing? && s.worker.queue[0] == id
    ensures PlaceOf(Finish(s.worker), id) == Outside
  {
    var q := s.worker.queue;
    assert id !in q[1..];
  }

  // ---------- main result ----------

  /**
   * The row has gone through and its aggregate is enriched; apart from that only rows the executor had
   * still to do with have changed.
   */
  ghost predicate GoneThrough(s: Sys, t: Sys, id: nat, r: TxResult) {
    && id < |s.db.outbox| == |t.db.outbox|
    && t.db.outbox[id] == Outcome(s.db.outbox[id], r) && Recorded(t.db.transactions, "H")
    && (forall i: nat | i < |s.db.outbox| && AtRest(s, i) :: t.db.outbox[i] == s.db.outbox[i])
    && t.db == Enriched(s.db.(outbox := t.db.outbox, transactions := t.db.transactions), Outcome(s.db.outbox[id], r))
  }

  lemma AfterSuccess(cfg: Config, s: Sys, id: nat, r: TxResult) returns (t: Sys)
    requires Submitting(cfg) && Reachable(cfg, s) && ToSend(s, id) && Succeeds(r)
    ensures Reachable(cfg, t) && t.worker.Idle? && GoneThrough(s, t, id, r)
  {
    hide Reachable, Next, AtRest, Recorded, ToSend, Quiet, ClaimableIds;
    var u := ToSending(cfg, s, id);
    var v := Succeed(cfg, u, id, r);
    var w := GiveUp(cfg, v, id);
    KeptOn(s, u, v);
    KeptOn(s, v, w);
    EnrichStep(cfg, w, id);
    t := AfterStep(cfg, w, Enrich(id));
    OnlyTheAggregate(w.db, w.db.outbox[id]);
  }

  lemma OnlyTheAggregate(db: Db, row: Row)
    ensures Enriched(db, row).outbox == db.outbox && Enriched(db, row).transactions == db.transactions
  {
  }

  /**
   * Every reachable state, whatever the worker is doing, leads on to one where a row that is to be sent
   * is about to be sent, as a blob if both parties signed it, and from there to one where it is validated,
   * its transaction recorded and its aggregate enriched.
   */
  lemma SuccessIsReachable(cfg: Config, s: Sys, id: nat, r: TxResult)
    requires Submitting(cfg) && Reachable(cfg, s) && ToSend(s, id) && Succeeds(r)
    ensures exists t: Sys :: Reachable(cfg, t) && Kept(s, t) && Holds(t, id, SendStage(s.db.outbox[id]))
    ensures exists t: Sys :: Reachable(cfg, t) && t.worker.Idle? && GoneThrough(s, t, id, r)
  {
    hide Reachable, Kept, GoneThrough, ToSend;
    var u := ToSending(cfg, s, id);
    var t := AfterSuccess(cfg, s, id, r);
  }
}
