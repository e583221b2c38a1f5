/** What becomes of a row that was sent, over every run, by the text of the ledger's answers. */
module Verdicts {
  import opened Options
  import opened SharedTypes
  import opened OutboxDb
  import opened Classify
  import opened Protocol
  import opened Control
  import opened Progress
  import opened TxExecutor
  import opened RowEffects
  import opened Outcomes

  /** The row is as the patch says, and what is to be recorded comes next. */
  ghost predicate Wrote(before: Sys, after: Sys, id: nat, patch: Patch, toRecord: Option<TxRecord>) {
    && before.worker.Executing? && before.worker.queue != [] && before.worker.queue[0] == id
    && id < |before.db.outbox| && id < |after.db.outbox|
    && after.db.outbox[id] == Apply(before.db.outbox[id], patch)
    && (if toRecord.Some? then
          after.worker.Executing? && after.worker.queue == before.worker.queue
          && after.worker.stage == Recording(toRecord.value)
        else after.worker == Finish(before.worker))
  }

  lemma Writes(cfg: Config, s: Sys, patch: Patch, toRecord: Option<TxRecord>)
    requires ControlInv(s) && s.worker.Executing? && s.worker.stage == Verdict(patch, toRecord)
    ensures Wrote(s, Next(cfg, s, WriteOutcome), s.worker.queue[0], patch, toRecord)
  {
  }

  lemma SignedStageOf(cfg: Config, s: Sys, l: Label)
    requires ControlInv(s) && SignsAndSends(cfg, s, l)
    ensures s.worker.Executing? && s.worker.stage.Attempt? && s.worker.queue != []
    ensures Next(cfg, s, l).worker == At(s.worker, SentStage(s.worker.stage.n, l.hash, l.reply, l.lookup))
  {
    SigningStep(cfg, s, l);
    hide SentStage, Reservation, ControlInv;
  }

  /**
   * When a self-signed transaction was answered, whatever is called meanwhile: on a retry code it is sent again, up
   * to twice; otherwise a validated result with a success code makes the row validated and one with another code
   * failed, a success that is not found goes to manual review, a review code too, and any other code fails.
   */
  lemma SignedAnswerDecides(cfg: Config, labels: seq<Label>, states: seq<Sys>, j: nat, k: nat)
    returns (id: nat, patch: Patch, toRecord: Option<TxRecord>)
    requires IsRun(cfg, labels, states) && j < k < |labels| && forall m | j < m < k :: labels[m].Api?
    requires SignsAndSends(cfg, states[j], labels[j]) && labels[j].reply.Answer? && labels[k] == WriteOutcome
    ensures states[j].worker.Executing? && states[j].worker.stage.Attempt? && states[j].worker.queue != []
    ensures id == states[j].worker.queue[0]
    ensures var again := IsRetry(labels[j].reply.engine) && states[j].worker.stage.n < 2;
            && (again <==> states[j + 1].worker.Executing? && states[j + 1].worker.stage.Attempt?)
            && (!again ==>
                  && SignedOutcome(labels[j].hash, labels[j].reply.engine, labels[j].reply.result, labels[j].lookup, patch, toRecord)
                  && Wrote(states[k], states[k + 1], id, patch, toRecord))
  {
    hide Run, Next, ControlInv, SignedOutcome, OnlySignatures, SentStage, Wrote;
    var l, reply := labels[j], labels[j].reply;
    ControlAt(cfg, labels, states, j);
    ControlAt(cfg, labels, states, k);
    assert Moment(j) && Moment(k);
    SignedStageOf(cfg, states[j], l);
    CallsInBetween(cfg, labels, states, j + 1, k);
    id := states[j].worker.queue[0];
    patch, toRecord := NO_PATCH, None;
    SignedByText(states[j].worker.stage.n, l.hash, reply.engine, reply.hash, reply.result, l.lookup);
    var stage := states[j + 1].worker.stage;
    if stage.Verdict? {
      patch, toRecord := stage.patch, stage.toRecord;
      Writes(cfg, states[k], patch, toRecord);
    }
  }

  /** The step sends the front row's blob. */
  ghost predicate SendsBlob(cfg: Config, s: Sys, l: Label) { l.SendBlob? && |Next(cfg, s, l).wire| > |s.wire| }

  lemma BlobStageOf(cfg: Config, s: Sys, l: Label)
    requires ControlInv(s) && SendsBlob(cfg, s, l)
    ensures s.worker.Executing? && s.worker.queue != [] && s.worker.queue[0] < |s.db.outbox|
    ensures Next(cfg, s, l).worker == At(s.worker, BlobStage(s.db.outbox[s.worker.queue[0]], l.reply, l.lookup))
  {
    hide BlobStage, RouteStage, GateStage;
  }

  /**
   * When a cosigned blob was answered, whatever is called meanwhile: with a hash and a success code, a validated
   * result decides as above and without one the row stays submitted; a review code leads to manual review, a retry
   * code leaves the row submitted, and anything else fails.
   */
  lemma BlobAnswerDecides(cfg: Config, labels: seq<Label>, states: seq<Sys>, j: nat, k: nat)
    returns (id: nat, patch: Patch, toRecord: Option<TxRecord>)
    requires IsRun(cfg, labels, states) && j < k < |labels| && forall m | j < m < k :: labels[m].Api?
    requires SendsBlob(cfg, states[j], labels[j]) && labels[j].reply.Answer? && labels[k] == WriteOutcome
    ensures states[j].worker.Executing? && states[j].worker.queue != [] && id == states[j].worker.queue[0]
    ensures id < |states[j].db.outbox|
    ensures BlobOutcome(states[j].db.outbox[id], labels[j].reply.hash, labels[j].reply.engine, labels[j].reply.result,
                        labels[j].lookup, patch, toRecord)
    ensures Wrote(states[k], states[k + 1], id, patch, toRecord)
  {
    hide Run, Next, ControlInv, BlobOutcome, OnlySignatures, BlobStage, Wrote;
    var l, reply := labels[j], labels[j].reply;
    ControlAt(cfg, labels, states, j);
    ControlAt(cfg, labels, states, k);
    assert Moment(j) && Moment(k);
    BlobStageOf(cfg, states[j], l);
    CallsInBetween(cfg, labels, states, j + 1, k);
    id := states[j].worker.queue[0];
    BlobByText(states[j].db.outbox[id], reply.engine, reply.hash, reply.result, l.lookup);
    var stage := states[j + 1].worker.stage;
    patch, toRecord := stage.patch, stage.toRecord;
    Writes(cfg, states[k], patch, toRecord);
  }

  // ---------- turned away ----------

  lemma GateStageOf(cfg: Config, s: Sys, l: Label)
    requires ControlInv(s) && s.worker.Executing? && s.worker.stage == Claimed && l.Gate?
    ensures s.worker.queue != []
    ensures Next(cfg, s, l).worker == At(s.worker, GateStage(cfg, l.feeSpike, l.connects, l.hash))
  {
    hide GateStage;
  }

  /**
   * At the gate, whatever is called meanwhile, a row is blocked if lending is off or fees spike, prepared in a dry
   * run, failed if the ledger does not connect, and else marked.
   */
  lemma GateDecides(cfg: Config, labels: seq<Label>, states: seq<Sys>, j: nat, k: nat)
    returns (id: nat, patch: Patch, toRecord: Option<TxRecord>)
    requires IsRun(cfg, labels, states) && j < k < |labels| && forall m | j < m < k :: labels[m].Api?
    requires states[j].worker.Executing? && states[j].worker.stage == Claimed && labels[j].Gate? && labels[k] == WriteOutcome
    ensures states[j].worker.queue != [] && id == states[j].worker.queue[0]
    ensures var l := labels[j];
            if cfg.lendingEnabled && !cfg.dryRun && !l.feeSpike && l.connects then
              states[j + 1].worker == At(states[j].worker, Marked)
            else
              && Wrote(states[k], states[k + 1], id, patch, toRecord)
              && (if cfg.lendingEnabled && cfg.dryRun then
                    patch == Patch(Some(Prepared), Some(Some(l.hash)), Some(Some(TxResult(false, None, None))), None)
                    && toRecord == Some(TxRecord(l.hash, "DRY_RUN"))
                  else TurnedAway(if !cfg.lendingEnabled || l.feeSpike then Blocked else Failed, patch, toRecord))
  {
    hide Run, Next, ControlInv, OnlySignatures, GateStage, Wrote;
    var l := labels[j];
    ControlAt(cfg, labels, states, j);
    ControlAt(cfg, labels, states, k);
    assert Moment(j) && Moment(k);
    GateStageOf(cfg, states[j], l);
    CallsInBetween(cfg, labels, states, j + 1, k);
    id := states[j].worker.queue[0];
    GateByCase(cfg, l.feeSpike, l.connects, l.hash);
    var stage := states[j + 1].worker.stage;
    patch, toRecord := NO_PATCH, None;
    if stage.Verdict? {
      patch, toRecord := stage.patch, stage.toRecord;
      Writes(cfg, states[k], patch, toRecord);
    }
  }

  lemma RouteStageOf(cfg: Config, s: Sys, l: Label)
    requires ControlInv(s) && s.worker.Executing? && s.worker.stage == Marked && l.Route?
    ensures s.worker.queue != [] && s.worker.queue[0] < |s.db.outbox|
    ensures Next(cfg, s, l).worker == At(s.worker, RouteStage(s.db.outbox[s.worker.queue[0]], l.holdsKey))
  {
    hide RouteStage;
  }

  /** A marked row goes the way of its blob if it is a LoanSet with one; else it is signed, blocked or failed by what the key store says. */
  lemma RouteDecides(cfg: Config, labels: seq<Label>, states: seq<Sys>, j: nat, k: nat)
    returns (id: nat, patch: Patch, toRecord: Option<TxRecord>)
    requires IsRun(cfg, labels, states) && j < k < |labels| && forall m | j < m < k :: labels[m].Api?
    requires states[j].worker.Executing? && states[j].worker.stage == Marked && labels[j].Route? && labels[k] == WriteOutcome
    ensures states[j].worker.queue != [] && id == states[j].worker.queue[0] < |states[j].db.outbox|
    ensures var row, l := states[j].db.outbox[id], labels[j];
            if row.kind == LoanSet && Truthy(row.meta.counterpartyBlob) then states[j + 1].worker == At(states[j].worker, BlobReady)
            else if l.holdsKey == Some(true) then states[j + 1].worker == At(states[j].worker, Attempt(0))
            else Wrote(states[k], states[k + 1], id, patch, toRecord)
                 && TurnedAway(if l.holdsKey == Some(false) then Blocked else Failed, patch, toRecord)
  {
    hide Run, Next, ControlInv, OnlySignatures, RouteStage, Wrote;
    var l := labels[j];
    ControlAt(cfg, labels, states, j);
    ControlAt(cfg, labels, states, k);
    assert Moment(j) && Moment(k);
    RouteStageOf(cfg, states[j], l);
    CallsInBetween(cfg, labels, states, j + 1, k);
    id := states[j].worker.queue[0];
    RouteByCase(states[j].db.outbox[id], l.holdsKey);
    var stage := states[j + 1].worker.stage;
    patch, toRecord := NO_PATCH, None;
    if stage.Verdict? {
      patch, toRecord := stage.patch, stage.toRecord;
      Writes(cfg, states[k], patch, toRecord);
    }
  }

  /** Without an answer: a blob's row fails; a self-signed one's is sent again if the error allows it, up to twice, and else fails. */
  lemma SilenceDecides(cfg: Config, labels: seq<Label>, states: seq<Sys>, j: nat, k: nat)
    returns (id: nat, patch: Patch, toRecord: Option<TxRecord>)
    requires IsRun(cfg, labels, states) && j < k < |labels| && forall m | j < m < k :: labels[m].Api?
    requires SendsBlob(cfg, states[j], labels[j]) || SignsAndSends(cfg, states[j], labels[j])
    requires labels[j].reply.SentThrew? && labels[k] == WriteOutcome
    ensures states[j].worker.Executing? && states[j].worker.queue != [] && id == states[j].worker.queue[0]
    ensures var again := labels[j].SignAndSend? && labels[j].reply.retryable
                         && states[j].worker.stage.Attempt? && states[j].worker.stage.n < 2;
            if again then states[j + 1].worker == At(states[j].worker, Attempt(states[j].worker.stage.n + 1))
            else Wrote(states[k], states[k + 1], id, patch, toRecord) && Unanswered(patch, toRecord)
  {
    hide Run, Next, ControlInv, OnlySignatures, SentStage, BlobStage, Wrote;
    var l := labels[j];
    ControlAt(cfg, labels, states, j);
    ControlAt(cfg, labels, states, k);
    assert Moment(j) && Moment(k);
    if l.SendBlob? { BlobStageOf(cfg, states[j], l); } else { SignedStageOf(cfg, states[j], l); }
    CallsInBetween(cfg, labels, states, j + 1, k);
    id := states[j].worker.queue[0];
    FrontRow(states[j]);
    UnansweredByText(if l.SignAndSend? then states[j].worker.stage.n else 0, if l.SignAndSend? then l.hash else "",
                     states[j].db.outbox[id], l.reply, l.lookup);
    var stage := states[j + 1].worker.stage;
    patch, toRecord := NO_PATCH, None;
    if stage.Verdict? {
      patch, toRecord := stage.patch, stage.toRecord;
      Writes(cfg, states[k], patch, toRecord);
    }
  }

  lemma FrontRow(s: Sys)
    requires ControlInv(s) && s.worker.Executing?
    ensures s.worker.queue != [] && s.worker.queue[0] < |s.db.outbox|
  {
  }
}
