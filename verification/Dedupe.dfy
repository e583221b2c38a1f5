/** Dedupe keys over every run: one open row a key, and done rows stay done. */
module Dedupe {
  import opened Options
  import opened SharedTypes
  import opened OutboxDb
  import opened Protocol
  import opened ServiceCalls
  import opened Control
  import opened Reachability

  /** States a row never leaves for an open one. */
  predicate Done(s: Status) {
    s == Validated || s == Indexed || s == Reconciled || s == Failed || s == Closed
  }

  ghost predicate OneOpen(outbox: seq<Row>) {
    forall i, j | 0 <= i < j < |outbox| && outbox[i].dedupeKey.Some? && outbox[i].dedupeKey == outbox[j].dedupeKey ::
      Done(outbox[i].status) || Done(outbox[j].status)
  }

  /** How any step of a run may change an existing row. */
  predicate StepMoves(before: Row, after: Row) {
    && after.dedupeKey == before.dedupeKey
    && (Done(before.status) ==> Done(after.status))
    && (before.status in {Reconciled, Failed, Closed} ==> after.status == before.status)
  }

  ghost predicate StepsMove(before: seq<Row>, after: seq<Row>) {
    |before| <= |after| && forall i | 0 <= i < |before| :: StepMoves(before[i], after[i])
  }

  lemma ApiMoves(outbox: seq<Row>, c: Change)
    requires Enabled(outbox, c)
    ensures StepsMove(outbox, Changed(outbox, c))
  {
  }

  lemma RowsMoveSteps(s: Sys, t: Sys)
    requires RowsMove(s, t)
    ensures StepsMove(s.db.outbox, t.db.outbox)
  {
    forall i | 0 <= i < |s.db.outbox| ensures StepMoves(s.db.outbox[i], t.db.outbox[i]) {
      assert WorkerMoves(s.db.outbox[i], t.db.outbox[i]);
    }
  }

  lemma NextMoves(cfg: Config, s: Sys, l: Label)
    requires ControlInv(s)
    ensures StepsMove(s.db.outbox, Next(cfg, s, l).db.outbox)
  {
    hide Next, Changed, Enabled;
    match l
    case Api(call) =>
      ApiStep(cfg, s, call);
      ApiMoves(s.db.outbox, ChangeOf(s.db, call));
    case _ =>
      WorkerStepMoves(cfg, s, l);
      RowsMoveSteps(s, Next(cfg, s, l));
  }

  lemma OneOpenKept(before: seq<Row>, after: seq<Row>)
    requires OneOpen(before) && StepsMove(before, after) && |before| == |after|
    ensures OneOpen(after)
  {
    forall i, j | 0 <= i < j < |after| && after[i].dedupeKey.Some? && after[i].dedupeKey == after[j].dedupeKey
      ensures Done(after[i].status) || Done(after[j].status)
    {
      assert StepMoves(before[i], after[i]) && StepMoves(before[j], after[j]);
    }
  }

  lemma OneOpenNext(cfg: Config, s: Sys, l: Label)
    requires ControlInv(s) && OneOpen(s.db.outbox)
    ensures OneOpen(Next(cfg, s, l).db.outbox)
  {
    hide Next, OneOpen, Changed, Enabled;
    match l
    case Api(call) =>
      ApiStep(cfg, s, call);
      OneOpenApi(s.db.outbox, ChangeOf(s.db, call));
    case _ =>
      WorkerStepMoves(cfg, s, l);
      RowsMoveSteps(s, Next(cfg, s, l));
      OneOpenKept(s.db.outbox, Next(cfg, s, l).db.outbox);
  }

  lemma OneOpenApi(outbox: seq<Row>, c: Change)
    requires OneOpen(outbox) && Enabled(outbox, c)
    ensures OneOpen(Changed(outbox, c))
  {
    var after := Changed(outbox, c);
    forall i, j | 0 <= i < j < |after| && after[i].dedupeKey.Some? && after[i].dedupeKey == after[j].dedupeKey
      ensures Done(after[i].status) || Done(after[j].status)
    {
      if j < |outbox| {
        assert Done(outbox[i].status) || Done(outbox[j].status);
      } else {
        assert !KeyTaken(outbox, c.input.dedupeKey.value);
        assert IsTerminal(outbox[i].status);
      }
    }
  }

  lemma {:induction false} OneOpenHolds(cfg: Config, labels: seq<Label>)
    ensures OneOpen(Run(cfg, labels).db.outbox)
  {
    hide Next;
    if labels != [] {
      var front := labels[..|labels| - 1];
      OneOpenHolds(cfg, front);
      ControlHolds(cfg, front);
      OneOpenNext(cfg, Run(cfg, front), labels[|labels| - 1]);
    }
  }

  /** In every state of every run a key has at most one row outside the done states. */
  lemma OneOpenRowPerKey(cfg: Config, s: Sys)
    requires Reachable(cfg, s)
    ensures OneOpen(s.db.outbox)
  {
    hide Run, Reachable, OneOpen;
    var labels := ReachedBy(cfg, s);
    OneOpenHolds(cfg, labels);
  }

  /** However a run goes on, rows keep their keys, done rows stay done and reconciled rows reconciled. */
  lemma {:induction false} DoneIsForever(cfg: Config, labels: seq<Label>, more: seq<Label>)
    ensures StepsMove(Run(cfg, labels).db.outbox, Run(cfg, labels + more).db.outbox)
    decreases |more|
  {
    hide Run, Next;
    if more == [] {
      assert labels + more == labels;
    } else {
      var front, l := more[..|more| - 1], more[|more| - 1];
      DoneIsForever(cfg, labels, front);
      ControlHolds(cfg, labels + front);
      NextMoves(cfg, Run(cfg, labels + front), l);
      RunLast(cfg, labels + front, l);
      assert labels + more == (labels + front) + [l];
    }
  }

  /** A key with a reconciled row is rejected in every later state. */
  lemma ReconciledKeyIsSpent(cfg: Config, labels: seq<Label>, more: seq<Label>, i: nat)
    requires var outbox := Run(cfg, labels).db.outbox;
             i < |outbox| && outbox[i].status == Reconciled && outbox[i].dedupeKey.Some?
    ensures KeyTaken(Run(cfg, labels + more).db.outbox, Run(cfg, labels).db.outbox[i].dedupeKey.value)
  {
    hide Run;
    DoneIsForever(cfg, labels, more);
    var before, after := Run(cfg, labels).db.outbox, Run(cfg, labels + more).db.outbox;
    assert StepMoves(before[i], after[i]);
  }

  // ---------- one row a key goes through ----------

  /** A validated row, and what becomes of it. */
  predicate WentThrough(s: Status) { s == Validated || s == Indexed || s == Reconciled }

  lemma StepAt(cfg: Config, labels: seq<Label>, states: seq<Sys>, k: nat)
    requires IsRun(cfg, labels, states) && k < |labels|
    ensures StepsMove(states[k].db.outbox, states[k + 1].db.outbox)
    ensures |states[k + 1].db.outbox| > |states[k].db.outbox| ==>
              && labels[k].Api? && |states[k + 1].db.outbox| == |states[k].db.outbox| + 1
              && !Rejects(states[k].db.outbox, states[k + 1].db.outbox[|states[k].db.outbox|].dedupeKey)
  {
    hide Run, Next, ControlInv, StepsMove;
    StateAt(cfg, labels, states, k);
    ControlHolds(cfg, labels[..k]);
    assert Moment(k);
    NextMoves(cfg, states[k], labels[k]);
    match labels[k]
    case Api(call) => ApiStep(cfg, states[k], call);
    case _ => WorkerStepMoves(cfg, states[k], labels[k]);
  }

  lemma MovesAddUp(a: seq<Row>, b: seq<Row>, c: seq<Row>)
    requires StepsMove(a, b) && StepsMove(b, c)
    ensures StepsMove(a, c)
  {
    forall i | 0 <= i < |a| ensures StepMoves(a[i], c[i]) {
      assert StepMoves(a[i], b[i]) && StepMoves(b[i], c[i]);
    }
  }

  lemma {:induction false} MovesUntil(cfg: Config, labels: seq<Label>, states: seq<Sys>, j: nat, k: nat)
    requires IsRun(cfg, labels, states) && j <= k <= |labels|
    ensures StepsMove(states[j].db.outbox, states[k].db.outbox)
    decreases k - j
  {
    if j < k {
      hide StepsMove;
      StepAt(cfg, labels, states, j);
      MovesUntil(cfg, labels, states, j + 1, k);
      MovesAddUp(states[j].db.outbox, states[j + 1].db.outbox, states[k].db.outbox);
    }
  }

  /** When row j was added. */
  lemma {:induction false} AddedAt(cfg: Config, labels: seq<Label>, states: seq<Sys>, j: nat, k: nat) returns (m: nat)
    requires IsRun(cfg, labels, states) && k <= |labels| && j < |states[k].db.outbox|
    ensures m < k && |states[m].db.outbox| == j && |states[m + 1].db.outbox| == j + 1
  {
    hide StepsMove;
    StepAt(cfg, labels, states, k - 1);
    if j < |states[k - 1].db.outbox| {
      m := AddedAt(cfg, labels, states, j, k - 1);
    } else {
      m := k - 1;
    }
  }

  /**
   * If two rows with one key go through, the second was accepted while the first was validated or
   * indexed. So as long as no call with a key is accepted while a row with it is, one row a key goes
   * through at most.
   */
  lemma SecondWasAcceptedTooEarly(cfg: Config, labels: seq<Label>, states: seq<Sys>, i: nat, j: nat, k: nat) returns (m: nat)
    requires IsRun(cfg, labels, states) && k <= |labels| && i < j < |states[k].db.outbox|
    requires states[k].db.outbox[i].dedupeKey.Some?
             && states[k].db.outbox[j].dedupeKey == states[k].db.outbox[i].dedupeKey
    requires WentThrough(states[k].db.outbox[i].status) && WentThrough(states[k].db.outbox[j].status)
    ensures m < k && labels[m].Api? && |states[m].db.outbox| == j && |states[m + 1].db.outbox| == j + 1
    ensures states[m].db.outbox[i].status in {Validated, Indexed}
  {
    hide StepsMove;
    m := AddedAt(cfg, labels, states, j, k);
    StepAt(cfg, labels, states, m);
    MovesUntil(cfg, labels, states, m, k);
    MovesUntil(cfg, labels, states, m + 1, k);
    RowMoved(states[m].db.outbox, states[k].db.outbox, i);
    RowMoved(states[m + 1].db.outbox, states[k].db.outbox, j);
    var key := states[k].db.outbox[i].dedupeKey.value;
    assert !KeyTaken(states[m].db.outbox, key);
    assert IsTerminal(states[m].db.outbox[i].status);
  }

  lemma RowMoved(before: seq<Row>, after: seq<Row>, i: nat)
    requires StepsMove(before, after) && i < |before|
    ensures i < |after| && StepMoves(before[i], after[i])
  {
  }

  /** The executor has nothing to do with a row that went through. */
  lemma ThroughIsAtRest(s: Sys, i: nat)
    requires ControlInv(s) && i < |s.db.outbox| && s.db.outbox[i].status in {Validated, Indexed}
    ensures AtRest(s, i)
  {
    assert RowOk(s.db.outbox[i], PlaceOf(s.worker, i));
  }

  lemma NewIsToSend(s: Sys, id: nat)
    requires ControlInv(s) && id + 1 == |s.db.outbox| && s.db.outbox[id].status == Pending
    ensures ToSend(s, id)
  {
    assert RowOk(s.db.outbox[id], PlaceOf(s.worker, id));
  }

  /** And every such acceptance, whatever the worker is doing, leads on to a state in which both rows have gone through. */
  lemma AcceptedTooEarlyGoesThroughTwice(cfg: Config, s: Sys, call: Call, i: nat) returns (t: Sys)
    requires Submitting(cfg) && Reachable(cfg, s)
    requires ChangeOf(s.db, call).Added? && i < |s.db.outbox|
    requires s.db.outbox[i].dedupeKey == ChangeOf(s.db, call).input.dedupeKey && s.db.outbox[i].status in {Validated, Indexed}
    ensures Reachable(cfg, t)
    ensures var j := |s.db.outbox|;
            && |t.db.outbox| == j + 1 && t.db.outbox[i].dedupeKey == t.db.outbox[j].dedupeKey
            && WentThrough(t.db.outbox[i].status) && WentThrough(t.db.outbox[j].status)
  {
    hide Reachable, Handle, ChangeOf, Protocol.Enriched, ControlInv, AtRest, ToSend;
    var j := |s.db.outbox|;
    var u := AfterCall(cfg, s, call);
    HandleChanges(s.db, call);
    InControl(cfg, u);
    ThroughIsAtRest(u, i);
    NewIsToSend(u, j);
    var r := TxResult(true, None, Some(TxMeta(Some("tesSUCCESS"), [])));
    t := AfterSuccess(cfg, u, j, r);
  }
}
