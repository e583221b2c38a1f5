/** The executor gets rid of what it claims: bounds on claims, submissions and passes. */
module Progress {
  import opened Options
  import opened SharedTypes
  import opened OutboxDb
  import opened Protocol
  import opened ServiceCalls
  import opened Control

  // ---------- claims ----------

  lemma ControlAt(cfg: Config, labels: seq<Label>, states: seq<Sys>, k: nat)
    requires IsRun(cfg, labels, states) && k <= |labels|
    ensures ControlInv(states[k])
  {
    hide Run, Next;
    StateAt(cfg, labels, states, k);
    ControlHolds(cfg, labels[..k]);
  }

  /** In every state of every run no row has been claimed twice, and between passes none is left in processing. */
  lemma ClaimedAtMostOnce(cfg: Config, s: Sys, i: nat)
    requires Reachable(cfg, s) && i < |s.db.outbox|
    ensures var row := s.db.outbox[i];
            && row.attempts <= 1
            && (s.worker.Idle? ==> row.status != Processing && (row.attempts == 1 ==> Settled(row.status)))
  {
    hide Run, Reachable;
    var labels := ReachedBy(cfg, s);
    ControlHolds(cfg, labels);
    assert RowOk(s.db.outbox[i], PlaceOf(s.worker, i));
  }

  /** No worker write makes a row claimable. */
  lemma WorkerNeverReopens(cfg: Config, labels: seq<Label>, states: seq<Sys>, k: nat, i: nat)
    requires IsRun(cfg, labels, states) && k < |labels| && !labels[k].Api? && i < |states[k].db.outbox|
    ensures var before, after := states[k].db.outbox, states[k + 1].db.outbox;
            i < |after| && (Claimable(after[i].status) ==> after[i].status == before[i].status)
  {
    hide Next;
    ControlAt(cfg, labels, states, k);
    assert Moment(k);
    WorkerStepMoves(cfg, states[k], labels[k]);
    assert WorkerMoves(states[k].db.outbox[i], states[k + 1].db.outbox[i]);
  }

  // ---------- submissions ----------

  ghost function Sent(wire: seq<Submission>, row: nat): nat {
    if wire == [] then 0
    else Sent(wire[..|wire| - 1], row) + if wire[|wire| - 1].row == row then 1 else 0
  }

  lemma SentLast(wire: seq<Submission>, x: Submission, row: nat)
    ensures Sent(wire + [x], row) == Sent(wire, row) + if x.row == row then 1 else 0
  {
    assert (wire + [x])[..|wire|] == wire;
  }

  /** How many submissions a row can have seen where it is now. */
  ghost function MaySend(row: Row, place: Place): nat {
    match place
    case Outside => if row.attempts == 0 then 0 else MAX_SUBMIT_RETRIES + 1
    case Waiting => 0
    case Front(stage) =>
      match stage
      case Claimed => 0
      case Marked => 0
      case BlobReady => 0
      case Attempt(n) => n
      case Verdict(_, _) => MAX_SUBMIT_RETRIES + 1
      case Recording(_) => MAX_SUBMIT_RETRIES + 1
  }

  ghost predicate SentInv(s: Sys) {
    && (forall i: nat | i < |s.db.outbox| :: Sent(s.wire, i) <= MaySend(s.db.outbox[i], PlaceOf(s.worker, i)))
    && (forall i: nat | i >= |s.db.outbox| :: Sent(s.wire, i) == 0)
  }

  lemma SentApi(s: Sys, c: Change, db: Db)
    requires ControlInv(s) && SentInv(s) && Enabled(s.db.outbox, c) && db.outbox == Changed(s.db.outbox, c)
    ensures SentInv(s.(db := db))
  {
    hide Sent;
    var t := s.(db := db);
    forall i: nat | i < |t.db.outbox| ensures Sent(t.wire, i) <= MaySend(t.db.outbox[i], PlaceOf(t.worker, i)) {
      assert PlaceOf(t.worker, i) == PlaceOf(s.worker, i);
    }
  }

  /** A step of the front row that sends at most one transaction and leaves room for it. */
  lemma SentFront(s: Sys, t: Sys)
    requires ControlInv(s) && SentInv(s) && s.worker.Executing? && |t.db.outbox| == |s.db.outbox|
    requires t.wire == s.wire || (exists x: Submission :: t.wire == s.wire + [x] && x.row == s.worker.queue[0])
    requires t.worker == Finish(s.worker)
             || (t.worker.Executing? && t.worker.queue == s.worker.queue)
    requires forall i: nat | i < |s.db.outbox| && i != s.worker.queue[0] :: t.db.outbox[i] == s.db.outbox[i]
    requires var id := s.worker.queue[0];
             MaySend(s.db.outbox[id], PlaceOf(s.worker, id)) + |t.wire| - |s.wire|
             <= MaySend(t.db.outbox[id], PlaceOf(t.worker, id))
    ensures SentInv(t)
  {
    hide Sent;
    var q := s.worker.queue;
    forall i: nat
      ensures Sent(t.wire, i) == Sent(s.wire, i) + if i == q[0] then |t.wire| - |s.wire| else 0
    {
      if t.wire != s.wire {
        var x: Submission :| t.wire == s.wire + [x] && x.row == q[0];
        SentLast(s.wire, x, i);
      }
    }
    forall i: nat | i < |t.db.outbox| ensures Sent(t.wire, i) <= MaySend(t.db.outbox[i], PlaceOf(t.worker, i)) {
      if i != q[0] {
        assert i in q[1..] <==> i in q;
        assert RowOk(s.db.outbox[i], PlaceOf(s.worker, i));
      }
    }
  }

  lemma SentExecutor(cfg: Config, s: Sys, l: Label)
    requires ControlInv(s) && SentInv(s) && s.worker.Executing?
    ensures SentInv(ExecutorStep(cfg, s, l))
  {
    hide SentInv, Sent, BlobStage, RouteStage, SignedStage;
    var t := ExecutorStep(cfg, s, l);
    var id := s.worker.queue[0];
    assert RowOk(s.db.outbox[id], PlaceOf(s.worker, id));
    if t != s {
      SendsOne(cfg, s, l);
      SentFront(s, t);
    }
  }

  lemma SendsOne(cfg: Config, s: Sys, l: Label)
    requires ControlInv(s) && s.worker.Executing? && ExecutorStep(cfg, s, l) != s
    ensures var t := ExecutorStep(cfg, s, l);
            var id := s.worker.queue[0];
            && |t.db.outbox| == |s.db.outbox|
            && (t.wire == s.wire || exists x: Submission :: t.wire == s.wire + [x] && x.row == id)
            && (t.worker == Finish(s.worker) || (t.worker.Executing? && t.worker.queue == s.worker.queue))
            && (forall i: nat | i < |s.db.outbox| && i != id :: t.db.outbox[i] == s.db.outbox[i])
            && MaySend(s.db.outbox[id], PlaceOf(s.worker, id)) + |t.wire| - |s.wire|
               <= MaySend(t.db.outbox[id], PlaceOf(t.worker, id))
  {
    var t := ExecutorStep(cfg, s, l);
    var id := s.worker.queue[0];
    assert RowOk(s.db.outbox[id], PlaceOf(s.worker, id));
    if |t.wire| > |s.wire| {
      var x := t.wire[|s.wire|];
      assert t.wire == s.wire + [x] && x.row == id;
    }
  }

  lemma SentNext(cfg: Config, s: Sys, l: Label)
    requires ControlInv(s) && SentInv(s)
    ensures SentInv(Next(cfg, s, l))
  {
    match l
    case Api(call) =>
      hide Next;
      ApiStep(cfg, s, call);
      SentApi(s, ChangeOf(s.db, call), Next(cfg, s, l).db);
    case _ =>
      hide ExecutorStep, IdleStep, SentInv;
      if s.worker.Idle? { SentIdle(cfg, s, l); } else { SentExecutor(cfg, s, l); }
  }

  lemma SentIdle(cfg: Config, s: Sys, l: Label)
    requires ControlInv(s) && SentInv(s) && s.worker.Idle?
    ensures SentInv(IdleStep(cfg, s, l))
  {
    hide Sent, CreatedIds;
    ClaimableIdsFacts(s.db.outbox);
    hide ClaimableIds;
    var t := IdleStep(cfg, s, l);
    IdleMoves(cfg, s, l);
    forall i: nat | i < |t.db.outbox| ensures Sent(t.wire, i) <= MaySend(t.db.outbox[i], PlaceOf(t.worker, i)) {
      assert RowOk(s.db.outbox[i], PlaceOf(s.worker, i));
      assert WorkerMoves(s.db.outbox[i], t.db.outbox[i]);
    }
  }

  lemma {:induction false} SentHolds(cfg: Config, labels: seq<Label>)
    ensures SentInv(Run(cfg, labels))
  {
    hide Next;
    if labels != [] {
      var front := labels[..|labels| - 1];
      SentHolds(cfg, front);
      ControlHolds(cfg, front);
      SentNext(cfg, Run(cfg, front), labels[|labels| - 1]);
    }
  }

  /** Whatever the ledger answers or throws, in every state of every run at most three submit requests were made for a row. */
  lemma AtMostThreeSubmits(cfg: Config, s: Sys, i: nat)
    requires Reachable(cfg, s)
    ensures Sent(s.wire, i) <= 3
  {
    hide Run, Sent, Reachable;
    var labels := ReachedBy(cfg, s);
    SentHolds(cfg, labels);
    ControlHolds(cfg, labels);
    if i < |s.db.outbox| { assert RowOk(s.db.outbox[i], PlaceOf(s.worker, i)); }
  }

  // ---------- a pass ends ----------

  /** Steps a stage can still take. */
  function StageSteps(stage: Stage): nat {
    match stage
    case Claimed => 7
    case Marked => 6
    case BlobReady => 3
    case Attempt(n) => if n <= MAX_SUBMIT_RETRIES then 5 - n else 3
    case Verdict(_, _) => 2
    case Recording(_) => 1
  }

  /** Steps the worker can still take before it is idle. */
  function StepsLeft(w: Worker): nat {
    match w
    case Idle => 0
    case Executing(queue, stage) => if queue == [] then 0 else 7 * (|queue| - 1) + StageSteps(stage)
  }

  /** The step the worker takes next, whatever it is answered. */
  predicate IsNextStep(stage: Stage, l: Label) {
    match stage
    case Claimed => l.Gate?
    case Marked => l.Route?
    case BlobReady => l.SendBlob?
    case Attempt(_) => l.SignAndSend?
    case Verdict(_, _) => l.WriteOutcome?
    case Recording(_) => l.RecordTx?
  }

  lemma StepsGoDown(cfg: Config, s: Sys, l: Label)
    requires ControlInv(s) && s.worker.Executing? && IsNextStep(s.worker.stage, l)
    ensures StepsLeft(Next(cfg, s, l).worker) < StepsLeft(s.worker)
  {
    var id := s.worker.queue[0];
    assert RowOk(s.db.outbox[id], PlaceOf(s.worker, id));
  }

  /** While the worker is busy, its labels are the ones it is waiting for. */
  ghost predicate Fair(s: Sys, l: Label) { s.worker.Executing? && !l.Api? ==> IsNextStep(s.worker.stage, l) }

  ghost predicate FairBetween(labels: seq<Label>, states: seq<Sys>, k: nat, n: nat)
    requires k <= n <= |labels| && |states| == |labels| + 1
  {
    forall j | k <= j < n :: Fair(states[j], labels[j])
  }

  /** Worker steps among the labels from moment k to moment n. */
  ghost function WorkerSteps(labels: seq<Label>, k: nat, n: nat): nat
    requires k <= n <= |labels|
    decreases n - k
  {
    if k == n then 0 else WorkerSteps(labels, k + 1, n) + if labels[k].Api? then 0 else 1
  }

  /** Steps the worker still has to take go down with each of its own, and calls leave it alone. */
  lemma FairStep(cfg: Config, s: Sys, l: Label)
    requires ControlInv(s) && Fair(s, l) && s.worker.Executing?
    ensures var t := Next(cfg, s, l);
            if l.Api? then t.worker == s.worker else StepsLeft(t.worker) < StepsLeft(s.worker)
  {
    hide Next, ControlInv, RouteStage;
    match l
    case Api(call) => ApiStep(cfg, s, call);
    case _ => StepsGoDown(cfg, s, l);
  }

  lemma BusyHasSteps(s: Sys)
    requires ControlInv(s) && s.worker.Executing?
    ensures StepsLeft(s.worker) > 0
  {
  }

  lemma {:induction false} PassEnds(cfg: Config, labels: seq<Label>, states: seq<Sys>, k: nat, n: nat) returns (m: nat)
    requires IsRun(cfg, labels, states) && k <= n <= |labels| && FairBetween(labels, states, k, n)
    requires WorkerSteps(labels, k, n) >= StepsLeft(states[k].worker)
    ensures k <= m <= n && states[m].worker.Idle?
    decreases n - k
  {
    hide Next, ControlInv;
    if states[k].worker.Idle? {
      m := k;
    } else {
      ControlAt(cfg, labels, states, k);
      BusyHasSteps(states[k]);
      assert Moment(k);
      FairStep(cfg, states[k], labels[k]);
      m := PassEnds(cfg, labels, states, k + 1, n);
    }
  }

  /** A claim starts a pass of at most 7 steps a row. */
  lemma ClaimStartsPass(cfg: Config, s: Sys)
    requires ControlInv(s) && s.worker.Idle?
    ensures StepsLeft(Next(cfg, s, ClaimBatch).worker) <= 7 * cfg.batchSize
  {
  }

  /**
   * Whatever the ledger answers and whatever is called meanwhile, within 7 worker steps for each
   * row of a batch the worker is idle again and no row is in processing.
   */
  lemma EveryPassEnds(cfg: Config, labels: seq<Label>, states: seq<Sys>, k: nat, n: nat) returns (m: nat)
    requires IsRun(cfg, labels, states) && k < n <= |labels|
    requires states[k].worker.Idle? && labels[k] == ClaimBatch
    requires FairBetween(labels, states, k + 1, n) && WorkerSteps(labels, k + 1, n) >= 7 * cfg.batchSize
    ensures k < m <= n && states[m].worker.Idle?
    ensures forall i | 0 <= i < |states[m].db.outbox| :: states[m].db.outbox[i].status != Processing
  {
    hide Next, StepsLeft, WorkerSteps;
    ControlAt(cfg, labels, states, k);
    assert Moment(k);
    ClaimStartsPass(cfg, states[k]);
    m := PassEnds(cfg, labels, states, k + 1, n);
    ControlAt(cfg, labels, states, m);
    forall i | 0 <= i < |states[m].db.outbox| ensures states[m].db.outbox[i].status != Processing {
      assert RowOk(states[m].db.outbox[i], PlaceOf(states[m].worker, i));
    }
  }

  // ---------- passes drain the outbox ----------

  /** Nothing the worker has in hand could be claimed again. */
  ghost predicate Quiet(s: Sys) {
    s.worker.Executing? ==> forall i | i in s.worker.queue && i < |s.db.outbox| :: !Claimable(s.db.outbox[i].status)
  }

  ghost predicate Claims(s: Sys, l: Label) { s.worker.Idle? && l.ClaimBatch? }

  ghost predicate SameClaimable(s: Sys, t: Sys) {
    |t.db.outbox| == |s.db.outbox|
    && forall i | 0 <= i < |s.db.outbox| :: Claimable(s.db.outbox[i].status) <==> Claimable(t.db.outbox[i].status)
  }

  lemma SameClaimableIds(s: Sys, t: Sys)
    requires SameClaimable(s, t)
    ensures ClaimableIds(t.db.outbox) == ClaimableIds(s.db.outbox)
  {
    ClaimableIdsFacts(s.db.outbox);
    ClaimableIdsFacts(t.db.outbox);
    IncreasingUnique(ClaimableIds(t.db.outbox), ClaimableIds(s.db.outbox));
  }

  lemma ExecutorKeepsClaimable(cfg: Config, s: Sys, l: Label)
    requires ControlInv(s) && Quiet(s) && s.worker.Executing?
    ensures SameClaimable(s, ExecutorStep(cfg, s, l)) && Quiet(ExecutorStep(cfg, s, l))
  {
    hide ExecutorStep, MaySend;
    var t := ExecutorStep(cfg, s, l);
    var q := s.worker.queue;
    assert q[0] in q;
    ExecutorFrame(cfg, s, l);
    FrontMoves(cfg, s, l);
    if t != s { SendsOne(cfg, s, l); }
    assert forall i | i in q[1..] :: i in q;
  }

  lemma IdleKeepsClaimable(cfg: Config, s: Sys, l: Label)
    requires ControlInv(s) && s.worker.Idle? && !l.ClaimBatch?
    ensures SameClaimable(s, IdleStep(cfg, s, l)) && IdleStep(cfg, s, l).worker.Idle?
  {
    hide CreatedIds, ControlInv;
  }

  lemma ClaimDrains(cfg: Config, s: Sys)
    requires ControlInv(s) && s.worker.Idle?
    ensures var t := IdleStep(cfg, s, ClaimBatch);
            var ids := ClaimableIds(s.db.outbox);
            ClaimableIds(t.db.outbox) == ids[|Firsts(ids, cfg.batchSize)|..] && Quiet(t)
  {
    hide ClaimableIds;
    ClaimTakesOldest(s.db.outbox, cfg.batchSize);
  }

  /** Claims made from moment k to moment n. */
  ghost function ClaimsBetween(labels: seq<Label>, states: seq<Sys>, k: nat, n: nat): nat
    requires k <= n <= |labels| && |states| == |labels| + 1
    decreases n - k
  {
    if k == n then 0
    else ClaimsBetween(labels, states, k + 1, n) + if Claims(states[k], labels[k]) then 1 else 0
  }

  ghost function Dropped(ids: seq<nat>, n: nat): seq<nat> { if n <= |ids| then ids[n..] else [] }

  lemma DrainStep(cfg: Config, s: Sys, l: Label)
    requires ControlInv(s) && Quiet(s) && !l.Api?
    ensures var t := Next(cfg, s, l);
            && Quiet(t)
            && ClaimableIds(t.db.outbox)
               == Dropped(ClaimableIds(s.db.outbox), if Claims(s, l) then cfg.batchSize else 0)
  {
    hide ClaimableIds, ExecutorStep, IdleStep;
    var t := Next(cfg, s, l);
    if s.worker.Executing? {
      ExecutorKeepsClaimable(cfg, s, l);
      SameClaimableIds(s, t);
    } else if l.ClaimBatch? {
      ClaimDrains(cfg, s);
    } else {
      IdleKeepsClaimable(cfg, s, l);
      SameClaimableIds(s, t);
    }
  }

  /** Rows that a number of claims can take. */
  ghost function Capacity(cfg: Config, claims: nat): nat { cfg.batchSize * claims }

  lemma DropTwice(cfg: Config, ids: seq<nat>, claims: nat)
    ensures Dropped(Dropped(ids, cfg.batchSize), Capacity(cfg, claims)) == Dropped(ids, Capacity(cfg, claims + 1))
    ensures Dropped(Dropped(ids, 0), Capacity(cfg, claims)) == Dropped(ids, Capacity(cfg, claims))
  {
    assert Capacity(cfg, claims + 1) == cfg.batchSize + Capacity(cfg, claims);
    assert ids[0..] == ids;
    if Capacity(cfg, claims + 1) <= |ids| {
      assert ids[cfg.batchSize..][Capacity(cfg, claims)..] == ids[Capacity(cfg, claims + 1)..];
    }
  }

  lemma NothingDropped(cfg: Config, ids: seq<nat>)
    ensures Dropped(ids, Capacity(cfg, 0)) == ids
  {
  }

  ghost predicate NoCalls(labels: seq<Label>, k: nat, n: nat)
    requires k <= n <= |labels|
  {
    forall j | k <= j < n :: !labels[j].Api?
  }

  lemma {:induction false} PassesDrain(cfg: Config, labels: seq<Label>, states: seq<Sys>, k: nat, n: nat)
    requires IsRun(cfg, labels, states) && k <= n <= |labels| && Quiet(states[k]) && NoCalls(labels, k, n)
    ensures ClaimableIds(states[n].db.outbox)
         == Dropped(ClaimableIds(states[k].db.outbox), Capacity(cfg, ClaimsBetween(labels, states, k, n)))
    decreases n - k
  {
    hide Next, ClaimableIds, ControlInv, Quiet, Claims, Capacity, Dropped;
    if k == n {
      NothingDropped(cfg, ClaimableIds(states[k].db.outbox));
    } else {
      ControlAt(cfg, labels, states, k);
      assert Moment(k);
      DrainStep(cfg, states[k], labels[k]);
      PassesDrain(cfg, labels, states, k + 1, n);
      DropTwice(cfg, ClaimableIds(states[k].db.outbox), ClaimsBetween(labels, states, k + 1, n));
    }
  }

  /**
   * From an idle moment on, without new calls, each claim takes the oldest batch off the
   * claimable rows, and nothing else changes them: all are gone exactly when the claims can
   * hold them, which is after ceil(n / batchSize).
   */
  lemma DrainedExactlyWhen(cfg: Config, labels: seq<Label>, states: seq<Sys>, k: nat, n: nat)
    requires IsRun(cfg, labels, states) && k <= n <= |labels| && states[k].worker.Idle? && NoCalls(labels, k, n)
    ensures var before, after := ClaimableIds(states[k].db.outbox), ClaimableIds(states[n].db.outbox);
            var taken := cfg.batchSize * ClaimsBetween(labels, states, k, n);
            && after == (if taken <= |before| then before[taken..] else [])
            && (after == [] <==> |before| <= taken)
  {
    hide Next, ClaimableIds;
    PassesDrain(cfg, labels, states, k, n);
  }
}
