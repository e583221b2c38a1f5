/** How often a row can take effect on the ledger, over every run. */
module RowEffects {
  import opened Options
  import opened SharedTypes
  import opened OutboxDb
  import opened Classify
  import opened Protocol
  import opened ServiceCalls
  import opened Control
  import opened Progress
  import opened TxExecutor
  import opened WireSequences
  import SequenceLease

  // ---------- what a row's submissions are ----------

  /** Where the worker can be with a row for which this was sent. */
  ghost predicate SentBefore(x: Submission, place: Place) {
    match place
    case Outside => true
    case Waiting => false
    case Front(stage) => stage.Verdict? || stage.Recording? || (stage.Attempt? && x.Signed?)
  }

  ghost predicate SubmissionOk(s: Sys, x: Submission) {
    && x.row < |s.db.outbox| && s.db.outbox[x.row].attempts == 1
    && (x.Signed? ==> x.account == s.db.outbox[x.row].tx.account)
    && SentBefore(x, PlaceOf(s.worker, x.row))
  }

  /** A row is sent once as a blob, or any number of times signed for its account. */
  ghost predicate EffectInv(s: Sys) {
    && (forall k: nat | k < |s.wire| :: SubmissionOk(s, s.wire[k]))
    && (forall k: nat, l: nat | k < l < |s.wire| && s.wire[k].row == s.wire[l].row :: s.wire[k].Signed? && s.wire[l].Signed?)
  }

  lemma EffectApi(s: Sys, c: Change, db: Db)
    requires EffectInv(s) && Enabled(s.db.outbox, c) && db.outbox == Changed(s.db.outbox, c)
    ensures EffectInv(s.(db := db))
  {
    forall k: nat | k < |s.wire| ensures SubmissionOk(s.(db := db), s.wire[k]) {
      assert SubmissionOk(s, s.wire[k]);
    }
  }

  lemma EffectIdle(cfg: Config, s: Sys, l: Label)
    requires ControlInv(s) && EffectInv(s) && s.worker.Idle?
    ensures EffectInv(IdleStep(cfg, s, l))
  {
    hide CreatedIds;
    var t := IdleStep(cfg, s, l);
    IdleMoves(cfg, s, l);
    ClaimableIdsFacts(s.db.outbox);
    hide ClaimableIds;
    forall k: nat | k < |s.wire| ensures SubmissionOk(t, s.wire[k]) {
      var i := s.wire[k].row;
      assert SubmissionOk(s, s.wire[k]) && RowOk(s.db.outbox[i], PlaceOf(s.worker, i));
      assert WorkerMoves(s.db.outbox[i], t.db.outbox[i]);
      assert t.worker.Executing? && i in t.worker.queue ==> i in ClaimableIds(s.db.outbox);
    }
  }

  /** What was sent for the front row stays in order. */
  lemma FrontKeeps(cfg: Config, s: Sys, l: Label, x: Submission)
    requires ControlInv(s) && s.worker.Executing? && SubmissionOk(s, x) && x.row == s.worker.queue[0]
    ensures SubmissionOk(ExecutorStep(cfg, s, l), x)
  {
    hide SentStage, BlobStage, RouteStage, GateStage, Record, UpdateRow;
    var q := s.worker.queue;
    FrontMoves(cfg, s, l);
    ExecutorFrame(cfg, s, l);
    assert RowOk(s.db.outbox[q[0]], PlaceOf(s.worker, q[0]));
    assert q[0] !in q[1..];
    if s.worker.stage.Attempt? && l.SignAndSend? {
      AfterSigning(s, q[0], s.worker.stage.n, l);
    }
  }

  lemma AfterSigning(s: Sys, id: nat, n: nat, l: Label)
    requires s.worker.Executing? && id < |s.db.outbox| && l.SignAndSend?
    ensures var t := DoSignAndSend(s, id, n, l);
            && t == s.(worker := s.worker.(stage := t.worker.stage), wire := t.wire, ops := t.ops)
            && (t.worker.stage.Attempt? || t.worker.stage.Verdict?)
            && (t.wire == s.wire
                || exists x: Submission :: t.wire == s.wire + [x] && x.Signed? && x.row == id && x.account == s.db.outbox[id].tx.account)
  {
    hide ClassifyResult, Reservation;
    var t := DoSignAndSend(s, id, n, l);
    if t.wire != s.wire { assert t.wire == s.wire + [t.wire[|s.wire|]]; }
  }

  /** What the executor sends is the front row's, signed for its account, or its first as a blob. */
  lemma FrontSends(cfg: Config, s: Sys, l: Label)
    requires ControlInv(s) && s.worker.Executing?
    ensures var t := ExecutorStep(cfg, s, l);
            || t.wire == s.wire
            || exists x: Submission ::
                 && t.wire == s.wire + [x] && x.row == s.worker.queue[0] && SubmissionOk(t, x)
                 && (if x.Signed? then s.worker.stage.Attempt? else s.worker.stage.BlobReady?)
  {
    hide SentStage, RouteStage, GateStage, Record, UpdateRow, ClassifyResult;
    var t := ExecutorStep(cfg, s, l);
    var id := s.worker.queue[0];
    assert RowOk(s.db.outbox[id], PlaceOf(s.worker, id));
    if s.worker.stage.Attempt? && l.SignAndSend? {
      AfterSigning(s, id, s.worker.stage.n, l);
    } else if t.wire != s.wire {
      assert t.wire == s.wire + [Blob(id)] && t.worker.stage.Verdict?;
    }
  }

  lemma EffectExecutor(cfg: Config, s: Sys, l: Label)
    requires ControlInv(s) && EffectInv(s) && s.worker.Executing?
    ensures EffectInv(ExecutorStep(cfg, s, l))
  {
    hide ExecutorStep;
    var t := ExecutorStep(cfg, s, l);
    var q := s.worker.queue;
    FrontSends(cfg, s, l);
    ExecutorFrame(cfg, s, l);
    if t != s {
      SendsOne(cfg, s, l);
      forall x | x in s.wire ensures SubmissionOk(t, x) {
        assert SubmissionOk(s, x);
        if x.row == q[0] { FrontKeeps(cfg, s, l, x); }
        assert x.row in q[1..] <==> x.row in q && x.row != q[0];
      }
      if t.wire != s.wire {
        var x: Submission :| t.wire == s.wire + [x] && x.row == q[0] && SubmissionOk(t, x)
                             && if x.Signed? then s.worker.stage.Attempt? else s.worker.stage.BlobReady?;
        forall y | y in s.wire && y.row == x.row ensures x.Signed? && y.Signed? { assert SubmissionOk(s, y); }
      }
    }
  }

  lemma EffectNext(cfg: Config, s: Sys, l: Label)
    requires ControlInv(s) && EffectInv(s)
    ensures EffectInv(Next(cfg, s, l))
  {
    match l
    case Api(call) =>
      hide Next, EffectInv;
      ApiStep(cfg, s, call);
      EffectApi(s, ChangeOf(s.db, call), Next(cfg, s, l).db);
    case _ =>
      hide ExecutorStep, IdleStep, EffectInv;
      if s.worker.Idle? { EffectIdle(cfg, s, l); } else { EffectExecutor(cfg, s, l); }
  }

  lemma {:induction false} EffectHolds(cfg: Config, labels: seq<Label>)
    ensures EffectInv(Run(cfg, labels))
  {
    hide Next;
    if labels != [] {
      var front := labels[..|labels| - 1];
      EffectHolds(cfg, front);
      ControlHolds(cfg, front);
      EffectNext(cfg, Run(cfg, front), labels[|labels| - 1]);
    }
  }

  /** In every state of every run, what was sent as a blob was sent once, and not signed here as well. */
  lemma BlobsAreSentOnce(cfg: Config, s: Sys, k: nat, l: nat)
    requires Reachable(cfg, s) && k < |s.wire| && l < |s.wire| && s.wire[k].Blob? && s.wire[l].row == s.wire[k].row
    ensures k == l
  {
    hide Run, Reachable;
    var labels := ReachedBy(cfg, s);
    EffectHolds(cfg, labels);
  }

  // ---------- what a ledger may apply ----------

  /** A ledger applies one of them at most: one account's sequence, or the same blob. */
  predicate Excludes(x: Submission, y: Submission) {
    if x.Signed? && y.Signed? then x.account == y.account && x.sequence == y.sequence
    else x.Blob? && y.Blob? && x.row == y.row
  }

  /** The ledger may apply these of the submissions. */
  ghost predicate Lawful(wire: seq<Submission>, applied: set<nat>) {
    && (forall k | k in applied :: k < |wire|)
    && (forall k, l | k in applied && l in applied && k < l :: !Excludes(wire[k], wire[l]))
  }

  /** No row took effect twice. */
  ghost predicate OnceEach(wire: seq<Submission>, applied: set<nat>) {
    forall k, l | k in applied && l in applied && k < l < |wire| :: wire[k].row != wire[l].row
  }

  /** Whatever the ledger applies, each row takes effect at most once. */
  ghost predicate EffectAtMostOnce(wire: seq<Submission>) {
    forall applied: set<nat> | Lawful(wire, applied) :: OnceEach(wire, applied)
  }

  /** A row was signed and sent more than once. */
  ghost predicate SignedTwice(wire: seq<Submission>, k: nat, l: nat) {
    k < l < |wire| && wire[k].Signed? && wire[l].Signed? && wire[k].row == wire[l].row
  }

  ghost predicate OneSequenceEach(wire: seq<Submission>) {
    forall k: nat, l: nat | SignedTwice(wire, k, l) :: wire[k].sequence == wire[l].sequence
  }

  lemma OncePerRow(s: Sys, applied: set<nat>)
    requires EffectInv(s) && Lawful(s.wire, applied) && OneSequenceEach(s.wire)
    ensures OnceEach(s.wire, applied)
  {
    forall k, l | k in applied && l in applied && k < l < |s.wire| ensures s.wire[k].row != s.wire[l].row {
      assert SubmissionOk(s, s.wire[k]) && SubmissionOk(s, s.wire[l]);
      assert !Excludes(s.wire[k], s.wire[l]);
      assert !SignedTwice(s.wire, k, l);
    }
  }

  /** In every state of every run each row takes effect at most once, exactly when no row was signed under two sequences. */
  lemma EffectAtMostOnceExactlyWhen(cfg: Config, s: Sys)
    requires Reachable(cfg, s)
    ensures EffectAtMostOnce(s.wire) <==> OneSequenceEach(s.wire)
  {
    hide Run, Reachable, EffectInv;
    var labels := ReachedBy(cfg, s);
    EffectHolds(cfg, labels);
    if OneSequenceEach(s.wire) {
      forall applied: set<nat> | Lawful(s.wire, applied) ensures OnceEach(s.wire, applied) {
        OncePerRow(s, applied);
      }
    } else {
      var k: nat, l: nat :| SignedTwice(s.wire, k, l) && s.wire[k].sequence != s.wire[l].sequence;
      var both: set<nat> := {k, l};
      assert Lawful(s.wire, both) && !OnceEach(s.wire, both);
    }
  }

  // ---------- which answers bring it about ----------

  /** Every row signed twice is signed under one sequence, exactly when each time the ledger's answer led back to it. */
  lemma OneSequenceExactlyWhenLedBack(cfg: Config, s: Sys)
    requires Reachable(cfg, s)
    ensures WireInv(s.wire, s.ops)
    ensures forall k: nat, l: nat | SignedTwice(s.wire, k, l) ::
              SignedFor(s.wire, s.wire[k].account, k) && SignedFor(s.wire, s.wire[k].account, l)
    ensures OneSequenceEach(s.wire)
            <==> forall k: nat, l: nat | SignedTwice(s.wire, k, l) :: LedBack(s.wire, s.ops, s.wire[k].account, k, l)
  {
    hide Run, Reachable, WireInv, LedBack;
    var labels := ReachedBy(cfg, s);
    EffectHolds(cfg, labels);
    EverySubmissionBacked(cfg, s);
    forall k: nat, l: nat | SignedTwice(s.wire, k, l)
      ensures SignedFor(s.wire, s.wire[k].account, k) && SignedFor(s.wire, s.wire[k].account, l)
      ensures s.wire[k].sequence == s.wire[l].sequence <==> LedBack(s.wire, s.ops, s.wire[k].account, k, l)
    {
      assert SubmissionOk(s, s.wire[k]) && SubmissionOk(s, s.wire[l]);
      SameSequenceExactlyWhenLedBack(s.wire, s.ops, s.wire[k].account, k, l);
    }
  }

  /** The step signs the front row and sends it. */
  ghost predicate SignsAndSends(cfg: Config, s: Sys, l: Label) {
    l.SignAndSend? && |Next(cfg, s, l).wire| > |s.wire|
  }

  lemma SigningStep(cfg: Config, s: Sys, l: Label)
    requires ControlInv(s) && SignsAndSends(cfg, s, l)
    ensures s.worker.Executing? && s.worker.stage.Attempt? && s.worker.queue != [] && s.worker.queue[0] < |s.db.outbox|
    ensures var id, n := s.worker.queue[0], s.worker.stage.n;
            var account := s.db.outbox[id].tx.account;
            var reserved := Reservation(s.ops, account, l.fetch);
            var t := Next(cfg, s, l);
            && reserved.Some? && t.wire == s.wire + [Signed(id, account, reserved.value, |s.ops|)]
            && t.ops == AfterReserve(s.ops, account, l.fetch, Forgets(n, l.reply))
            && t.db == s.db && t.worker == At(s.worker, t.worker.stage)
  {
    hide SentStage, Reservation, RouteStage, GateStage, BlobStage;
    assert s.worker.Executing?;
    var id := s.worker.queue[0];
    assert RowOk(s.db.outbox[id], PlaceOf(s.worker, id));
  }

  /** What the next reservation hands out. */
  lemma NextReserved(ops: seq<SequenceLease.Op>, account: string, first: Option<int>, forgotten: bool, fetch: Option<int>)
    requires Reservation(ops, account, first).Some?
    ensures Reservation(AfterReserve(ops, account, first, forgotten), account, fetch)
         == if forgotten then fetch else Some(Reservation(ops, account, first).value + 1)
  {
    var reserve := SequenceLease.Reserve(account, 0, first);
    SequencesStep(ops, reserve);
    SequencesStep(ops + [reserve], SequenceLease.Invalidate(account));
  }

  lemma {:induction false} CallsInBetween(cfg: Config, labels: seq<Label>, states: seq<Sys>, j: nat, k: nat)
    requires IsRun(cfg, labels, states) && j <= k <= |labels| && forall m | j <= m < k :: labels[m].Api?
    ensures states[k].worker == states[j].worker && states[k].ops == states[j].ops && states[k].wire == states[j].wire
    ensures OnlySignatures(states[j].db.outbox, states[k].db.outbox)
    decreases k - j
  {
    hide Next, OnlySignatures;
    if j == k {
      NothingSigned(states[j].db.outbox);
    } else {
      assert Moment(j) && labels[j].Api?;
      ApiStep(cfg, states[j], labels[j].call);
      CallsOnlySign(cfg, states[j], labels[j].call);
      CallsInBetween(cfg, labels, states, j + 1, k);
      SignaturesAddUp(states[j].db.outbox, states[j + 1].db.outbox, states[k].db.outbox);
    }
  }

  /**
   * When an attempt is repeated, whatever was called meanwhile, the row is signed under the same sequence exactly
   * when the first attempt forgot the account's next sequence and the ledger, asked again, answers the same: after
   * a retry code that is no sequence error it never is.
   */
  lemma RepeatedUnder(cfg: Config, labels: seq<Label>, states: seq<Sys>, j: nat, k: nat)
    requires IsRun(cfg, labels, states) && j < k < |labels| && forall m | j < m < k :: labels[m].Api?
    requires SignsAndSends(cfg, states[j], labels[j]) && SignsAndSends(cfg, states[k], labels[k])
    requires states[j + 1].worker.Executing? && states[j + 1].worker.stage.Attempt?
    ensures |states[j + 1].wire| >= 1 && |states[k + 1].wire| == |states[j + 1].wire| + 1
    ensures var x, y := states[k + 1].wire[|states[k + 1].wire| - 2], states[k + 1].wire[|states[k + 1].wire| - 1];
            && x.Signed? && y.Signed? && x.row == y.row && x.account == y.account
            && states[j].worker.Executing? && states[j].worker.stage.Attempt?
            && var forgotten := match labels[j].reply
                                case Answer(engine, _, _) => engine == "terPRE_SEQ" || engine == "tefPAST_SEQ"
                                case NotSent(retryable) => retryable
                                case SentThrew(retryable) => retryable;
               && (y.sequence == x.sequence <==> forgotten && labels[k].fetch == Some(x.sequence))
               && (!forgotten ==> y.sequence == x.sequence + 1)
  {
    hide Run, Next, Reservation, ControlInv, OnlySignatures, Forgets, AfterReserve;
    ControlAt(cfg, labels, states, j);
    ControlAt(cfg, labels, states, k);
    assert Moment(j) && Moment(k);
    SigningStep(cfg, states[j], labels[j]);
    NotTheLast(cfg, states[j], labels[j]);
    SigningStep(cfg, states[k], labels[k]);
    CallsInBetween(cfg, labels, states, j + 1, k);
    var id := states[j].worker.queue[0];
    SameAccount(states[j + 1].db.outbox, states[k].db.outbox, id);
    ForgottenByText(states[j].worker.stage.n, labels[j].reply);
    NextReserved(states[j].ops, states[j].db.outbox[id].tx.account, labels[j].fetch,
                 Forgets(states[j].worker.stage.n, labels[j].reply), labels[k].fetch);
  }

  lemma ForgottenByText(n: nat, reply: LedgerReply)
    requires n < MAX_SUBMIT_RETRIES
    ensures Forgets(n, reply)
            <==> match reply
                 case Answer(engine, _, _) => engine == "terPRE_SEQ" || engine == "tefPAST_SEQ"
                 case NotSent(retryable) => retryable
                 case SentThrew(retryable) => retryable
  {
  }

  /** An attempt that leads to another was not the last one allowed. */
  lemma NotTheLast(cfg: Config, s: Sys, l: Label)
    requires ControlInv(s) && SignsAndSends(cfg, s, l)
    requires Next(cfg, s, l).worker.Executing? && Next(cfg, s, l).worker.stage.Attempt?
    ensures s.worker.Executing? && s.worker.stage.Attempt? && s.worker.stage.n < MAX_SUBMIT_RETRIES
  {
    SigningStep(cfg, s, l);
    hide ClassifyResult, Reservation, ControlInv;
  }

  lemma SameAccount(before: seq<Row>, after: seq<Row>, id: nat)
    requires OnlySignatures(before, after) && id < |before|
    ensures id < |after| && after[id].tx.account == before[id].tx.account
  {
  }

  /** The attempt failed in a way that makes the account's next sequence doubtful. */
  predicate Doubtful(reserved: bool, l: Label)
    requires l.SignAndSend?
  {
    if !reserved then l.fetchRetryable
    else
      match l.reply
      case Answer(engine, _, _) => engine == "terPRE_SEQ" || engine == "tefPAST_SEQ"
      case NotSent(retryable) => retryable
      case SentThrew(retryable) => retryable
  }

  /** Each attempt reserves once, and forgets the account's next sequence exactly when it is doubtful and another attempt follows. */
  lemma AttemptReserves(cfg: Config, s: Sys, l: Label)
    requires ControlInv(s) && s.worker.Executing? && s.worker.stage.Attempt? && l.SignAndSend?
    ensures s.worker.queue != [] && s.worker.queue[0] < |s.db.outbox|
    ensures var account := s.db.outbox[s.worker.queue[0]].tx.account;
            var reserve := SequenceLease.Reserve(account, 0, l.fetch);
            var reserved := SequenceLease.OutAt(SequenceLease.MemoryDb, s.ops + [reserve], |s.ops|).Some?;
            Next(cfg, s, l).ops
            == s.ops + [reserve] + if Doubtful(reserved, l) && s.worker.stage.n < 2 then [SequenceLease.Invalidate(account)] else []
  {
    hide SentStage;
    ReservedHere(s.ops, s.db.outbox[s.worker.queue[0]].tx.account, l.fetch, []);
    var reserve := SequenceLease.Reserve(s.db.outbox[s.worker.queue[0]].tx.account, 0, l.fetch);
    assert s.ops + [reserve] + [] == s.ops + [reserve];
    hide Reservation;
  }
}
