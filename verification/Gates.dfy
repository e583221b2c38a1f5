/**
 * What stands between a claimed row and the ledger, over every run: the two switches, the fee guard, the
 * connection and the key.
 */
module Gates {
  import opened Options
  import opened SharedTypes
  import opened OutboxDb
  import opened Protocol
  import opened Control
  import opened Progress
  import opened ServiceCalls
  import opened RowEffects
  import LedgerState

  // ---------- a dry run, or lending off ----------

  /** The executor is configured to send nothing. */
  predicate HeldBack(cfg: Config) { cfg.dryRun || !cfg.lendingEnabled }

  const DRY_RUN := "DRY_RUN"

  /** The outcome of a row that is held back: blocked, or prepared under a hash to be recorded. */
  ghost predicate HeldPatch(cfg: Config, patch: Patch, toRecord: Option<TxRecord>) {
    && patch.meta == None
    && if !cfg.lendingEnabled then
         patch.status == Some(Blocked) && patch.txHash == None && patch.txResult == None && toRecord == None
       else
         && patch.status == Some(Prepared) && patch.txHash.Some? && patch.txHash.value.Some?
         && patch.txResult.Some? && (patch.txResult.value.Some? ==> patch.txResult.value.value.meta.None?)
         && toRecord == Some(TxRecord(patch.txHash.value.value, DRY_RUN))
  }

  /** What becomes of a row that is held back: blocked for good, or prepared, recorded and perhaps reconciled. */
  ghost predicate Over(cfg: Config, row: Row, transactions: seq<TxRecord>) {
    if !cfg.lendingEnabled then row.status == Blocked
    else
      && (row.status == Prepared || row.status == Reconciled)
      && row.txHash.Some? && TxRecord(row.txHash.value, DRY_RUN) in transactions
  }

  ghost predicate RowHeld(cfg: Config, row: Row, place: Place, transactions: seq<TxRecord>) {
    && row.kind == VaultCreate && (row.txResult.Some? ==> row.txResult.value.meta.None?)
    && match place
       case Outside => row.status in {Pending, Signed1, Signed2} || Over(cfg, row, transactions)
       case Waiting => InHand(row.status)
       case Front(stage) =>
         match stage
         case Claimed => InHand(row.status)
         case Verdict(patch, toRecord) => InHand(row.status) && HeldPatch(cfg, patch, toRecord)
         case Recording(rec) =>
           cfg.lendingEnabled && row.status == Prepared && row.txHash == Some(rec.txHash) && rec.resultCode == DRY_RUN
         case _ => false
  }

  /** Nothing that would take a ledger id exists. */
  ghost predicate RecordsHeld(db: Db) {
    db.brokers == [] && forall v: nat | v < |db.vaults| :: db.vaults[v].xrplVaultId == None && db.vaults[v].status == VaultQueued
  }

  ghost predicate HeldInv(cfg: Config, s: Sys) {
    && s.wire == [] && s.ops == [] && RecordsHeld(s.db)
    && forall i: nat | i < |s.db.outbox| :: RowHeld(cfg, s.db.outbox[i], PlaceOf(s.worker, i), s.db.transactions)
  }

  lemma OnlyVaultsAsked(db: Db, call: Call)
    requires RecordsHeld(db)
    ensures RecordsHeld(Handle(db, call).0)
    ensures ChangeOf(db, call).Added? ==> ChangeOf(db, call).input.kind == VaultCreate
  {
    hide ViolatesSod, Rejects, MayCounterSign, FindLoanSet, FindParty;
  }

  lemma HeldApi(cfg: Config, s: Sys, call: Call)
    requires ControlInv(s) && HeldInv(cfg, s)
    ensures HeldInv(cfg, Next(cfg, s, Api(call)))
  {
    hide Next, Over, HeldPatch, Handle;
    var t := Next(cfg, s, Api(call));
    ApiStep(cfg, s, call);
    HeldApiRecords(cfg, s, call);
    var c := ChangeOf(s.db, call);
    hide ChangeOf;
    forall i: nat | i < |t.db.outbox| ensures RowHeld(cfg, t.db.outbox[i], PlaceOf(t.worker, i), t.db.transactions) {
      if i < |s.db.outbox| {
        assert RowHeld(cfg, s.db.outbox[i], PlaceOf(s.worker, i), s.db.transactions);
      } else if s.worker.Executing? {
        assert i !in s.worker.queue;
      }
    }
  }

  lemma HeldApiRecords(cfg: Config, s: Sys, call: Call)
    requires RecordsHeld(s.db)
    ensures RecordsHeld(Next(cfg, s, Api(call)).db)
    ensures ChangeOf(s.db, call).Added? ==> ChangeOf(s.db, call).input.kind == VaultCreate
  {
    hide Handle;
    OnlyVaultsAsked(s.db, call);
  }

  lemma NothingCreated(r: Option<TxResult>)
    requires r.Some? ==> r.value.meta.None?
    ensures CreatedIds(r) == LedgerState.Ids(None, None, None, None)
  {
  }

  lemma HeldIdle(cfg: Config, s: Sys, l: Label)
    requires ControlInv(s) && HeldInv(cfg, s) && s.worker.Idle? && !l.Api?
    ensures HeldInv(cfg, IdleStep(cfg, s, l))
  {
    hide CreatedIds, Over, ClaimableIds, RowHeld;
    var t := IdleStep(cfg, s, l);
    if l.Enrich? {
      if l.id < |s.db.outbox| { HeldRowCreatesNothing(cfg, s.db.outbox[l.id], s.db.transactions); }
      assert l.id < |s.db.outbox| ==> RowHeld(cfg, s.db.outbox[l.id], Outside, s.db.transactions);
    } else {
      forall i: nat | i < |t.db.outbox| ensures RowHeld(cfg, t.db.outbox[i], PlaceOf(t.worker, i), t.db.transactions) {
        HeldRow(cfg, s, l, i);
      }
    }
  }

  lemma HeldRowCreatesNothing(cfg: Config, row: Row, transactions: seq<TxRecord>)
    ensures RowHeld(cfg, row, Outside, transactions) ==>
              row.kind == VaultCreate && CreatedIds(row.txResult) == LedgerState.Ids(None, None, None, None)
  {
    hide CreatedIds;
    if row.txResult.Some? ==> row.txResult.value.meta.None? { NothingCreated(row.txResult); }
  }

  lemma HeldRow(cfg: Config, s: Sys, l: Label, i: nat)
    requires ControlInv(s) && HeldInv(cfg, s) && s.worker.Idle? && !l.Api? && !l.Enrich? && i < |s.db.outbox|
    ensures var t := IdleStep(cfg, s, l);
            i < |t.db.outbox| && RowHeld(cfg, t.db.outbox[i], PlaceOf(t.worker, i), t.db.transactions)
  {
    hide ControlInv, ClaimableIds;
    if l.ClaimBatch? {
      HeldClaim(cfg, s, i);
    } else {
      assert RowHeld(cfg, s.db.outbox[i], Outside, s.db.transactions);
    }
  }

  lemma HeldClaim(cfg: Config, s: Sys, i: nat)
    requires HeldInv(cfg, s) && s.worker.Idle? && i < |s.db.outbox|
    ensures var t := IdleStep(cfg, s, ClaimBatch);
            i < |t.db.outbox| && RowHeld(cfg, t.db.outbox[i], PlaceOf(t.worker, i), t.db.transactions)
  {
    hide Over, HeldPatch;
    ClaimableIdsFacts(s.db.outbox);
    hide ClaimableIds;
    assert RowHeld(cfg, s.db.outbox[i], Outside, s.db.transactions);
    assert Over(cfg, s.db.outbox[i], s.db.transactions) ==> !Claimable(s.db.outbox[i].status) by {
      OverIsNotClaimable(cfg, s.db.outbox[i], s.db.transactions);
    }
    var ids := Firsts(ClaimableIds(s.db.outbox), cfg.batchSize);
    assert forall k | k in ids :: k in ClaimableIds(s.db.outbox);
  }

  lemma OverIsNotClaimable(cfg: Config, row: Row, transactions: seq<TxRecord>)
    ensures Over(cfg, row, transactions) ==> !Claimable(row.status)
  {
  }

  /** Once recorded under a dry run, a hash stays so. */
  lemma DryRunKept(transactions: seq<TxRecord>, rec: TxRecord, hash: string)
    requires rec.resultCode == DRY_RUN
    ensures TxRecord(hash, DRY_RUN) in transactions || rec.txHash == hash ==> TxRecord(hash, DRY_RUN) in Record(transactions, rec)
  {
    RecordKeeps(transactions, rec);
    assert rec.txHash == hash ==> rec == TxRecord(hash, DRY_RUN);
  }

  lemma HeldFront(cfg: Config, s: Sys, l: Label)
    requires ControlInv(s) && HeldInv(cfg, s) && HeldBack(cfg) && s.worker.Executing?
    ensures var t := ExecutorStep(cfg, s, l);
            var id := s.worker.queue[0];
            && t.wire == s.wire && t.ops == s.ops && id < |t.db.outbox|
            && (t.worker == Finish(s.worker) || (t.worker.Executing? && t.worker.queue == s.worker.queue))
            && RowHeld(cfg, t.db.outbox[id], PlaceOf(t.worker, id), t.db.transactions)
            && (forall h | TxRecord(h, DRY_RUN) in s.db.transactions :: TxRecord(h, DRY_RUN) in t.db.transactions)
  {
    var q := s.worker.queue;
    assert RowHeld(cfg, s.db.outbox[q[0]], Front(s.worker.stage), s.db.transactions);
    assert q[0] !in q[1..];
    hide Record, DoSignAndSend, BlobStage, RouteStage;
    if s.worker.stage.Recording? {
      forall h ensures TxRecord(h, DRY_RUN) in s.db.transactions || s.worker.stage.record.txHash == h ==>
                         TxRecord(h, DRY_RUN) in Record(s.db.transactions, s.worker.stage.record)
      {
        DryRunKept(s.db.transactions, s.worker.stage.record, h);
      }
    }
  }

  lemma OverLonger(cfg: Config, row: Row, before: seq<TxRecord>, after: seq<TxRecord>)
    requires Over(cfg, row, before) && forall h | TxRecord(h, DRY_RUN) in before :: TxRecord(h, DRY_RUN) in after
    ensures Over(cfg, row, after)
  {
  }

  lemma HeldExecutor(cfg: Config, s: Sys, l: Label)
    requires ControlInv(s) && HeldInv(cfg, s) && HeldBack(cfg) && s.worker.Executing? && !l.Api?
    ensures HeldInv(cfg, ExecutorStep(cfg, s, l))
  {
    hide ExecutorStep, HeldPatch, Over, Enriched, RecordsHeld;
    var t := ExecutorStep(cfg, s, l);
    var q := s.worker.queue;
    HeldFront(cfg, s, l);
    ExecutorFrame(cfg, s, l);
    HeldRecords(cfg, s, l);
    forall i: nat | i < |t.db.outbox| ensures RowHeld(cfg, t.db.outbox[i], PlaceOf(t.worker, i), t.db.transactions) {
      if i != q[0] {
        var row := s.db.outbox[i];
        assert RowHeld(cfg, row, PlaceOf(s.worker, i), s.db.transactions);
        assert i in q[1..] <==> i in q;
        if Over(cfg, row, s.db.transactions) { OverLonger(cfg, row, s.db.transactions, t.db.transactions); }
        FrontIsClaimed(cfg, s, l);
      }
    }
  }

  /** A row that comes to the front is only claimed yet. */
  lemma FrontIsClaimed(cfg: Config, s: Sys, l: Label)
    requires ControlInv(s) && s.worker.Executing?
    ensures var t := ExecutorStep(cfg, s, l).worker;
            t == Finish(s.worker) && t.Executing? && t.queue[0] != s.worker.queue[0] ==> t.stage == Claimed
  {
    hide ExecutorStep;
  }

  lemma HeldRecords(cfg: Config, s: Sys, l: Label)
    requires s.worker.Executing? && !l.Api? && RecordsHeld(s.db)
    ensures RecordsHeld(ExecutorStep(cfg, s, l).db)
  {
    hide ExecutorStep, Enriched;
    WorkerKeepsRecords(cfg, s, l);
  }

  lemma HeldNext(cfg: Config, s: Sys, l: Label)
    requires ControlInv(s) && HeldInv(cfg, s) && HeldBack(cfg)
    ensures HeldInv(cfg, Next(cfg, s, l))
  {
    hide HeldInv, ControlInv;
    match l
    case Api(call) => HeldApi(cfg, s, call);
    case _ =>
      hide ExecutorStep, IdleStep;
      if s.worker.Idle? { HeldIdle(cfg, s, l); } else { HeldExecutor(cfg, s, l); }
  }

  lemma {:induction false} HeldHolds(cfg: Config, labels: seq<Label>)
    requires HeldBack(cfg)
    ensures HeldInv(cfg, Run(cfg, labels))
  {
    hide Next;
    if labels != [] {
      var front := labels[..|labels| - 1];
      HeldHolds(cfg, front);
      ControlHolds(cfg, front);
      HeldNext(cfg, Run(cfg, front), labels[|labels| - 1]);
    }
  }

  /**
   * With lending off or in a dry run, in every state of every run nothing was sent and no sequence reserved, and no
   * row is submitted or validated. What the worker is done with is blocked when lending is off; in a dry run it is
   * prepared or reconciled, and its hash recorded as a dry run.
   */
  lemma NothingIsSent(cfg: Config, s: Sys)
    requires Reachable(cfg, s) && (cfg.dryRun || !cfg.lendingEnabled)
    ensures s.wire == [] && s.ops == []
    ensures forall i: nat | i < |s.db.outbox| ::
              var row := s.db.outbox[i];
              && row.status != Submitted && row.status != Validated
              && (row.attempts == 1 && (s.worker.Idle? || i !in s.worker.queue) ==>
                    if !cfg.lendingEnabled then row.status == Blocked
                    else
                      && (row.status == Prepared || row.status == Reconciled)
                      && row.txHash.Some? && TxRecord(row.txHash.value, "DRY_RUN") in s.db.transactions)
  {
    hide Run, Reachable;
    var labels := ReachedBy(cfg, s);
    HeldHolds(cfg, labels);
    ControlHolds(cfg, labels);
    forall i: nat | i < |s.db.outbox|
      ensures RowHeld(cfg, s.db.outbox[i], PlaceOf(s.worker, i), s.db.transactions)
              && RowOk(s.db.outbox[i], PlaceOf(s.worker, i))
    {
    }
    hide HeldInv, ControlInv;
  }

  /** And nothing gets past creating vaults: no vault is ever known to the ledger, so nothing else can be asked for. */
  lemma OnlyVaultsAreAskedFor(cfg: Config, s: Sys)
    requires Reachable(cfg, s) && (cfg.dryRun || !cfg.lendingEnabled)
    ensures s.db.brokers == [] && forall i: nat | i < |s.db.outbox| :: s.db.outbox[i].kind == VaultCreate
    ensures forall v: nat | v < |s.db.vaults| :: s.db.vaults[v].xrplVaultId == None && s.db.vaults[v].status == VaultQueued
  {
    hide Run, Reachable;
    var labels := ReachedBy(cfg, s);
    HeldHolds(cfg, labels);
    forall i: nat | i < |s.db.outbox| ensures s.db.outbox[i].kind == VaultCreate {
      assert RowHeld(cfg, s.db.outbox[i], PlaceOf(s.worker, i), s.db.transactions);
    }
  }

  // ---------- who got past the gate ----------

  ghost predicate AtFront(s: Sys, i: nat) { s.worker.Executing? && s.worker.queue != [] && s.worker.queue[0] == i }

  /** Before moment n the row was let through: no fee spike, and the ledger connected. */
  ghost predicate LetThrough(labels: seq<Label>, states: seq<Sys>, i: nat, n: nat)
    requires n <= |labels| && |states| == |labels| + 1
  {
    exists m: nat :: m < n && AtFront(states[m], i) && states[m].worker.stage == Claimed
                     && labels[m].Gate? && !labels[m].feeSpike && labels[m].connects
  }

  /** Before moment n the key store said that it holds the key of the row's account. */
  ghost predicate KeyFound(labels: seq<Label>, states: seq<Sys>, i: nat, n: nat)
    requires n <= |labels| && |states| == |labels| + 1
  {
    exists m: nat :: m < n && AtFront(states[m], i) && states[m].worker.stage == Marked && labels[m] == Route(Some(true))
  }

  predicate PastGate(stage: Stage) { stage.Marked? || stage.BlobReady? || stage.Attempt? }

  ghost predicate GateInv(cfg: Config, labels: seq<Label>, states: seq<Sys>, n: nat)
    requires n <= |labels| && |states| == |labels| + 1
  {
    var s := states[n];
    && (forall i: nat | AtFront(s, i) && PastGate(s.worker.stage) :: !HeldBack(cfg) && LetThrough(labels, states, i, n))
    && (forall i: nat | AtFront(s, i) && s.worker.stage.Attempt? :: KeyFound(labels, states, i, n))
    && (forall x | x in s.wire :: SentRightly(cfg, labels, states, x, n))
  }

  ghost predicate SentRightly(cfg: Config, labels: seq<Label>, states: seq<Sys>, x: Submission, n: nat)
    requires n <= |labels| && |states| == |labels| + 1
  {
    !HeldBack(cfg) && LetThrough(labels, states, x.row, n) && (x.Signed? ==> KeyFound(labels, states, x.row, n))
  }

  /** Where a stage past the gate, and a submission, come from. */
  lemma GateOrigin(cfg: Config, s: Sys, l: Label, i: nat)
    requires ControlInv(s) && AtFront(Next(cfg, s, l), i)
    ensures var t := Next(cfg, s, l);
            && (PastGate(t.worker.stage) ==>
                  && AtFront(s, i)
                  && (PastGate(s.worker.stage)
                      || (s.worker.stage == Claimed && l.Gate? && !l.feeSpike && l.connects && !HeldBack(cfg))))
            && (t.worker.stage.Attempt? ==>
                  s.worker.stage.Attempt? || (s.worker.stage == Marked && l == Route(Some(true))))
  {
    hide Handle, ClaimableIds, Enriched, BlobStage, Record, ControlInv;
    if s.worker.Executing? && s.worker.stage.BlobReady? && l.SendBlob? && s.worker.queue != [] && s.worker.queue[0] < |s.db.outbox| {
      BlobIsJudged(s.db.outbox[s.worker.queue[0]], l.reply, l.lookup);
    }
  }

  lemma BlobIsJudged(row: Row, reply: LedgerReply, lookup: Option<TxResult>)
    ensures BlobStage(row, reply, lookup).Verdict?
  {
  }

  lemma SendOrigin(cfg: Config, s: Sys, l: Label)
    requires ControlInv(s) && Next(cfg, s, l).wire != s.wire
    ensures s.worker.Executing? && s.worker.queue != [] && (s.worker.stage.BlobReady? || s.worker.stage.Attempt?)
    ensures exists x: Submission ::
              && Next(cfg, s, l).wire == s.wire + [x] && x.row == s.worker.queue[0]
              && (x.Signed? ==> s.worker.stage.Attempt?)
  {
    match l
    case Api(call) =>
      hide Next;
      ApiStep(cfg, s, call);
    case _ =>
      hide ExecutorStep, Enriched, ClaimableIds;
      if s.worker.Executing? { FrontSends(cfg, s, l); }
  }

  lemma LongerLetThrough(labels: seq<Label>, states: seq<Sys>, i: nat, n: nat)
    requires n < |labels| && |states| == |labels| + 1
    ensures LetThrough(labels, states, i, n) ==> LetThrough(labels, states, i, n + 1)
    ensures KeyFound(labels, states, i, n) ==> KeyFound(labels, states, i, n + 1)
  {
  }

  lemma GateStepInv(cfg: Config, labels: seq<Label>, states: seq<Sys>, n: nat)
    requires IsRun(cfg, labels, states) && n < |labels| && GateInv(cfg, labels, states, n)
    ensures GateInv(cfg, labels, states, n + 1)
  {
    hide Next, LetThrough, KeyFound, ControlInv;
    ControlAt(cfg, labels, states, n);
    assert Moment(n);
    var s, l, t := states[n], labels[n], states[n + 1];
    forall i: nat ensures LetThrough(labels, states, i, n) ==> LetThrough(labels, states, i, n + 1)
                  ensures KeyFound(labels, states, i, n) ==> KeyFound(labels, states, i, n + 1)
    {
      LongerLetThrough(labels, states, i, n);
    }
    forall i: nat | AtFront(t, i)
      ensures t.worker.Executing?
      ensures PastGate(t.worker.stage) ==> !HeldBack(cfg) && LetThrough(labels, states, i, n + 1)
      ensures t.worker.stage.Attempt? ==> KeyFound(labels, states, i, n + 1)
    {
      GateOrigin(cfg, s, l, i);
      JustNow(labels, states, i, n);
    }
    if t.wire != s.wire {
      SendOrigin(cfg, s, l);
      var x: Submission :| t.wire == s.wire + [x] && x.row == s.worker.queue[0] && (x.Signed? ==> s.worker.stage.Attempt?);
      FrontIs(s);
    }
    assert forall x | x in s.wire :: SentRightly(cfg, labels, states, x, n) && SentRightly(cfg, labels, states, x, n + 1);
  }

  lemma FrontIs(s: Sys)
    requires s.worker.Executing? && s.worker.queue != []
    ensures AtFront(s, s.worker.queue[0])
  {
  }

  lemma JustNow(labels: seq<Label>, states: seq<Sys>, i: nat, n: nat)
    requires n < |labels| && |states| == |labels| + 1
    ensures AtFront(states[n], i) && states[n].worker.stage == Claimed && labels[n].Gate? && !labels[n].feeSpike && labels[n].connects
            ==> LetThrough(labels, states, i, n + 1)
    ensures AtFront(states[n], i) && states[n].worker.stage == Marked && labels[n] == Route(Some(true))
            ==> KeyFound(labels, states, i, n + 1)
  {
  }

  lemma {:induction false} GateHolds(cfg: Config, labels: seq<Label>, states: seq<Sys>, n: nat)
    requires IsRun(cfg, labels, states) && n <= |labels|
    ensures GateInv(cfg, labels, states, n)
  {
    hide Next, GateInv;
    if n > 0 {
      GateHolds(cfg, labels, states, n - 1);
      GateStepInv(cfg, labels, states, n - 1);
    } else {
      GateStart(cfg, labels, states);
    }
  }

  lemma GateStart(cfg: Config, labels: seq<Label>, states: seq<Sys>)
    requires |states| == |labels| + 1 && states[0] == START
    ensures GateInv(cfg, labels, states, 0)
  {
  }

  /**
   * In every run, whatever was sent belongs to a row that had passed the gate before: lending on, no dry run, no fee
   * spike, the ledger connected; and what was signed here to one whose key the store said it holds.
   */
  lemma SentOnlyThroughTheGate(cfg: Config, labels: seq<Label>, states: seq<Sys>, n: nat, k: nat)
    requires IsRun(cfg, labels, states) && n <= |labels| && k < |states[n].wire|
    ensures cfg.lendingEnabled && !cfg.dryRun
    ensures LetThrough(labels, states, states[n].wire[k].row, n)
    ensures states[n].wire[k].Signed? ==> KeyFound(labels, states, states[n].wire[k].row, n)
  {
    hide Next, LetThrough, KeyFound;
    GateHolds(cfg, labels, states, n);
    assert SentRightly(cfg, labels, states, states[n].wire[k], n);
  }

  // ---------- a fee spike ----------

  /** Every row that comes to the gate in between meets a fee spike. */
  ghost predicate SpikeBetween(labels: seq<Label>, j: nat, k: nat)
    requires j <= k <= |labels|
  {
    forall m | j <= m < k :: labels[m].Gate? ==> labels[m].feeSpike
  }

  lemma SpikeStep(cfg: Config, s: Sys, l: Label)
    requires ControlInv(s) && (l.Gate? ==> l.feeSpike) && (s.worker.Executing? ==> !PastGate(s.worker.stage))
    ensures Next(cfg, s, l).wire == s.wire
    ensures Next(cfg, s, l).worker.Executing? ==> !PastGate(Next(cfg, s, l).worker.stage)
  {
    hide Next, ControlInv;
    var t := Next(cfg, s, l);
    if t.wire != s.wire { SendOrigin(cfg, s, l); }
    if t.worker.Executing? && PastGate(t.worker.stage) {
      ControlNext(cfg, s, l);
      HasFront(t);
      GateOrigin(cfg, s, l, t.worker.queue[0]);
    }
  }

  lemma HasFront(s: Sys)
    requires ControlInv(s) && s.worker.Executing?
    ensures s.worker.queue != [] && AtFront(s, s.worker.queue[0])
  {
  }

  /** A pass that meets a fee spike sends nothing, whatever is called meanwhile and however many batches follow. */
  lemma {:induction false} SpikedPassSendsNothing(cfg: Config, labels: seq<Label>, states: seq<Sys>, j: nat, k: nat)
    requires IsRun(cfg, labels, states) && j <= k <= |labels| && SpikeBetween(labels, j, k)
    requires states[j].worker.Executing? ==> !PastGate(states[j].worker.stage)
    ensures states[k].wire == states[j].wire
    decreases k - j
  {
    hide Next, ControlInv;
    if j < k {
      ControlAt(cfg, labels, states, j);
      assert Moment(j);
      SpikeStep(cfg, states[j], labels[j]);
      SpikedPassSendsNothing(cfg, labels, states, j + 1, k);
    }
  }
}
