/**
 * The executor as it runs: it changes the memory database in place, asks the ledger, and lets
 * API calls in between its writes. What it does is always a run of the protocol.
 */
module TxExecutor {
  import opened Options
  import opened SharedTypes
  import opened OutboxDb
  import opened Classify
  import opened Protocol
  import opened Control
  import opened Outcomes
  import opened Founding
  import opened MemoryStore
  import opened Services
  import opened Lookup
  import ServiceCalls
  import SequenceLease

  // ---------- single steps ----------

  ghost predicate Holds(s: Sys, id: nat, stage: Stage) {
    s.worker.Executing? && s.worker.queue != [] && s.worker.queue[0] == id && id < |s.db.outbox| && s.worker.stage == stage
  }

  /** The worker with its front row at another stage. */
  function At(w: Worker, stage: Stage): Worker
    requires w.Executing?
  {
    w.(stage := stage)
  }

  lemma GateStep(cfg: Config, s: Sys, id: nat, feeSpike: bool, connects: bool, hash: string)
    requires Holds(s, id, Claimed)
    ensures var stage := GateStage(cfg, feeSpike, connects, hash);
            Next(cfg, s, Gate(feeSpike, connects, hash))
            == s.(worker := At(s.worker, stage), db := if stage == Marked then SetStatus(s.db, id, Submitted) else s.db)
  {
  }

  lemma RouteStep(cfg: Config, s: Sys, id: nat, holdsKey: Option<bool>)
    requires Holds(s, id, Marked)
    ensures Next(cfg, s, Route(holdsKey)) == s.(worker := At(s.worker, RouteStage(s.db.outbox[id], holdsKey)))
  {
  }

  lemma SendStep(cfg: Config, s: Sys, id: nat, n: nat, l: Label, reply: LedgerReply)
    requires Holds(s, id, Attempt(n)) && l.SignAndSend?
    requires var reserved := Reservation(s.ops, s.db.outbox[id].tx.account, l.fetch);
             reply == if reserved.None? then NotSent(l.fetchRetryable) else l.reply
    ensures var account := s.db.outbox[id].tx.account;
            var t := Next(cfg, s, l);
            && t == s.(worker := At(s.worker, SentStage(n, l.hash, reply, l.lookup)), wire := t.wire, ops := t.ops)
            && t.ops == AfterReserve(s.ops, account, l.fetch, Forgets(n, reply))
  {
    hide SentStage, Reservation;
  }

  ghost function AfterReserve(ops: seq<SequenceLease.Op>, account: string, fetch: Option<int>, forgotten: bool)
    : seq<SequenceLease.Op>
  {
    var reserved := ops + [SequenceLease.Reserve(account, 0, fetch)];
    if forgotten then reserved + [SequenceLease.Invalidate(account)] else reserved
  }

  /** When an attempt is repeated. */
  predicate TriesAgain(n: nat, reply: LedgerReply) {
    n < MAX_SUBMIT_RETRIES && match reply
                              case Answer(engine, _, _) => SequenceError(engine) || ClassifyResult(engine) == Retry
                              case NotSent(retryable) => retryable
                              case SentThrew(retryable) => retryable
  }

  lemma RepeatedAttempt(n: nat, hash: string, reply: LedgerReply, lookup: Option<TxResult>)
    requires TriesAgain(n, reply)
    ensures SentStage(n, hash, reply, lookup) == Attempt(n + 1)
  {
    hide ClassifyResult;
  }

  lemma BlobStep(cfg: Config, s: Sys, id: nat, reply: LedgerReply, lookup: Option<TxResult>)
    requires Holds(s, id, BlobReady)
    ensures var t := Next(cfg, s, SendBlob(reply, lookup));
            t == s.(worker := At(s.worker, BlobStage(s.db.outbox[id], reply, lookup)), wire := t.wire)
  {
  }

  lemma WriteStep(cfg: Config, s: Sys, id: nat, patch: Patch, rec: Option<TxRecord>)
    requires Holds(s, id, Verdict(patch, rec))
    ensures Next(cfg, s, WriteOutcome)
         == s.(worker := if rec.Some? then At(s.worker, Recording(rec.value)) else Finish(s.worker),
               db := s.db.(outbox := UpdateRow(s.db.outbox, id, patch)))
  {
  }

  lemma RecordStep(cfg: Config, s: Sys, id: nat, rec: TxRecord)
    requires Holds(s, id, Recording(rec))
    ensures Next(cfg, s, RecordTx)
         == s.(worker := Finish(s.worker), db := s.db.(transactions := Record(s.db.transactions, rec)))
  {
  }

  lemma ClaimStep(cfg: Config, s: Sys)
    requires s.worker.Idle?
    ensures var ids := Firsts(ClaimableIds(s.db.outbox), cfg.batchSize);
            Next(cfg, s, ClaimBatch)
            == if ids == [] then s
               else s.(worker := Executing(ids, Claimed), db := s.db.(outbox := ClaimRows(s.db.outbox, ids)))
  {
  }

  /** What the memory database keeps of the reservations made so far. */
  ghost predicate SequencesAgree(ops: seq<SequenceLease.Op>, sequences: map<string, int>) {
    SequenceLease.Nexts(SequenceLease.Before(SequenceLease.MemoryDb, ops, |ops|)) == sequences
  }

  lemma SequencesStep(ops: seq<SequenceLease.Op>, op: SequenceLease.Op)
    ensures SequenceLease.Before(SequenceLease.MemoryDb, ops + [op], |ops| + 1)
         == SequenceLease.Step(SequenceLease.MemoryDb, SequenceLease.Before(SequenceLease.MemoryDb, ops, |ops|), op).0
  {
    SequenceLease.BeforePrefix(SequenceLease.MemoryDb, ops, [op], |ops|);
  }

  /** A reservation keeps the database in step and hands out what the protocol says. */
  lemma SequencesReserved(ops: seq<SequenceLease.Op>, account: string, fetch: Option<int>,
        before: map<string, int>, after: map<string, int>, reserved: Option<int>)
    requires SequencesAgree(ops, before)
    requires forall leases: SequenceLease.Leases | SequenceLease.Nexts(leases) == before ::
               var step := SequenceLease.Step(SequenceLease.MemoryDb, leases, SequenceLease.Reserve(account, 0, fetch));
               SequenceLease.Nexts(step.0) == after && step.1 == reserved
    ensures SequencesAgree(ops + [SequenceLease.Reserve(account, 0, fetch)], after)
    ensures reserved == Reservation(ops, account, fetch)
  {
    SequencesStep(ops, SequenceLease.Reserve(account, 0, fetch));
  }

  lemma SequencesForgotten(ops: seq<SequenceLease.Op>, account: string, sequences: map<string, int>)
    requires SequencesAgree(ops, sequences)
    ensures SequencesAgree(ops + [SequenceLease.Invalidate(account)], sequences - {account})
  {
    SequencesStep(ops, SequenceLease.Invalidate(account));
  }

  /** API calls add pending rows, sign those that wait for it, and leave the others alone. */
  ghost predicate OnlySignatures(before: seq<Row>, after: seq<Row>) {
    && |before| <= |after|
    && (forall i | 0 <= i < |before| ::
          && after[i].tx == before[i].tx && after[i].kind == before[i].kind
          && (before[i].status !in {Pending, Processing, Signed1} ==> after[i] == before[i])
          && (before[i].status in {Pending, Processing, Signed1} ==> after[i].status in {Pending, Processing, Signed1, Signed2})
          && (after[i].status == Processing ==> before[i].status == Processing))
    && (forall i | |before| <= i < |after| :: after[i].status in {Pending, Signed1, Signed2})
  }

  lemma NothingSigned(outbox: seq<Row>)
    ensures OnlySignatures(outbox, outbox)
  {
  }

  lemma SignaturesAddUp(a: seq<Row>, b: seq<Row>, c: seq<Row>)
    requires OnlySignatures(a, b) && OnlySignatures(b, c)
    ensures OnlySignatures(a, c)
  {
  }

  /** Nothing but API calls happened in between. */
  ghost predicate OnlyCalls(before: seq<Label>, after: seq<Label>) {
    before <= after && forall j | |before| <= j < |after| :: after[j].Api?
  }

  /** After some calls, a batch was claimed. */
  ghost predicate PassBegan(before: seq<Label>, after: seq<Label>) {
    exists k :: |before| <= k < |after| && after[k] == ClaimBatch && OnlyCalls(before, after[..k])
  }

  lemma CallsOnlySign(cfg: Config, s: Sys, call: ServiceCalls.Call)
    ensures OnlySignatures(s.db.outbox, Next(cfg, s, Api(call)).db.outbox)
  {
    hide Next, ChangeOf;
    ApiStep(cfg, s, call);
  }

  /** What an error on the way to submitting leads to. */
  const FAILURE := Verdict(NO_PATCH.(status := Some(Failed)), None)

  /** What comes from outside: the ledger, the network or a caller of the API. */
  method Anything<T(0)>() returns (x: T) {
    x := *;
  }

  /** How the node answers the turns of one lookup. */
  method LookupRounds() returns (rounds: seq<Round>)
    ensures |rounds| == TX_LOOKUP_RETRIES
  {
    rounds := [];
    for i := 0 to TX_LOOKUP_RETRIES
      invariant |rounds| == i
    {
      var round: Round := Anything();
      rounds := rounds + [round];
    }
  }

  /** What the check before a pass finds out about the network. */
  datatype NetworkStatus = NetworkStatus(amendmentBlocked: bool, feeSpike: bool)

  class Executor {
    const cfg: Config
    const db: MemoryDatabase
    const services: LendingServices
    var amendmentBlocked: bool
    var feeSpike: bool

    /** Every step taken so far, by the executor and by the API. */
    ghost var labels: seq<Label>

    ghost function System(): Sys
      reads this`labels
    {
      Run(cfg, labels)
    }

    /** The database is where the steps so far lead, and deposits were reconciled in order. */
    ghost predicate Valid()
      reads this`labels, db
    {
      && services.db == db && System().db == db.View() && SequencesAgree(System().ops, db.sequences)
      && InOrder(cfg, labels)
    }

    constructor (cfg: Config)
      ensures Valid() && labels == [] && fresh(db) && this.cfg == cfg
    {
      this.cfg := cfg;
      var d := new MemoryDatabase();
      var s := new LendingServices(d);
      db := d;
      services := s;
      amendmentBlocked, feeSpike := false, false;
      labels := [];
      InOrderStart(cfg);
    }

    /** Notes a step that has been taken. */
    ghost method Took(l: Label)
      requires InOrder(cfg, labels) && InOrderAt(System(), l)
      modifies `labels
      ensures labels == old(labels) + [l] && System() == Next(cfg, old(System()), l) && InOrder(cfg, labels)
    {
      hide InOrder, InOrderAt;
      InOrderLonger(cfg, labels, l);
      RunLast(cfg, labels, l);
      labels := labels + [l];
    }

    /** Any number of API calls between two steps of the executor. */
    method ApiCalls()
      requires Valid()
      modifies db, `labels
      ensures Valid() && OnlyCalls(old(labels), labels)
      ensures System().worker == old(System()).worker && OnlySignatures(old(db.outbox), db.outbox)
      ensures System().wire == old(System()).wire
      ensures old(db.vaults) <= db.vaults && old(db.loanBrokers) <= db.loanBrokers
    {
      hide Run, Next, OnlySignatures, SequencesAgree;
      NothingSigned(db.outbox);
      var n: nat := Anything();
      for i := 0 to n
        invariant Valid() && OnlyCalls(old(labels), labels)
        invariant System().worker == old(System()).worker && OnlySignatures(old(db.outbox), db.outbox)
        invariant System().wire == old(System()).wire
        invariant old(db.vaults) <= db.vaults && old(db.loanBrokers) <= db.loanBrokers
      {
        var call: ServiceCalls.Call := Anything();
        ghost var before := db.outbox;
        CallsOnlySign(cfg, System(), call);
        RecordsAfterCall(System().db, call);
        ApiOnDb(cfg, System(), call);
        var reply := services.Handle(call);
        Took(Api(call));
        SignaturesAddUp(old(db.outbox), before, db.outbox);
      }
    }

    /** Writes what became of the row, and the transaction if there is one to record. */
    method WriteVerdict(id: nat, patch: Patch, rec: Option<TxRecord>)
      requires Valid() && Holds(System(), id, Verdict(patch, rec))
      modifies db, `labels
      ensures Valid() && old(labels) <= labels && System().worker == Finish(old(System()).worker)
      ensures System().wire == old(System()).wire
    {
      hide Next;
      WriteStep(cfg, System(), id, patch, rec);
      db.UpdateOutbox(id, patch);
      Took(WriteOutcome);
      if rec.Some? {
        ApiCalls();
        RecordStep(cfg, System(), id, rec.value);
        db.RecordTransaction(rec.value);
        Took(RecordTx);
      }
    }

    /** What an attempt that is not repeated leads to, after looking its transaction up if the ledger took it. */
    method JudgeSigned(attempt: nat, hash: string, reply: LedgerReply, lastLedgerSeq: Option<nat>, rounds: seq<Round>)
      returns (patch: Patch, rec: Option<TxRecord>, lookup: Option<TxResult>)
      requires !TriesAgain(attempt, reply) && |rounds| == TX_LOOKUP_RETRIES
      ensures Verdict(patch, rec) == SentStage(attempt, hash, reply, lookup)
      ensures lookup == if reply.Answer? && ClassifyResult(reply.engine) == Success
                        then LookupResult(rounds, lastLedgerSeq) else None
      ensures if reply.Answer? then SignedOutcome(hash, reply.engine, reply.result, lookup, patch, rec) else Unanswered(patch, rec)
    {
      hide ClassifyResult, LookupResult, SignedOutcome;
      patch, rec, lookup := NO_PATCH.(status := Some(Failed)), None, None;
      if reply.Answer? {
        var grade := ClassifyResult(reply.engine);
        if grade == Success {
          lookup := LookupTx(rounds, lastLedgerSeq);
          if lookup.Some? {
            var finalCode := FinalCode(lookup.value, reply.engine);
            var status := if ClassifyResult(finalCode) == Success then Validated else Failed;
            patch := Patch(Some(status), Some(Some(hash)), Some(lookup), None);
            rec := Some(TxRecord(hash, finalCode));
          } else {
            patch := Patch(Some(ManualReview), Some(Some(hash)), Some(reply.result), None);
          }
        } else {
          var status := if grade == Review then ManualReview else Failed;
          patch := Patch(Some(status), Some(Some(hash)), Some(reply.result), None);
          rec := Some(TxRecord(hash, reply.engine));
        }
      }
      if reply.Answer? { SignedByText(attempt, hash, reply.engine, reply.hash, reply.result, lookup); }
    }

    /** One attempt: reserves a sequence, signs and sends. */
    method SendOnce(id: nat, account: string, attempt: nat) returns (again: bool, patch: Patch, rec: Option<TxRecord>)
      requires Valid() && Holds(System(), id, Attempt(attempt)) && db.outbox[id].tx.account == account
      modifies db, `labels
      ensures Valid() && old(labels) <= labels && db.outbox == old(db.outbox)
      ensures again ==> attempt < MAX_SUBMIT_RETRIES
      ensures System().worker == At(old(System()).worker, if again then Attempt(attempt + 1) else Verdict(patch, rec))
    {
      hide Run, Next, Reservation, SequencesAgree, SentStage, AfterReserve, Forgets, ClassifyResult;
      var fetch: Option<int> := Anything();
      var fetchRetryable: bool := Anything();
      var hash: string := Anything();
      var reply: LedgerReply := Anything();
      var reserved := Reserve(account, fetch);
      if reserved == None { reply := NotSent(fetchRetryable); }
      if Forgets(attempt, reply) { Forget(account, fetch); }
      patch, rec := NO_PATCH, None;
      var lookup: Option<TxResult> := None;
      again := TriesAgain(attempt, reply);
      if again {
        RepeatedAttempt(attempt, hash, reply, None);
      } else {
        var lastLedgerSeq: Option<nat> := Anything();
        var rounds := LookupRounds();
        patch, rec, lookup := JudgeSigned(attempt, hash, reply, lastLedgerSeq, rounds);
      }
      hide TriesAgain;
      var l := SignAndSend(fetch, fetchRetryable, hash, reply, lookup);
      SendStep(cfg, System(), id, attempt, l, reply);
      Took(l);
    }

    /** Attempts to sign and send, at most three times in all. */
    method SignAndSubmit(id: nat, account: string, attempt: nat)
      requires Valid() && Holds(System(), id, Attempt(attempt)) && attempt <= MAX_SUBMIT_RETRIES
      requires db.outbox[id].tx.account == account
      modifies db, `labels
      ensures Valid() && old(labels) <= labels && System().worker == Finish(old(System()).worker)
      decreases MAX_SUBMIT_RETRIES - attempt
    {
      hide Run, SequencesAgree;
      ApiCalls();
      var again, patch, rec := SendOnce(id, account, attempt);
      if again {
        SignAndSubmit(id, account, attempt + 1);
      } else {
        ApiCalls();
        WriteVerdict(id, patch, rec);
      }
    }

    /** The account's next sequence, as the ledger tells it when none is held. */
    method Reserve(account: string, fetch: Option<int>) returns (reserved: Option<int>)
      requires SequencesAgree(System().ops, db.sequences)
      modifies db`sequences
      ensures reserved == Reservation(System().ops, account, fetch)
      ensures SequencesAgree(AfterReserve(System().ops, account, fetch, false), db.sequences)
    {
      ghost var before := db.sequences;
      reserved := db.ReserveAccountSequence(account, fetch);
      SequencesReserved(System().ops, account, fetch, before, db.sequences, reserved);
    }

    /** Drops the account's next sequence, so that the next reservation asks the ledger. */
    method Forget(account: string, ghost fetch: Option<int>)
      requires SequencesAgree(AfterReserve(System().ops, account, fetch, false), db.sequences)
      modifies db`sequences
      ensures SequencesAgree(AfterReserve(System().ops, account, fetch, true), db.sequences)
    {
      SequencesForgotten(AfterReserve(System().ops, account, fetch, false), account, db.sequences);
      db.ForgetAccountSequence(account);
    }

    /** What a sent blob's answer leads to, after looking its transaction up if the ledger took it. */
    method JudgeBlob(row: Row, reply: LedgerReply, rounds: seq<Round>)
      returns (patch: Patch, rec: Option<TxRecord>, lookup: Option<TxResult>)
      requires |rounds| == TX_LOOKUP_RETRIES
      ensures Verdict(patch, rec) == BlobStage(row, reply, lookup)
      ensures lookup == if reply.Answer? && ClassifyResult(reply.engine) == Success && Truthy(reply.hash)
                        then LookupResult(rounds, LastLedgerOf(row)) else None
      ensures if reply.Answer? then BlobOutcome(row, reply.hash, reply.engine, reply.result, lookup, patch, rec)
              else Unanswered(patch, rec)
    {
      hide ClassifyResult, LookupResult, BlobOutcome;
      patch, rec, lookup := NO_PATCH.(status := Some(Failed)), None, None;
      if reply.Answer? {
        var lastLedgerSeq := LastLedgerOf(row);
        var grade := ClassifyResult(reply.engine);
        if grade == Success && Truthy(reply.hash) {
          lookup := LookupTx(rounds, lastLedgerSeq);
          if lookup.Some? {
            var finalCode := FinalCode(lookup.value, reply.engine);
            var status := if ClassifyResult(finalCode) == Success then Validated else Failed;
            patch := Patch(Some(status), Some(reply.hash), Some(lookup), None);
            rec := Some(TxRecord(reply.hash.value, finalCode));
          } else {
            var meta := row.meta.(lastLedgerSequence := lastLedgerSeq);
            patch := Patch(Some(Status.Submitted), Some(reply.hash), Some(reply.result), Some(meta));
          }
        } else {
          var status := if grade == Review then ManualReview else if grade == Retry then Status.Submitted else Failed;
          patch := Patch(Some(status), Some(reply.hash), Some(reply.result), None);
          if Truthy(reply.hash) { rec := Some(TxRecord(reply.hash.value, reply.engine)); }
        }
      }
      if reply.Answer? { BlobByText(row, reply.engine, reply.hash, reply.result, lookup); }
    }

    /** Sends a blob both parties signed. */
    method SubmitBlobAndLookup(id: nat)
      requires Valid() && Holds(System(), id, BlobReady)
      modifies db, `labels
      ensures Valid() && old(labels) <= labels && System().worker == Finish(old(System()).worker)
    {
      hide Next, BlobStage;
      ApiCalls();
      var reply: LedgerReply := Anything();
      var rounds := LookupRounds();
      var patch, rec, lookup := JudgeBlob(db.outbox[id], reply, rounds);
      BlobStep(cfg, System(), id, reply, lookup);
      Took(SendBlob(reply, lookup));
      ApiCalls();
      WriteVerdict(id, patch, rec);
    }

    /** Takes a claimed row as far as it goes; `threw` when the ledger or the key could not be reached. */
    method ProcessOne(id: nat) returns (threw: bool)
      requires Valid() && Holds(System(), id, Claimed)
      modifies db, `labels
      ensures Valid() && old(labels) <= labels
      ensures cfg.dryRun || !cfg.lendingEnabled || feeSpike ==> System().wire == old(System()).wire
      ensures System().worker == if threw then At(old(System()).worker, FAILURE) else Finish(old(System()).worker)
    {
      hide Run, Next, SequencesAgree, RouteStage;
      threw := false;
      var pseudoHash: string := Anything();
      var connects: bool := Anything();
      GateStep(cfg, System(), id, feeSpike, connects, pseudoHash);
      if !cfg.lendingEnabled {
        Took(Gate(feeSpike, connects, pseudoHash));
        WriteVerdict(id, NO_PATCH.(status := Some(Blocked)), None);
      } else if cfg.dryRun {
        Took(Gate(feeSpike, connects, pseudoHash));
        WriteVerdict(id, Patch(Some(Prepared), Some(Some(pseudoHash)), Some(Some(TxResult(false, None, None))), None),
                     Some(TxRecord(pseudoHash, "DRY_RUN")));
      } else if feeSpike {
        Took(Gate(feeSpike, connects, pseudoHash));
        WriteVerdict(id, NO_PATCH.(status := Some(Blocked)), None);
      } else if !connects {
        Took(Gate(feeSpike, connects, pseudoHash));
        threw := true;
      } else {
        db.UpdateOutbox(id, NO_PATCH.(status := Some(Status.Submitted)));
        Took(Gate(feeSpike, connects, pseudoHash));
        threw := SubmitMarked(id);
      }
    }

    /** Chooses between the blob both parties signed and signing here; `threw` when the key store failed. */
    method SubmitMarked(id: nat) returns (threw: bool)
      requires Valid() && Holds(System(), id, Marked)
      modifies db, `labels
      ensures Valid() && old(labels) <= labels
      ensures System().worker == if threw then At(old(System()).worker, FAILURE) else Finish(old(System()).worker)
    {
      hide Run, Next, SequencesAgree;
      threw := false;
      ApiCalls();
      var row := db.outbox[id];
      var holdsKey: Option<bool> := Anything();
      RouteStep(cfg, System(), id, holdsKey);
      if row.kind == LoanSet && Truthy(row.meta.counterpartyBlob) {
        Took(Route(holdsKey));
        SubmitBlobAndLookup(id);
      } else if holdsKey == None {
        Took(Route(holdsKey));
        threw := true;
      } else if !holdsKey.value {
        Took(Route(holdsKey));
        WriteVerdict(id, NO_PATCH.(status := Some(Blocked)), None);
      } else {
        Took(Route(holdsKey));
        SignAndSubmit(id, row.tx.account, 0);
      }
    }

    method ClaimRowsToProcess() returns (ids: seq<nat>)
      requires Valid() && System().worker.Idle?
      modifies db, `labels
      ensures Valid() && labels == old(labels) + [ClaimBatch] && System().wire == old(System()).wire
      ensures System().worker == if ids == [] then Idle else Executing(ids, Claimed)
    {
      hide Run, Next, ClaimableIds, SequencesAgree;
      ClaimStep(cfg, System());
      ids := db.ClaimPendingOutbox(cfg.batchSize);
      assert ids == [] ==> ClaimRows(old(db.outbox), ids) == old(db.outbox);
      Took(ClaimBatch);
    }

    /** Takes every row of the batch as far as it goes. */
    method ProcessRows(ids: seq<nat>)
      requires Valid() && System().worker == if ids == [] then Idle else Executing(ids, Claimed)
      modifies db, `labels
      ensures Valid() && old(labels) <= labels && System().worker.Idle?
      ensures cfg.dryRun || !cfg.lendingEnabled || feeSpike ==> System().wire == old(System()).wire
    {
      hide Run, Next, SequencesAgree, ClaimableIds, ClaimRows, UpdateRow, RouteStage, BlobStage;
      for k := 0 to |ids|
        invariant Valid() && old(labels) <= labels
        invariant System().worker == if k == |ids| then Idle else Executing(ids[k..], Claimed)
        invariant cfg.dryRun || !cfg.lendingEnabled || feeSpike ==> System().wire == old(System()).wire
      {
        ApiCalls();
        ControlHolds(cfg, labels);
        var threw := ProcessOne(ids[k]);
        if threw {
          ApiCalls();
          ControlHolds(cfg, labels);
          WriteVerdict(ids[k], NO_PATCH.(status := Some(Failed)), None);
        }
        assert ids[k..][1..] == ids[k + 1..];
      }
    }

    /** One pass, unless the network is blocked: claims a batch and takes every row of it as far as it goes. */
    method ProcessPending(network: NetworkStatus)
      requires Valid() && System().worker.Idle?
      modifies this, db
      ensures Valid() && old(labels) <= labels && System().worker.Idle?
      ensures if network.amendmentBlocked then labels == old(labels) && db.View() == old(db.View())
              else PassBegan(old(labels), labels)
      ensures amendmentBlocked == network.amendmentBlocked && feeSpike == network.feeSpike
      ensures cfg.dryRun || !cfg.lendingEnabled || network.feeSpike ==> System().wire == old(System()).wire
      ensures forall i | 0 <= i < |db.outbox| :: db.outbox[i].status != Processing
    {
      hide Run, Next, SequencesAgree, ClaimableIds, ClaimRows, UpdateRow, RouteStage, BlobStage;
      amendmentBlocked := network.amendmentBlocked;
      feeSpike := network.feeSpike;
      if !amendmentBlocked {
        ApiCalls();
        ghost var called := labels;
        var ids := ClaimRowsToProcess();
        ghost var claimed := labels;
        ProcessRows(ids);
        assert labels[..|called|] == called && labels[|called|] == ClaimBatch;
      }
      NothingInHand();
    }

    lemma NothingInHand()
      requires Valid() && System().worker.Idle?
      ensures forall i | 0 <= i < |db.outbox| :: db.outbox[i].status != Processing
    {
      hide Run, SequencesAgree;
      ControlHolds(cfg, labels);
      forall i | 0 <= i < |db.outbox| ensures db.outbox[i].status != Processing {
        assert RowOk(System().db.outbox[i], PlaceOf(System().worker, i));
      }
    }
  }

  lemma ApiOnDb(cfg: Config, s: Sys, call: ServiceCalls.Call)
    ensures Next(cfg, s, Api(call)) == s.(db := ServiceCalls.Handle(s.db, call).0)
  {
  }
}
