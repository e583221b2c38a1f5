/**
 * Separation of duties over every run: nobody with a non-empty `sub` both approves a loan and
 * prepares or signs its submission. The check skips an actor whose `sub` is missing or empty,
 * so the non-empty `sub` is exactly what the guarantee needs.
 */
module SeparationOfDuties {
  import opened Options
  import opened SharedTypes
  import opened OutboxDb
  import opened Protocol
  import opened ServiceCalls
  import opened Control

  const APPROVE := "loan_approve"

  predicate Approves(e: Note, loanId: nat, sub: string) {
    e.aggregate == LoanAggregate && e.aggregateId == loanId && e.actor == Some(sub) && e.action == Some(APPROVE)
  }

  predicate Submits(e: Note, loanId: nat, sub: string) {
    e.aggregate == LoanAggregate && e.aggregateId == loanId && e.actor == Some(sub)
    && (e.action == Some("prepare_cosign") || e.action == Some("broker_sign"))
  }

  ghost predicate ApprovedBy(evidence: seq<Note>, loanId: nat, sub: string) {
    exists i | 0 <= i < |evidence| :: Approves(evidence[i], loanId, sub)
  }

  ghost predicate SubmittedBy(evidence: seq<Note>, loanId: nat, sub: string) {
    exists i | 0 <= i < |evidence| :: Submits(evidence[i], loanId, sub)
  }

  ghost predicate DutiesSeparate(evidence: seq<Note>) {
    forall loanId: nat, sub: string | sub != "" :: !(ApprovedBy(evidence, loanId, sub) && SubmittedBy(evidence, loanId, sub))
  }

  /** Notes about loans are about loans that exist, and use one of the four loan actions. */
  ghost predicate LoanNotesOk(evidence: seq<Note>, loans: nat) {
    forall i | 0 <= i < |evidence| && evidence[i].aggregate == LoanAggregate ::
      evidence[i].aggregateId < loans
      && evidence[i].action in {Some(APPROVE), Some("prepare_cosign"), Some("broker_sign"), Some("borrower_sign")}
  }

  ghost predicate SodInv(db: Db) { DutiesSeparate(db.evidence) && LoanNotesOk(db.evidence, |db.loans|) }

  lemma LoanActionsUpper()
    ensures Upper(APPROVE) == "LOAN_APPROVE"
    ensures Upper("prepare_cosign") !in SUBMIT_CONFLICTS
    ensures Upper("broker_sign") !in SUBMIT_CONFLICTS
    ensures Upper("borrower_sign") !in SUBMIT_CONFLICTS
  {
    assert Upper("prepare_cosign")[0] == 'P';
    assert Upper("broker_sign")[0] == 'B';
    assert Upper("borrower_sign")[0] == 'B';
  }

  /** Where loan notes are what they are in every run, the scan finds exactly the approvals. */
  lemma ScanFindsApprovals(evidence: seq<Note>, loans: nat, loanId: nat, actor: Actor)
    requires LoanNotesOk(evidence, loans)
    ensures ViolatesSod(evidence, loanId, actor)
            <==> Truthy(actor) && ApprovedBy(evidence, loanId, actor.value)
  {
    hide Upper;
    LoanActionsUpper();
    if Truthy(actor) {
      forall i | 0 <= i < |evidence|
        ensures Conflicting(evidence[i], loanId, actor.value) <==> Approves(evidence[i], loanId, actor.value)
      {
        assert SUBMIT_CONFLICTS[0] == "LOAN_APPROVE";
      }
    }
  }

  /** The action is the word, in letters of either case. */
  predicate Spells(action: string, word: string) {
    |action| == |word|
    && forall k | 0 <= k < |word| ::
         action[k] == word[k] || ('a' <= word[k] <= 'z' && action[k] as int == word[k] as int - 32)
  }

  lemma SpelledUpper(action: string, word: string, capitals: string)
    requires |word| == |capitals|
    requires forall k | 0 <= k < |word| ::
               if 'a' <= word[k] <= 'z' then capitals[k] as int == word[k] as int - 32
               else capitals[k] == word[k] && !('A' <= word[k] <= 'Z')
    ensures Upper(action) == capitals <==> Spells(action, word)
  {
    if |action| == |word| {
      forall k | 0 <= k < |word|
        ensures UpperChar(action[k]) == capitals[k]
                <==> action[k] == word[k] || ('a' <= word[k] <= 'z' && action[k] as int == word[k] as int - 32)
      {
      }
      if Upper(action) == capitals {
        forall k | 0 <= k < |word| ensures UpperChar(action[k]) == capitals[k] { assert Upper(action)[k] == capitals[k]; }
      }
    }
  }

  /** The scan finds an event of the loan by this very actor that approved it or closed a reconciliation, in letters of either case. */
  lemma ConflictsByText(evidence: seq<Note>, loanId: nat, actor: Actor)
    ensures ViolatesSod(evidence, loanId, actor)
            <==> && actor.Some? && actor.value != ""
                 && exists i | 0 <= i < |evidence| ::
                      && evidence[i].aggregate == LoanAggregate && evidence[i].aggregateId == loanId
                      && evidence[i].actor == actor && evidence[i].action.Some?
                      && (Spells(evidence[i].action.value, "loan_approve") || Spells(evidence[i].action.value, "reconciliation_close"))
  {
    hide Upper, Spells;
    if actor.Some? && actor.value != "" {
      forall i | 0 <= i < |evidence| && evidence[i].action.Some?
        ensures evidence[i].action.value != "" && Upper(evidence[i].action.value) in SUBMIT_CONFLICTS
                <==> Spells(evidence[i].action.value, "loan_approve") || Spells(evidence[i].action.value, "reconciliation_close")
      {
        TwoWords(evidence[i].action.value);
      }
    }
  }

  lemma TwoWords(action: string)
    ensures action != "" && Upper(action) in SUBMIT_CONFLICTS
            <==> Spells(action, "loan_approve") || Spells(action, "reconciliation_close")
  {
    SpelledUpper(action, "loan_approve", "LOAN_APPROVE");
    SpelledUpper(action, "reconciliation_close", "RECONCILIATION_CLOSE");
    assert SUBMIT_CONFLICTS[0] == "LOAN_APPROVE" && SUBMIT_CONFLICTS[1] == "RECONCILIATION_CLOSE";
    assert |Upper(action)| == |action|;
  }

  /** The note an accepted call adds, if any, respects what is already in the log. */
  ghost predicate NoteFits(db: Db, loans: nat, n: Note) {
    n.aggregate == LoanAggregate ==>
      && n.aggregateId < loans
      && n.action in {Some(APPROVE), Some("prepare_cosign"), Some("broker_sign"), Some("borrower_sign")}
      && (n.action == Some(APPROVE) ==> n.aggregateId == |db.loans|)
      && (n.action == Some("prepare_cosign") || n.action == Some("broker_sign") ==>
            n.aggregateId < |db.loans| && !ViolatesSod(db.evidence, n.aggregateId, n.actor))
  }

  lemma HandleNoteFits(db: Db, call: Call)
    ensures var t := Handle(db, call).0;
            && |db.loans| <= |t.loans|
            && (t.evidence == db.evidence || exists n: Note :: t.evidence == db.evidence + [n] && NoteFits(db, |t.loans|, n))
  {
    hide ViolatesSod, Rejects, MayCounterSign;
    var t := Handle(db, call).0;
    if |t.evidence| > |db.evidence| {
      var n := t.evidence[|db.evidence|];
      assert t.evidence == db.evidence + [n] && NoteFits(db, |t.loans|, n);
    }
  }

  lemma LastNote(evidence: seq<Note>, n: Note, loanId: nat, sub: string)
    ensures ApprovedBy(evidence + [n], loanId, sub) <==> ApprovedBy(evidence, loanId, sub) || Approves(n, loanId, sub)
    ensures SubmittedBy(evidence + [n], loanId, sub) <==> SubmittedBy(evidence, loanId, sub) || Submits(n, loanId, sub)
  {
    var after := evidence + [n];
    assert after[|evidence|] == n;
    assert forall i | 0 <= i < |evidence| :: after[i] == evidence[i];
  }

  lemma LoansAreNew(db: Db, loanId: nat, sub: string)
    requires SodInv(db)
    ensures SubmittedBy(db.evidence, loanId, sub) ==> loanId < |db.loans|
  {
  }

  lemma SodAppend(db: Db, loans: nat, n: Note)
    requires SodInv(db) && |db.loans| <= loans && NoteFits(db, loans, n)
    ensures DutiesSeparate(db.evidence + [n]) && LoanNotesOk(db.evidence + [n], loans)
  {
    hide ViolatesSod;
    forall loanId: nat, sub: string | sub != ""
      ensures !(ApprovedBy(db.evidence + [n], loanId, sub) && SubmittedBy(db.evidence + [n], loanId, sub))
    {
      LastNote(db.evidence, n, loanId, sub);
      hide ApprovedBy, SubmittedBy;
      ScanFindsApprovals(db.evidence, |db.loans|, loanId, Some(sub));
      LoansAreNew(db, loanId, sub);
    }
  }

  lemma EnrichedKeeps(db: Db, row: Row)
    ensures Enriched(db, row).evidence == db.evidence && |Enriched(db, row).loans| == |db.loans|
  {
  }

  lemma WorkerKeepsLog(cfg: Config, s: Sys, l: Label)
    requires !l.Api?
    ensures Next(cfg, s, l).db.evidence == s.db.evidence && |Next(cfg, s, l).db.loans| == |s.db.loans|
  {
    hide Next, Enriched;
    WorkerKeepsRecords(cfg, s, l);
    if Enriching(s, l) { EnrichedKeeps(s.db, s.db.outbox[l.id]); }
  }

  lemma SodNext(cfg: Config, s: Sys, l: Label)
    requires SodInv(s.db)
    ensures SodInv(Next(cfg, s, l).db)
  {
    match l
    case Api(call) =>
      hide Handle;
      HandleNoteFits(s.db, call);
      var t := Handle(s.db, call).0;
      if t.evidence != s.db.evidence {
        var n: Note :| t.evidence == s.db.evidence + [n] && NoteFits(s.db, |t.loans|, n);
        SodAppend(s.db, |t.loans|, n);
      }
    case _ =>
      hide Next;
      WorkerKeepsLog(cfg, s, l);
  }

  lemma {:induction false} SodHolds(cfg: Config, labels: seq<Label>)
    ensures SodInv(Run(cfg, labels).db)
  {
    hide Next;
    if labels != [] {
      SodHolds(cfg, labels[..|labels| - 1]);
      SodNext(cfg, Run(cfg, labels[..|labels| - 1]), labels[|labels| - 1]);
    }
  }

  // ---------- main results ----------

  /** In every state of every run, whoever approved a loan has neither prepared nor signed it, and the other way round. */
  lemma NobodyApprovesAndSubmits(cfg: Config, s: Sys, loanId: nat, sub: string)
    requires Reachable(cfg, s) && sub != ""
    ensures !(ApprovedBy(s.db.evidence, loanId, sub) && SubmittedBy(s.db.evidence, loanId, sub))
  {
    hide Run, Reachable;
    var labels := ReachedBy(cfg, s);
    SodHolds(cfg, labels);
  }

  /** The two submitting calls are refused on these grounds exactly when an actor with a non-empty sub approved the loan. */
  lemma RefusedExactlyForApprovers(cfg: Config, s: Sys, loanId: nat, actor: Actor, blob: Option<string>, hash: Option<string>)
    requires Reachable(cfg, s)
    ensures var db := s.db;
            var approver := Truthy(actor) && ApprovedBy(db.evidence, loanId, actor.value);
            && (DoPrepareCosignPacket(db, loanId, actor).1 == Refused(SodViolation) <==> approver)
            && (DoRecordBrokerSignature(db, loanId, blob, hash, actor).1 == Refused(SodViolation)
                <==> approver && db.loans[loanId].status == CosignPending)
  {
    hide Run, Reachable, ViolatesSod;
    var labels := ReachedBy(cfg, s);
    SodHolds(cfg, labels);
    ScanFindsApprovals(s.db.evidence, |s.db.loans|, loanId, actor);
  }
}
