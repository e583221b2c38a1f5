/**
 * Loans that are active without a ledger id. Enrichment activates a loan on a sequence number
 * alone, so such loans exist; this says exactly when.
 */
module ActiveLoans {
  import opened Options
  import opened SharedTypes
  import opened OutboxDb
  import opened Protocol
  import opened ServiceCalls
  import opened Control
  import opened Ownership
  import opened TxExecutor

  predicate ActiveWithoutId(db: Db, x: nat) {
    x < |db.loans| && db.loans[x].status == LoanActive && !Truthy(db.loans[x].xrplLoanId)
  }

  /** Metadata of a created loan with a sequence but no index. */
  ghost predicate Incomplete(r: Option<TxResult>) {
    var ids := CreatedIds(r);
    !Truthy(ids.loanId) && ids.loanSeq.Some? && ids.loanSeq.value != 0
  }

  /** The step enriches loan x from a LoanSet row of its own. */
  ghost predicate EnrichesLoan(s: Sys, l: Label, x: nat) {
    Enriching(s, l) && s.db.outbox[l.id].kind == LoanSet && s.db.outbox[l.id].aggregateId == x
  }

  ghost predicate LosesId(s: Sys, l: Label, x: nat) {
    EnrichesLoan(s, l, x) && Incomplete(s.db.outbox[l.id].txResult)
  }

  ghost predicate FindsId(s: Sys, l: Label, x: nat) {
    EnrichesLoan(s, l, x) && Truthy(CreatedIds(s.db.outbox[l.id].txResult).loanId)
  }

  /** The loan is prepared for signing, once more, which takes it back from active. */
  ghost predicate PreparesAgain(s: Sys, l: Label, x: nat) {
    l.Api? && l.call.PrepareCosignPacket? && l.call.loanId == x && Handle(s.db, l.call).1 == Accepted
  }

  // ---------- one step ----------

  lemma LoanAfterCall(db: Db, call: Call, x: nat)
    ensures ActiveWithoutId(Handle(db, call).0, x)
            <==> ActiveWithoutId(db, x)
                 && !(call.PrepareCosignPacket? && call.loanId == x && Handle(db, call).1 == Accepted)
  {
    hide ViolatesSod, Rejects, MayCounterSign, FindLoanSet, FindParty;
  }

  lemma LoanAfterEnrichment(db: Db, row: Row, x: nat)
    requires RowOwned(db, row)
    ensures var of := row.kind == LoanSet && row.aggregateId == x;
            ActiveWithoutId(Enriched(db, row), x)
            <==> (of && Incomplete(row.txResult))
                 || (ActiveWithoutId(db, x) && !(of && Truthy(CreatedIds(row.txResult).loanId)))
  {
    hide CreatedIds;
  }

  lemma LoanAfterStep(cfg: Config, s: Sys, l: Label, x: nat)
    requires OwnershipInv(s.db)
    ensures ActiveWithoutId(Next(cfg, s, l).db, x)
            <==> LosesId(s, l, x) || (ActiveWithoutId(s.db, x) && !FindsId(s, l, x) && !PreparesAgain(s, l, x))
  {
    match l
    case Api(call) =>
      hide Next, Handle;
      ApiOnDb(cfg, s, call);
      LoanAfterCall(s.db, call, x);
    case _ =>
      hide Next;
      LoanAfterWorker(cfg, s, l, x);
  }

  lemma LoanAfterWorker(cfg: Config, s: Sys, l: Label, x: nat)
    requires OwnershipInv(s.db) && !l.Api?
    ensures ActiveWithoutId(Next(cfg, s, l).db, x)
            <==> LosesId(s, l, x) || (ActiveWithoutId(s.db, x) && !FindsId(s, l, x))
  {
    hide Next, Enriched, RowOwned, CreatedIds, Incomplete;
    WorkerKeepsRecords(cfg, s, l);
    if Enriching(s, l) {
      LoanAfterEnrichment(s.db, s.db.outbox[l.id], x);
    }
  }

  // ---------- runs ----------

  /** Step j left loan x active without an id, and no step up to moment k made up for it. */
  ghost predicate LeftWithoutId(labels: seq<Label>, states: seq<Sys>, x: nat, j: nat, k: nat)
    requires j < k <= |labels| && |states| == |labels| + 1
  {
    LosesId(states[j], labels[j], x)
    && forall m | j < m < k :: !FindsId(states[m], labels[m], x) && !PreparesAgain(states[m], labels[m], x)
  }

  ghost predicate WasLeftWithoutId(labels: seq<Label>, states: seq<Sys>, x: nat, k: nat)
    requires k <= |labels| && |states| == |labels| + 1
  {
    exists j: nat :: j < k && LeftWithoutId(labels, states, x, j, k)
  }

  lemma LeftStep(labels: seq<Label>, states: seq<Sys>, x: nat, k: nat)
    requires k < |labels| && |states| == |labels| + 1
    ensures WasLeftWithoutId(labels, states, x, k + 1)
            <==> LosesId(states[k], labels[k], x)
                 || (WasLeftWithoutId(labels, states, x, k)
                     && !FindsId(states[k], labels[k], x) && !PreparesAgain(states[k], labels[k], x))
  {
    hide LosesId, FindsId, PreparesAgain;
    var kept := !FindsId(states[k], labels[k], x) && !PreparesAgain(states[k], labels[k], x);
    forall j: nat | j < k
      ensures LeftWithoutId(labels, states, x, j, k + 1) <==> LeftWithoutId(labels, states, x, j, k) && kept
    {
      LeftLonger(labels, states, x, j, k);
    }
    assert LeftWithoutId(labels, states, x, k, k + 1) <==> LosesId(states[k], labels[k], x);
    hide LeftWithoutId;
    if WasLeftWithoutId(labels, states, x, k + 1) {
      var j: nat :| j < k + 1 && LeftWithoutId(labels, states, x, j, k + 1);
      assert j == k || LeftWithoutId(labels, states, x, j, k);
    }
    if WasLeftWithoutId(labels, states, x, k) && kept {
      var j: nat :| j < k && LeftWithoutId(labels, states, x, j, k);
      assert LeftWithoutId(labels, states, x, j, k + 1);
    }
    assert LosesId(states[k], labels[k], x) ==> LeftWithoutId(labels, states, x, k, k + 1);
  }

  lemma LeftLonger(labels: seq<Label>, states: seq<Sys>, x: nat, j: nat, k: nat)
    requires j < k < |labels| && |states| == |labels| + 1
    ensures LeftWithoutId(labels, states, x, j, k + 1)
            <==> LeftWithoutId(labels, states, x, j, k)
                 && !FindsId(states[k], labels[k], x) && !PreparesAgain(states[k], labels[k], x)
  {
    hide LosesId, FindsId, PreparesAgain;
  }

  /**
   * At any moment of any run a loan is active without a ledger id exactly when some earlier
   * enrichment met a LoanSet row of it whose metadata has a loan sequence and no index, and
   * since then none met one with an index and the loan was not prepared again.
   */
  lemma {:induction false} ActiveWithoutIdExactlyWhen(cfg: Config, labels: seq<Label>, states: seq<Sys>, k: nat, x: nat)
    requires IsRun(cfg, labels, states) && k <= |labels|
    ensures ActiveWithoutId(states[k].db, x) <==> WasLeftWithoutId(labels, states, x, k)
  {
    hide Run, Next, LosesId, FindsId, PreparesAgain, OwnershipInv;
    if k > 0 {
      ActiveWithoutIdExactlyWhen(cfg, labels, states, k - 1, x);
      StateAt(cfg, labels, states, k - 1);
      OwnershipHolds(cfg, labels[..k - 1]);
      assert Moment(k - 1);
      LoanAfterStep(cfg, states[k - 1], labels[k - 1], x);
      hide WasLeftWithoutId;
      LeftStep(labels, states, x, k - 1);
    }
  }
}
