/** Who may sign and counter-sign a loan, and whose signatures a row carries. */
module Signers {
  import opened Options
  import opened SharedTypes
  import opened OutboxDb
  import opened Protocol
  import opened ServiceCalls
  import opened Control
  import opened Progress
  import opened TxExecutor
  import opened SeparationOfDuties

  /**
   * At every moment of every run, counter-signing a loan that exists is refused to a user on grounds of identity
   * exactly when neither the loan names the user as its borrower nor the first party linked to the user; such a call
   * changes nothing.
   */
  lemma RefusedExactlyToOthers(cfg: Config, labels: seq<Label>, states: seq<Sys>, j: nat, k: nat, blob: Option<string>, sub: string)
    requires IsRun(cfg, labels, states) && j < |labels| && k < |states[j].db.loans| && sub != ""
    requires labels[j] == Api(RecordBorrowerSignature(k, blob, Some(sub)))
    ensures var db := states[j].db;
            var reply := Handle(db, labels[j].call).1;
            && (reply == Refused(BorrowerIdentityMismatch)
                <==> db.loans[k].borrowerPartyId != Some(sub)
                     && !exists p: nat :: FirstLinked(db.parties, sub, p) && db.loans[k].borrowerPartyId == Some(db.parties[p].id))
            && (reply == Refused(BorrowerIdentityMismatch) ==> states[j + 1] == states[j])
  {
    hide FindLoanSet, MayCounterSign, FirstLinked;
    MayCounterSignExactly(states[j].db, k, Some(sub));
    assert Moment(j);
    ApiOnDb(cfg, states[j], labels[j].call);
    hide Next;
  }

  // ---------- where a counter-signature comes from ----------

  /** The step is an accepted counter-signature of the loan with the blob, by its borrower if by a user at all. */
  ghost predicate CounterSigns(s: Sys, l: Label, k: nat, blob: Option<string>) {
    && l.Api? && l.call.RecordBorrowerSignature? && l.call.loanId == k && l.call.blob == blob && k < |s.db.loans|
    && (Truthy(l.call.actor) ==> IsBorrower(s.db, k, l.call.actor.value))
  }

  ghost predicate WasCounterSigned(labels: seq<Label>, states: seq<Sys>, k: nat, blob: Option<string>, n: nat)
    requires n <= |labels| && |states| == |labels| + 1
  {
    exists m: nat :: m < n && CounterSigns(states[m], labels[m], k, blob)
  }

  /** A counter-signed row carries the blob of a counter-signature of its loan. */
  ghost predicate BlobsGiven(labels: seq<Label>, states: seq<Sys>, n: nat)
    requires n <= |labels| && |states| == |labels| + 1
  {
    forall i: nat | i < |states[n].db.outbox| && states[n].db.outbox[i].meta.counterpartySigned ::
      var row := states[n].db.outbox[i];
      WasCounterSigned(labels, states, row.aggregateId, row.meta.counterpartyBlob, n)
  }

  lemma LongerCounterSigned(labels: seq<Label>, states: seq<Sys>, k: nat, blob: Option<string>, n: nat)
    requires n < |labels| && |states| == |labels| + 1
    ensures WasCounterSigned(labels, states, k, blob, n) ==> WasCounterSigned(labels, states, k, blob, n + 1)
    ensures CounterSigns(states[n], labels[n], k, blob) ==> WasCounterSigned(labels, states, k, blob, n + 1)
  {
    hide CounterSigns;
  }

  /** A call changes a row's counter-signature only by giving one. */
  lemma CallCounterSigns(cfg: Config, s: Sys, call: Call, i: nat)
    ensures var t := Next(cfg, s, Api(call));
            i < |t.db.outbox| && t.db.outbox[i].meta.counterpartySigned ==>
              || CounterSigns(s, Api(call), t.db.outbox[i].aggregateId, t.db.outbox[i].meta.counterpartyBlob)
              || (i < |s.db.outbox| && s.db.outbox[i].meta.counterpartySigned
                  && t.db.outbox[i].aggregateId == s.db.outbox[i].aggregateId
                  && t.db.outbox[i].meta.counterpartyBlob == s.db.outbox[i].meta.counterpartyBlob)
  {
    hide Next, Handle, NotesAdded, CounterSigns;
    ApiStep(cfg, s, call);
    var c := ChangeOf(s.db, call);
    hide ChangeOf;
    if c.BorrowerSigned? && c.id == i { GivenBy(s, call); }
  }

  lemma GivenBy(s: Sys, call: Call)
    requires ChangeOf(s.db, call).BorrowerSigned?
    ensures var c := ChangeOf(s.db, call);
            c.id < |s.db.outbox| && CounterSigns(s, Api(call), s.db.outbox[c.id].aggregateId, c.blob)
  {
    hide MayCounterSign, ViolatesSod, Rejects, IsBorrower;
    if call.RecordBorrowerSignature? && call.loanId < |s.db.loans| { MayCounterSignExactly(s.db, call.loanId, call.actor); }
  }

  lemma BlobsGivenStep(cfg: Config, labels: seq<Label>, states: seq<Sys>, n: nat)
    requires IsRun(cfg, labels, states) && n < |labels| && BlobsGiven(labels, states, n)
    ensures BlobsGiven(labels, states, n + 1)
  {
    hide Next, CounterSigns, WasCounterSigned, ControlInv;
    ControlAt(cfg, labels, states, n);
    assert Moment(n);
    var s, l, t := states[n], labels[n], states[n + 1];
    forall i: nat | i < |t.db.outbox| && t.db.outbox[i].meta.counterpartySigned
      ensures WasCounterSigned(labels, states, t.db.outbox[i].aggregateId, t.db.outbox[i].meta.counterpartyBlob, n + 1)
    {
      if l.Api? {
        CallCounterSigns(cfg, s, l.call, i);
      } else {
        WorkerStepMoves(cfg, s, l);
        assert WorkerMoves(s.db.outbox[i], t.db.outbox[i]);
      }
      LongerCounterSigned(labels, states, t.db.outbox[i].aggregateId, t.db.outbox[i].meta.counterpartyBlob, n);
    }
  }

  lemma {:induction false} BlobsGivenHold(cfg: Config, labels: seq<Label>, states: seq<Sys>, n: nat)
    requires IsRun(cfg, labels, states) && n <= |labels|
    ensures BlobsGiven(labels, states, n)
  {
    hide Next, BlobsGiven;
    if n == 0 {
      NothingGiven(labels, states);
    } else {
      BlobsGivenHold(cfg, labels, states, n - 1);
      BlobsGivenStep(cfg, labels, states, n - 1);
    }
  }

  lemma NothingGiven(labels: seq<Label>, states: seq<Sys>)
    requires |states| == |labels| + 1 && states[0] == START
    ensures BlobsGiven(labels, states, 0)
  {
  }

  /**
   * In every run, the blob of a counter-signed row was given for its loan by an earlier call, and if a user made that
   * call, by the loan's borrower at that moment.
   */
  lemma BlobIsTheBorrowers(cfg: Config, labels: seq<Label>, states: seq<Sys>, n: nat, i: nat) returns (m: nat)
    requires IsRun(cfg, labels, states) && n <= |labels|
    requires i < |states[n].db.outbox| && states[n].db.outbox[i].meta.counterpartySigned
    ensures m < n && labels[m].Api? && labels[m].call.RecordBorrowerSignature?
    ensures var row := states[n].db.outbox[i];
            var call, db := labels[m].call, states[m].db;
            && call.loanId == row.aggregateId < |db.loans| && call.blob == row.meta.counterpartyBlob
            && (Truthy(call.actor) ==> IsBorrower(db, call.loanId, call.actor.value))
  {
    hide Next, CounterSigns, IsBorrower;
    BlobsGivenHold(cfg, labels, states, n);
    var row := states[n].db.outbox[i];
    assert WasCounterSigned(labels, states, row.aggregateId, row.meta.counterpartyBlob, n);
    m :| m < n && CounterSigns(states[m], labels[m], row.aggregateId, row.meta.counterpartyBlob);
    CounterSignsMeans(states[m], labels[m], row.aggregateId, row.meta.counterpartyBlob);
  }

  lemma CounterSignsMeans(s: Sys, l: Label, k: nat, blob: Option<string>)
    requires CounterSigns(s, l, k, blob)
    ensures l.Api? && l.call.RecordBorrowerSignature? && l.call.loanId == k && l.call.blob == blob && k < |s.db.loans|
    ensures Truthy(l.call.actor) ==> IsBorrower(s.db, k, l.call.actor.value)
  {
  }

  // ---------- where the broker's signature comes from ----------

  /** The step is a broker's signature of the loan with the blob, while it is prepared for signing, and not by a user whose approval is on record. */
  ghost predicate BrokerSigns(s: Sys, l: Label, k: nat, blob: Option<string>) {
    && l.Api? && l.call.RecordBrokerSignature? && l.call.loanId == k && l.call.blob == blob
    && k < |s.db.loans| && s.db.loans[k].status == CosignPending && !ViolatesSod(s.db.evidence, k, l.call.actor)
  }

  ghost predicate WasBrokerSigned(labels: seq<Label>, states: seq<Sys>, k: nat, blob: Option<string>, n: nat)
    requires n <= |labels| && |states| == |labels| + 1
  {
    exists m: nat :: m < n && BrokerSigns(states[m], labels[m], k, blob)
  }

  ghost predicate BrokerBlobsGiven(labels: seq<Label>, states: seq<Sys>, n: nat)
    requires n <= |labels| && |states| == |labels| + 1
  {
    forall i: nat | i < |states[n].db.outbox| && states[n].db.outbox[i].meta.brokerSigned ::
      var row := states[n].db.outbox[i];
      WasBrokerSigned(labels, states, row.aggregateId, row.meta.brokerBlob, n)
  }

  lemma LongerBrokerSigned(labels: seq<Label>, states: seq<Sys>, k: nat, blob: Option<string>, n: nat)
    requires n < |labels| && |states| == |labels| + 1
    ensures WasBrokerSigned(labels, states, k, blob, n) ==> WasBrokerSigned(labels, states, k, blob, n + 1)
    ensures BrokerSigns(states[n], labels[n], k, blob) ==> WasBrokerSigned(labels, states, k, blob, n + 1)
  {
    hide BrokerSigns;
  }

  lemma CallBrokerSigns(cfg: Config, s: Sys, call: Call, i: nat)
    ensures var t := Next(cfg, s, Api(call));
            i < |t.db.outbox| && t.db.outbox[i].meta.brokerSigned ==>
              || BrokerSigns(s, Api(call), t.db.outbox[i].aggregateId, t.db.outbox[i].meta.brokerBlob)
              || (i < |s.db.outbox| && s.db.outbox[i].meta.brokerSigned
                  && t.db.outbox[i].aggregateId == s.db.outbox[i].aggregateId
                  && t.db.outbox[i].meta.brokerBlob == s.db.outbox[i].meta.brokerBlob)
  {
    hide Next, Handle, NotesAdded, BrokerSigns;
    ApiStep(cfg, s, call);
    var c := ChangeOf(s.db, call);
    hide ChangeOf;
    if c.BrokerSigned? && c.id == i { SignedByBroker(s, call); }
  }

  lemma SignedByBroker(s: Sys, call: Call)
    requires ChangeOf(s.db, call).BrokerSigned?
    ensures var c := ChangeOf(s.db, call);
            c.id < |s.db.outbox| && BrokerSigns(s, Api(call), s.db.outbox[c.id].aggregateId, c.blob)
  {
    hide MayCounterSign, ViolatesSod, Rejects;
  }

  lemma BrokerBlobsStep(cfg: Config, labels: seq<Label>, states: seq<Sys>, n: nat)
    requires IsRun(cfg, labels, states) && n < |labels| && BrokerBlobsGiven(labels, states, n)
    ensures BrokerBlobsGiven(labels, states, n + 1)
  {
    hide Next, BrokerSigns, WasBrokerSigned, ControlInv;
    ControlAt(cfg, labels, states, n);
    assert Moment(n);
    var s, l, t := states[n], labels[n], states[n + 1];
    forall i: nat | i < |t.db.outbox| && t.db.outbox[i].meta.brokerSigned
      ensures WasBrokerSigned(labels, states, t.db.outbox[i].aggregateId, t.db.outbox[i].meta.brokerBlob, n + 1)
    {
      if l.Api? {
        CallBrokerSigns(cfg, s, l.call, i);
      } else {
        WorkerStepMoves(cfg, s, l);
        assert WorkerMoves(s.db.outbox[i], t.db.outbox[i]);
      }
      LongerBrokerSigned(labels, states, t.db.outbox[i].aggregateId, t.db.outbox[i].meta.brokerBlob, n);
    }
  }

  lemma {:induction false} BrokerBlobsHold(cfg: Config, labels: seq<Label>, states: seq<Sys>, n: nat)
    requires IsRun(cfg, labels, states) && n <= |labels|
    ensures BrokerBlobsGiven(labels, states, n)
  {
    hide Next, BrokerBlobsGiven;
    if n == 0 {
      NoBrokerSigned(labels, states);
    } else {
      BrokerBlobsHold(cfg, labels, states, n - 1);
      BrokerBlobsStep(cfg, labels, states, n - 1);
    }
  }

  lemma NoBrokerSigned(labels: seq<Label>, states: seq<Sys>)
    requires |states| == |labels| + 1 && states[0] == START
    ensures BrokerBlobsGiven(labels, states, 0)
  {
  }

  /**
   * In every run, the broker's blob of a broker-signed row was given for its loan by an earlier call, while the loan
   * was prepared for signing, and if a user with a non-empty sub made that call, by one who had not approved the loan.
   */
  lemma BrokerBlobIsASubmitters(cfg: Config, labels: seq<Label>, states: seq<Sys>, n: nat, i: nat) returns (m: nat)
    requires IsRun(cfg, labels, states) && n <= |labels|
    requires i < |states[n].db.outbox| && states[n].db.outbox[i].meta.brokerSigned
    ensures m < n && labels[m].Api? && labels[m].call.RecordBrokerSignature?
    ensures var row := states[n].db.outbox[i];
            var call, db := labels[m].call, states[m].db;
            && call.loanId == row.aggregateId < |db.loans| && call.blob == row.meta.brokerBlob
            && db.loans[call.loanId].status == CosignPending
            && (Truthy(call.actor) ==> !ApprovedBy(db.evidence, call.loanId, call.actor.value))
  {
    hide Run, Next, BrokerSigns, ApprovedBy, ViolatesSod, SodInv;
    BrokerBlobsHold(cfg, labels, states, n);
    var row := states[n].db.outbox[i];
    assert WasBrokerSigned(labels, states, row.aggregateId, row.meta.brokerBlob, n);
    m :| m < n && BrokerSigns(states[m], labels[m], row.aggregateId, row.meta.brokerBlob);
    BrokerSignsMeans(states[m], labels[m], row.aggregateId, row.meta.brokerBlob);
    StateAt(cfg, labels, states, m);
    SodHolds(cfg, labels[..m]);
    LoanNotes(states[m].db);
    ScanFindsApprovals(states[m].db.evidence, |states[m].db.loans|, row.aggregateId, labels[m].call.actor);
  }

  lemma LoanNotes(db: Db)
    requires SodInv(db)
    ensures LoanNotesOk(db.evidence, |db.loans|)
  {
  }

  lemma BrokerSignsMeans(s: Sys, l: Label, k: nat, blob: Option<string>)
    requires BrokerSigns(s, l, k, blob)
    ensures l.Api? && l.call.RecordBrokerSignature? && l.call.loanId == k && l.call.blob == blob && k < |s.db.loans|
    ensures s.db.loans[k].status == CosignPending && !ViolatesSod(s.db.evidence, k, l.call.actor)
  {
  }
}
