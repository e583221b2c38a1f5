/**
 * Two-phase signing over every run: the broker signs first, the borrower second, and only a
 * row signed in that order takes the blob path.
 */
module SigningOrder {
  import opened Options
  import opened SharedTypes
  import opened OutboxDb
  import opened Protocol
  import opened ServiceCalls
  import opened Control

  const BROKER := "broker_sign"
  const BORROWER := "borrower_sign"

  /** Signatures of one kind that the evidence log holds for a row. */
  ghost function Signatures(log: seq<Note>, action: string, row: nat): nat {
    if log == [] then 0
    else
      var n := log[|log| - 1];
      Signatures(log[..|log| - 1], action, row) + if n.action == Some(action) && n.outboxId == Some(row) then 1 else 0
  }

  lemma SignaturesLast(log: seq<Note>, n: Note, action: string, row: nat)
    ensures Signatures(log + [n], action, row)
         == Signatures(log, action, row) + if n.action == Some(action) && n.outboxId == Some(row) then 1 else 0
  {
    assert (log + [n])[..|log|] == log;
  }

  /** How many signatures of each kind a row in a given state can have. */
  ghost predicate Balanced(row: Row, broker: nat, borrower: nat) {
    && borrower <= broker <= borrower + 1 && broker <= 2
    && (row.attempts == 0 ==> broker <= 1)
    && (row.status == Pending ==> broker == 0)
    && (row.status == Processing ==> broker == borrower && broker <= 1)
    && (row.status == Signed1 ==> broker == borrower + 1)
    && (row.status == Signed2 ==> broker == borrower)
  }

  /** The row's marks say whether it was signed. */
  ghost predicate MarksTell(row: Row, broker: nat, borrower: nat) {
    && (row.meta.brokerSigned <==> broker > 0)
    && (row.meta.counterpartySigned <==> borrower > 0)
    && (row.meta.counterpartyBlob.Some? ==> row.meta.counterpartySigned)
  }

  ghost predicate SignedOk(row: Row, broker: nat, borrower: nat) {
    Balanced(row, broker, borrower) && MarksTell(row, broker, borrower)
  }

  ghost predicate RowSigned(s: Sys, i: nat)
    requires i < |s.db.outbox|
  {
    SignedOk(s.db.outbox[i], Signatures(s.db.evidence, BROKER, i), Signatures(s.db.evidence, BORROWER, i))
  }

  /** At every moment of the log a row's borrower signatures are matched by earlier broker signatures. */
  ghost predicate Ordered(log: seq<Note>) {
    forall m: nat, i: nat | m <= |log| ::
      Signatures(log[..m], BORROWER, i) <= Signatures(log[..m], BROKER, i) <= Signatures(log[..m], BORROWER, i) + 1
  }

  ghost predicate SigningInv(s: Sys) {
    && (forall i: nat | i < |s.db.outbox| :: RowSigned(s, i))
    && (forall i: nat | i >= |s.db.outbox| ::
          Signatures(s.db.evidence, BROKER, i) == 0 && Signatures(s.db.evidence, BORROWER, i) == 0)
    && Ordered(s.db.evidence)
  }

  lemma OrderedLast(log: seq<Note>, n: Note)
    requires Ordered(log)
    requires forall i: nat :: Signatures(log + [n], BORROWER, i) <= Signatures(log + [n], BROKER, i)
                              <= Signatures(log + [n], BORROWER, i) + 1
    ensures Ordered(log + [n])
  {
    forall m: nat, i: nat | m <= |log| + 1
      ensures Signatures((log + [n])[..m], BORROWER, i) <= Signatures((log + [n])[..m], BROKER, i)
              <= Signatures((log + [n])[..m], BORROWER, i) + 1
    {
      if m <= |log| {
        assert (log + [n])[..m] == log[..m];
      } else {
        assert (log + [n])[..m] == log + [n];
      }
    }
  }

  /** Appending one note changes at most the counts of the row it names. */
  lemma SigningApi(s: Sys, c: Change, db: Db, n: Note)
    requires ControlInv(s) && SigningInv(s) && Enabled(s.db.outbox, c)
    requires db.outbox == Changed(s.db.outbox, c) && db.evidence == s.db.evidence + [n]
    requires NotesAdded(s.db.evidence, db.evidence, c)
    ensures SigningInv(s.(db := db))
  {
    hide Signatures;
    var log := s.db.evidence;
    assert (log + [n])[|log|] == n;
    assert c.BrokerSigned? ==> n.action == Some(BROKER) && n.outboxId == Some(c.id);
    assert c.BorrowerSigned? ==> n.action == Some(BORROWER) && n.outboxId == Some(c.id);
    assert !c.BrokerSigned? && !c.BorrowerSigned? ==> n.action != Some(BROKER) && n.action != Some(BORROWER);
    forall i: nat
      ensures i < |db.outbox| ==> RowSigned(s.(db := db), i)
      ensures i >= |db.outbox| ==>
                Signatures(db.evidence, BROKER, i) == 0 && Signatures(db.evidence, BORROWER, i) == 0
      ensures Signatures(db.evidence, BORROWER, i) <= Signatures(db.evidence, BROKER, i)
              <= Signatures(db.evidence, BORROWER, i) + 1
    {
      SignaturesLast(log, n, BROKER, i);
      SignaturesLast(log, n, BORROWER, i);
      if i < |s.db.outbox| {
        assert RowOk(s.db.outbox[i], PlaceOf(s.worker, i));
        assert RowSigned(s, i);
      }
    }
    OrderedLast(log, n);
  }

  /** Worker steps leave the log and the marks alone. */
  lemma SigningWorker(s: Sys, t: Sys)
    requires ControlInv(s) && SigningInv(s) && RowsMove(s, t) && t.db.evidence == s.db.evidence
    ensures SigningInv(t)
  {
    forall i: nat | i < |t.db.outbox| ensures RowSigned(t, i) {
      assert RowSigned(s, i) && WorkerMoves(s.db.outbox[i], t.db.outbox[i]);
      assert RowOk(s.db.outbox[i], PlaceOf(s.worker, i));
    }
  }

  lemma SigningNext(cfg: Config, s: Sys, l: Label)
    requires ControlInv(s) && SigningInv(s)
    ensures SigningInv(Next(cfg, s, l))
  {
    hide Next, Signatures, Ordered;
    var t := Next(cfg, s, l);
    match l
    case Api(call) =>
      var c := ChangeOf(s.db, call);
      ApiStep(cfg, s, call);
      if t.db.evidence == s.db.evidence {
        SigningQuietApi(s, c, t.db);
      } else {
        var n :| t.db.evidence == s.db.evidence + [n];
        SigningApi(s, c, t.db, n);
      }
    case _ =>
      WorkerStepMoves(cfg, s, l);
      SigningWorker(s, t);
  }

  lemma SigningQuietApi(s: Sys, c: Change, db: Db)
    requires SigningInv(s) && Enabled(s.db.outbox, c) && NotesAdded(s.db.evidence, db.evidence, c)
    requires db.outbox == Changed(s.db.outbox, c) && db.evidence == s.db.evidence
    ensures SigningInv(s.(db := db))
  {
    forall i: nat | i < |db.outbox| ensures RowSigned(s.(db := db), i) {
      if i < |s.db.outbox| { assert RowSigned(s, i); }
    }
  }

  lemma {:induction false} SigningHolds(cfg: Config, labels: seq<Label>)
    ensures SigningInv(Run(cfg, labels))
  {
    hide Next;
    if labels != [] {
      SigningHolds(cfg, labels[..|labels| - 1]);
      ControlHolds(cfg, labels[..|labels| - 1]);
      SigningNext(cfg, Run(cfg, labels[..|labels| - 1]), labels[|labels| - 1]);
    }
  }

  // ---------- main results ----------

  /**
   * In every state of every run a row with a counterparty mark has a broker mark; broker
   * signatures lead by at most one, and are at most two.
   */
  lemma BrokerSignsFirst(cfg: Config, s: Sys, i: nat)
    requires Reachable(cfg, s) && i < |s.db.outbox|
    ensures var row := s.db.outbox[i];
            var broker, borrower := Signatures(s.db.evidence, BROKER, i), Signatures(s.db.evidence, BORROWER, i);
            && (row.meta.counterpartySigned ==> row.meta.brokerSigned)
            && borrower <= broker <= borrower + 1 && broker <= 2
            && (row.meta.brokerSigned <==> broker > 0) && (row.meta.counterpartySigned <==> borrower > 0)
  {
    hide Run, Reachable;
    var labels := ReachedBy(cfg, s);
    SigningHolds(cfg, labels);
    assert RowSigned(s, i);
  }

  /** At every moment of the log each borrower signature was preceded by a broker signature of its own. */
  lemma SignaturesAlternate(cfg: Config, s: Sys)
    requires Reachable(cfg, s)
    ensures Ordered(s.db.evidence)
  {
    hide Run, Reachable, Ordered;
    var labels := ReachedBy(cfg, s);
    SigningHolds(cfg, labels);
  }

  /** A note of a signature of a row. */
  predicate Signs(n: Note, action: string, row: nat) { n.action == Some(action) && n.outboxId == Some(row) }

  /** The first signature of a kind. */
  lemma {:induction false} FirstSignature(log: seq<Note>, action: string, row: nat) returns (n: nat)
    requires Signatures(log, action, row) > 0
    ensures n < |log| && Signs(log[n], action, row) && Signatures(log[..n], action, row) == 0
  {
    var front := log[..|log| - 1];
    if Signatures(front, action, row) > 0 {
      n := FirstSignature(front, action, row);
      assert front[..n] == log[..n];
    } else {
      n := |log| - 1;
    }
  }

  /** The broker signed the row before the borrower did. */
  ghost predicate BrokerBeforeBorrower(log: seq<Note>, row: nat) {
    exists m, n | 0 <= m < n < |log| ::
      Signs(log[m], BROKER, row) && Signs(log[n], BORROWER, row) && forall k | 0 <= k < n :: !Signs(log[k], BORROWER, row)
  }

  lemma {:induction false} NoneBefore(log: seq<Note>, action: string, row: nat)
    requires Signatures(log, action, row) == 0
    ensures forall k | 0 <= k < |log| :: !Signs(log[k], action, row)
  {
    if log != [] { NoneBefore(log[..|log| - 1], action, row); }
  }

  lemma OrderedMeansBrokerFirst(log: seq<Note>, row: nat)
    requires Ordered(log) && Signatures(log, BORROWER, row) > 0
    ensures BrokerBeforeBorrower(log, row)
  {
    hide Signatures;
    var n := FirstSignature(log, BORROWER, row);
    var upTo := log[..n + 1];
    assert upTo == log[..n] + [log[n]];
    SignaturesLast(log[..n], log[n], BORROWER, row);
    SignaturesLast(log[..n], log[n], BROKER, row);
    NoneBefore(log[..n], BORROWER, row);
    assert Signatures(log[..n + 1], BORROWER, row) <= Signatures(log[..n + 1], BROKER, row);
    var m := FirstSignature(log[..n], BROKER, row);
    assert Signs(log[m], BROKER, row) && Signs(log[n], BORROWER, row);
    assert forall k | 0 <= k < n :: log[..n][k] == log[k];
  }

  /** In every state of every run a counter-signed row was signed by the broker before its first counter-signature. */
  lemma CounterSignedInOrder(cfg: Config, s: Sys, i: nat)
    requires Reachable(cfg, s) && i < |s.db.outbox| && s.db.outbox[i].meta.counterpartySigned
    ensures BrokerBeforeBorrower(s.db.evidence, i)
  {
    hide Run, Reachable, Signatures, Ordered, BrokerBeforeBorrower;
    BrokerSignsFirst(cfg, s, i);
    SignaturesAlternate(cfg, s);
    OrderedMeansBrokerFirst(s.db.evidence, i);
  }

  /** The blob path is entered only by a LoanSet row both parties signed, the broker first. */
  lemma BlobPathIsSigned(cfg: Config, s: Sys)
    requires Reachable(cfg, s) && s.worker.Executing? && s.worker.stage == BlobReady
    ensures s.worker.queue != [] && s.worker.queue[0] < |s.db.outbox|
    ensures var i := s.worker.queue[0];
            var row := s.db.outbox[i];
            && row.kind == LoanSet && row.meta.brokerSigned && row.meta.counterpartySigned
            && Signatures(s.db.evidence, BROKER, i) >= Signatures(s.db.evidence, BORROWER, i) >= 1
            && BrokerBeforeBorrower(s.db.evidence, i)
  {
    hide Run, Reachable;
    var labels := ReachedBy(cfg, s);
    ControlHolds(cfg, labels);
    SigningHolds(cfg, labels);
    var i := s.worker.queue[0];
    assert RowOk(s.db.outbox[i], PlaceOf(s.worker, i));
    assert RowSigned(s, i);
    hide Signatures, Ordered, BrokerBeforeBorrower;
    CounterSignedInOrder(cfg, s, i);
  }
}
