/** The account sequences the executor signs with, over every run. */
module WireSequences {
  import opened Options
  import opened SharedTypes
  import opened OutboxDb
  import opened Protocol
  import opened Control
  import opened SequenceLease

  // ---------- what was signed ----------

  /** A self-signed submission carries the sequence its reservation handed out. */
  ghost predicate Backed(ops: seq<Op>, x: Submission) {
    x.Signed? ==>
      && x.op < |ops| && ops[x.op].Reserve? && ops[x.op].account == x.account
      && OutAt(MemoryDb, ops, x.op) == Some(x.sequence)
  }

  ghost predicate WireInv(wire: seq<Submission>, ops: seq<Op>) {
    && (forall k: nat | k < |wire| :: Backed(ops, wire[k]))
    && (forall k: nat, l: nat | k < l < |wire| && wire[k].Signed? && wire[l].Signed? :: wire[k].op < wire[l].op)
  }

  lemma BackedGrows(ops: seq<Op>, more: seq<Op>, x: Submission)
    requires Backed(ops, x)
    ensures Backed(ops + more, x)
  {
    if x.Signed? { OutPrefix(MemoryDb, ops, more, x.op); }
  }

  lemma WireGrows(wire: seq<Submission>, ops: seq<Op>, more: seq<Op>, sent: seq<Submission>)
    requires WireInv(wire, ops) && |sent| <= 1
    requires sent != [] && sent[0].Signed? ==> sent[0].op >= |ops| && Backed(ops + more, sent[0])
    ensures WireInv(wire + sent, ops + more)
  {
    hide Before, OutAt;
    forall k: nat | k < |wire + sent| ensures Backed(ops + more, (wire + sent)[k]) {
      if k < |wire| { BackedGrows(ops, more, wire[k]); }
    }
    forall k: nat, l: nat | k < l < |wire + sent| && (wire + sent)[k].Signed? && (wire + sent)[l].Signed?
      ensures (wire + sent)[k].op < (wire + sent)[l].op
    {
      assert Backed(ops, wire[k]);
    }
  }

  /** The reservation made by an attempt is what the attempt signs with. */
  lemma ReservedHere(ops: seq<Op>, account: string, fetch: Option<int>, more: seq<Op>)
    ensures var op := Reserve(account, 0, fetch);
            OutAt(MemoryDb, ops + [op] + more, |ops|) == Reservation(ops, account, fetch)
  {
    var op := Reserve(account, 0, fetch);
    OutPrefix(MemoryDb, ops + [op], more, |ops|);
    BeforePrefix(MemoryDb, ops, [op], |ops|);
  }

  lemma WireSend(s: Sys, id: nat, n: nat, l: Label)
    requires s.worker.Executing? && id < |s.db.outbox| && l.SignAndSend? && WireInv(s.wire, s.ops)
    ensures var t := DoSignAndSend(s, id, n, l); WireInv(t.wire, t.ops)
  {
    hide Reservation, SignedStage, ThrownStage, Before, OutAt;
    var t := DoSignAndSend(s, id, n, l);
    var account := s.db.outbox[id].tx.account;
    var op := Reserve(account, 0, l.fetch);
    var more := t.ops[|s.ops|..];
    assert t.ops == s.ops + more && more == [op] + more[1..];
    assert s.ops + [op] + more[1..] == t.ops;
    ReservedHere(s.ops, account, l.fetch, more[1..]);
    var sent := t.wire[|s.wire|..];
    assert t.wire == s.wire + sent;
    WireGrows(s.wire, s.ops, more, sent);
  }

  lemma WireNext(cfg: Config, s: Sys, l: Label)
    requires WireInv(s.wire, s.ops)
    ensures WireInv(Next(cfg, s, l).wire, Next(cfg, s, l).ops)
  {
    hide WireInv, DoSignAndSend, Enriched, ClaimableIds, BlobStage, RouteStage, GateStage;
    if !l.Api? && s.worker.Executing? && s.worker.queue != [] && s.worker.queue[0] < |s.db.outbox| {
      var id := s.worker.queue[0];
      if s.worker.stage.Attempt? && l.SignAndSend? {
        WireSend(s, id, s.worker.stage.n, l);
      } else if s.worker.stage.BlobReady? && l.SendBlob? {
        WireGrows(s.wire, s.ops, [], [Blob(id)]);
        assert s.ops + [] == s.ops;
      }
    }
  }

  lemma {:induction false} WireHolds(cfg: Config, labels: seq<Label>)
    ensures WireInv(Run(cfg, labels).wire, Run(cfg, labels).ops)
  {
    hide Next, WireInv;
    if labels != [] {
      WireHolds(cfg, labels[..|labels| - 1]);
      WireNext(cfg, Run(cfg, labels[..|labels| - 1]), labels[|labels| - 1]);
    } else {
      NothingSent();
    }
  }

  lemma NothingSent()
    ensures WireInv([], [])
  {
  }

  // ---------- main results ----------

  /** In every state of every run a self-signed submission carries the sequence of a reservation of its own. */
  lemma EverySubmissionBacked(cfg: Config, s: Sys)
    requires Reachable(cfg, s)
    ensures WireInv(s.wire, s.ops)
  {
    hide Run, Reachable, WireInv;
    var labels := ReachedBy(cfg, s);
    WireHolds(cfg, labels);
  }

  /** In every run, if each refetch for an account is ahead of what was handed out, no two submissions share a Sequence. */
  lemma NoSequenceReused(cfg: Config, s: Sys, a: Account, k: nat, l: nat)
    requires Reachable(cfg, s) && k < l < |s.wire|
    requires s.wire[k].Signed? && s.wire[l].Signed? && s.wire[k].account == a && s.wire[l].account == a
    requires FetchesAhead(MemoryDb, s.ops, a)
    ensures s.wire[k].sequence < s.wire[l].sequence
  {
    hide Reachable, FetchesAhead;
    EverySubmissionBacked(cfg, s);
    IncreasingIffFetchesAhead(MemoryDb, s.ops, a);
    assert Backed(s.ops, s.wire[k]) && Backed(s.ops, s.wire[l]);
  }

  // ---------- exactly when ----------

  /** Submission k is one the account signed here. */
  ghost predicate SignedFor(wire: seq<Submission>, a: Account, k: nat) {
    k < |wire| && wire[k].Signed? && wire[k].account == a
  }

  /** The account's last submission before k. */
  ghost function LastSent(wire: seq<Submission>, a: Account, k: nat): (l: Option<nat>)
    requires k <= |wire|
    ensures l.Some? ==> l.value < k && SignedFor(wire, a, l.value)
    ensures forall j: nat | j < k && SignedFor(wire, a, j) :: l.Some? && j <= l.value
  {
    if k == 0 then None else if SignedFor(wire, a, k - 1) then Some(k - 1) else LastSent(wire, a, k - 1)
  }

  /** What a reservation hands out: what the ledger last answered, and one more for each reservation since. */
  lemma HandedOut(ops: seq<Op>, a: Account, i: nat)
    requires i < |ops| && Reserves(MemoryDb, ops, a, i)
    ensures var b := Base(MemoryDb, ops, a, i + 1);
            b.Some? && OutAt(MemoryDb, ops, i).value
                       == OutAt(MemoryDb, ops, b.value).value + ReservedSince(MemoryDb, ops, a, b.value, i)
  {
    if !Refetches(MemoryDb, ops, i) { NoRepeatNoGap(MemoryDb, ops, a, i); }
  }

  /**
   * Whenever the account asked the ledger again since its last submission, the answer and the reservations
   * made since come out ahead of that submission's sequence.
   */
  ghost predicate AheadOfSent(wire: seq<Submission>, ops: seq<Op>, a: Account)
    requires WireInv(wire, ops)
  {
    forall k: nat | SignedFor(wire, a, k) && LastSent(wire, a, k).Some? ::
      assert Backed(ops, wire[k]);
      var last := wire[LastSent(wire, a, k).value];
      var b := Base(MemoryDb, ops, a, wire[k].op + 1);
      b.Some? && b.value > last.op ==>
        OutAt(MemoryDb, ops, b.value).value + ReservedSince(MemoryDb, ops, a, b.value, wire[k].op) > last.sequence
  }

  ghost predicate SentIncreasing(wire: seq<Submission>, a: Account) {
    forall k: nat, l: nat | k < l && SignedFor(wire, a, k) && SignedFor(wire, a, l) :: wire[k].sequence < wire[l].sequence
  }

  lemma {:induction false} BaseStays(ops: seq<Op>, a: Account, i: nat, j: nat)
    requires i <= j <= |ops| && Base(MemoryDb, ops, a, j).Some? && Base(MemoryDb, ops, a, j).value < i
    ensures Base(MemoryDb, ops, a, i) == Base(MemoryDb, ops, a, j)
  {
    hide Before, OutAt;
    if i < j { BaseStays(ops, a, i, j - 1); }
  }

  lemma {:induction false} ReservedMore(ops: seq<Op>, a: Account, b: nat, i: nat, j: nat)
    requires b <= i < j <= |ops| && Reserves(MemoryDb, ops, a, i)
    ensures ReservedSince(MemoryDb, ops, a, b, j) >= ReservedSince(MemoryDb, ops, a, b, i) + 1
  {
    hide Before, OutAt;
    if i < j - 1 { ReservedMore(ops, a, b, i, j - 1); }
  }

  /** Without asking the ledger again, a later reservation hands out more. */
  lemma SameBaseIncreases(ops: seq<Op>, a: Account, i: nat, j: nat)
    requires i < j < |ops| && Reserves(MemoryDb, ops, a, i) && Reserves(MemoryDb, ops, a, j)
    requires Base(MemoryDb, ops, a, j + 1).Some? && Base(MemoryDb, ops, a, j + 1).value <= i
    ensures OutAt(MemoryDb, ops, i).value < OutAt(MemoryDb, ops, j).value
  {
    hide Before, OutAt;
    HandedOut(ops, a, i);
    HandedOut(ops, a, j);
    BaseStays(ops, a, i + 1, j + 1);
    ReservedMore(ops, a, Base(MemoryDb, ops, a, j + 1).value, i, j);
  }

  lemma AheadOfLast(wire: seq<Submission>, ops: seq<Op>, a: Account, k: nat)
    requires WireInv(wire, ops) && AheadOfSent(wire, ops, a) && SignedFor(wire, a, k) && LastSent(wire, a, k).Some?
    ensures wire[LastSent(wire, a, k).value].sequence < wire[k].sequence
  {
    hide Before, OutAt, Base, ReservedSince;
    var l := LastSent(wire, a, k).value;
    assert Backed(ops, wire[k]) && Backed(ops, wire[l]);
    HandedOut(ops, a, wire[k].op);
    if Base(MemoryDb, ops, a, wire[k].op + 1).value <= wire[l].op {
      SameBaseIncreases(ops, a, wire[l].op, wire[k].op);
    }
  }

  lemma {:induction false} AheadOfAll(wire: seq<Submission>, ops: seq<Op>, a: Account, k: nat, l: nat)
    requires WireInv(wire, ops) && AheadOfSent(wire, ops, a) && k < l && SignedFor(wire, a, k) && SignedFor(wire, a, l)
    ensures wire[k].sequence < wire[l].sequence
    decreases l
  {
    hide WireInv, AheadOfSent;
    AheadOfLast(wire, ops, a, l);
    var m := LastSent(wire, a, l).value;
    if k < m { AheadOfAll(wire, ops, a, k, m); }
  }

  /** What was signed with rises, exactly when each answer asked for in between comes out ahead of what was sent. */
  lemma SentIncreasingExactlyWhen(cfg: Config, s: Sys, a: Account)
    requires Reachable(cfg, s)
    ensures WireInv(s.wire, s.ops) && (SentIncreasing(s.wire, a) <==> AheadOfSent(s.wire, s.ops, a))
  {
    hide Reachable, Before, OutAt, Base, ReservedSince;
    EverySubmissionBacked(cfg, s);
    if SentIncreasing(s.wire, a) {
      forall k: nat | SignedFor(s.wire, a, k) && LastSent(s.wire, a, k).Some?
        ensures var b := Base(MemoryDb, s.ops, a, s.wire[k].op + 1);
                b.Some? && OutAt(MemoryDb, s.ops, b.value).value
                           + ReservedSince(MemoryDb, s.ops, a, b.value, s.wire[k].op) == s.wire[k].sequence
      {
        assert Backed(s.ops, s.wire[k]);
        HandedOut(s.ops, a, s.wire[k].op);
      }
    }
    if AheadOfSent(s.wire, s.ops, a) {
      forall k: nat, l: nat | k < l && SignedFor(s.wire, a, k) && SignedFor(s.wire, a, l)
        ensures s.wire[k].sequence < s.wire[l].sequence
      {
        AheadOfAll(s.wire, s.ops, a, k, l);
      }
    }
  }

  // ---------- no sequence twice, exactly when ----------

  ghost predicate NeverReused(wire: seq<Submission>, a: Account) {
    forall k: nat, l: nat | k < l && SignedFor(wire, a, k) && SignedFor(wire, a, l) :: wire[k].sequence != wire[l].sequence
  }

  /**
   * Between two submissions of the account the ledger was asked again, and its last answer with the
   * reservations made since comes out at the earlier one's sequence.
   */
  ghost predicate LedBack(wire: seq<Submission>, ops: seq<Op>, a: Account, k: nat, l: nat)
    requires WireInv(wire, ops) && SignedFor(wire, a, k) && SignedFor(wire, a, l)
  {
    assert Backed(ops, wire[l]);
    var b := Base(MemoryDb, ops, a, wire[l].op + 1);
    && b.Some? && b.value > wire[k].op
    && OutAt(MemoryDb, ops, b.value).value + ReservedSince(MemoryDb, ops, a, b.value, wire[l].op) == wire[k].sequence
  }

  ghost predicate NeverLedBack(wire: seq<Submission>, ops: seq<Op>, a: Account)
    requires WireInv(wire, ops)
  {
    forall k: nat, l: nat | k < l && SignedFor(wire, a, k) && SignedFor(wire, a, l) :: !LedBack(wire, ops, a, k, l)
  }

  /** Two submissions of an account share a sequence exactly when the ledger's answer led back to it. */
  lemma SameSequenceExactlyWhenLedBack(wire: seq<Submission>, ops: seq<Op>, a: Account, k: nat, l: nat)
    requires WireInv(wire, ops) && k < l && SignedFor(wire, a, k) && SignedFor(wire, a, l)
    ensures wire[k].sequence == wire[l].sequence <==> LedBack(wire, ops, a, k, l)
  {
    hide Before, OutAt, Base, ReservedSince;
    assert Backed(ops, wire[k]) && Backed(ops, wire[l]);
    HandedOut(ops, a, wire[l].op);
    if Base(MemoryDb, ops, a, wire[l].op + 1).value <= wire[k].op {
      SameBaseIncreases(ops, a, wire[k].op, wire[l].op);
    }
  }

  /** No two submissions of an account share a sequence, exactly when no answer in between led back to one already sent. */
  lemma NoSequenceReusedExactlyWhen(cfg: Config, s: Sys, a: Account)
    requires Reachable(cfg, s)
    ensures WireInv(s.wire, s.ops) && (NeverReused(s.wire, a) <==> NeverLedBack(s.wire, s.ops, a))
  {
    hide Reachable, WireInv, LedBack;
    EverySubmissionBacked(cfg, s);
    forall k: nat, l: nat | k < l && SignedFor(s.wire, a, k) && SignedFor(s.wire, a, l)
      ensures s.wire[k].sequence == s.wire[l].sequence <==> LedBack(s.wire, s.ops, a, k, l)
    {
      SameSequenceExactlyWhenLedBack(s.wire, s.ops, a, k, l);
    }
  }
}
