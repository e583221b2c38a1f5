/**
 * Looking a submitted transaction up, against a ledger that moves on meanwhile: what the
 * answer says about the ledger, now and later.
 */
module Lookup {
  import opened Options
  import opened SharedTypes

  const TX_LOOKUP_RETRIES: nat := 5

  /** The answer to a `tx` request; the client throws both when there is none and on a broken connection. */
  datatype TxReply = Answered(result: TxResult) | NotFound | Broken

  /** One turn of the loop: does the node connect, what it says of the validated ledger, what of the transaction. */
  datatype Round = Round(connects: bool, info: Option<Option<nat>>, tx: TxReply)

  datatype Outcome = Found(result: TxResult) | Passed | GaveUp

  predicate Asks(last: Option<nat>) { last.Some? && last.value != 0 }

  /** The validated ledger the node reported, if it was asked and said. */
  function Reported(r: Round, last: Option<nat>): Option<nat> {
    if r.connects && Asks(last) && r.info.Some? && r.info.value.Some? && r.info.value.value != 0 then r.info.value
    else None
  }

  predicate HasPassed(r: Round, last: Option<nat>) {
    var v := Reported(r, last);
    v.Some? && v.value > last.value
  }

  predicate IsValidated(tx: TxReply) { tx.Answered? && tx.result.validated }

  /** What the rounds from k on end in. */
  function LookupFrom(rounds: seq<Round>, last: Option<nat>, k: nat): Outcome
    requires k <= |rounds|
    decreases |rounds| - k
  {
    if k == |rounds| then GaveUp
    else if rounds[k].connects && IsValidated(rounds[k].tx) then Found(rounds[k].tx.result)
    else if HasPassed(rounds[k], last) then Passed
    else LookupFrom(rounds, last, k + 1)
  }

  /** What the lookup returns. */
  function LookupResult(rounds: seq<Round>, last: Option<nat>): Option<TxResult> {
    match LookupFrom(rounds, last, 0)
    case Found(result) => Some(result)
    case _ => None
  }

  method LookupTx(rounds: seq<Round>, last: Option<nat>) returns (found: Option<TxResult>)
    ensures found == LookupResult(rounds, last)
    ensures found.Some? ==> found.value.validated
  {
    for i := 0 to |rounds|
      invariant LookupFrom(rounds, last, 0) == LookupFrom(rounds, last, i)
    {
      if rounds[i].connects {
        if last.Some? && last.value != 0 {
          var info := rounds[i].info;
          if info.Some? && info.value.Some? && info.value.value != 0 && info.value.value > last.value {
            if rounds[i].tx.Answered? && rounds[i].tx.result.validated {
              return Some(rounds[i].tx.result);
            }
            return None;
          }
        }
        if rounds[i].tx.Answered? && rounds[i].tx.result.validated {
          return Some(rounds[i].tx.result);
        }
      }
    }
    return None;
  }

  // ---------- the ledger ----------

  /**
   * The ledger as time goes on: the last validated ledger at each instant, and when and in
   * which ledger the transaction got in, if it ever does.
   */
  datatype World = World(validated: nat -> nat, inclusion: Option<Inclusion>)

  datatype Inclusion = Inclusion(time: nat, index: nat)

  /**
   * Validated ledgers are closed: a transaction gets in only with a ledger that is validated
   * at that instant and was not before, and never after its LastLedgerSequence.
   */
  ghost predicate Lawful(w: World, last: Option<nat>) {
    && (forall t: nat, u: nat | t <= u :: w.validated(t) <= w.validated(u))
    && (w.inclusion.Some? ==>
          && w.inclusion.value.index <= w.validated(w.inclusion.value.time)
          && (forall t: nat | t < w.inclusion.value.time :: w.validated(t) < w.inclusion.value.index)
          && (Asks(last) ==> w.inclusion.value.index <= last.value))
  }

  ghost predicate IncludedBy(w: World, t: nat) { w.inclusion.Some? && w.inclusion.value.time <= t }

  predicate Speaks(r: Round) { r.connects && !r.tx.Broken? }

  /** The node reports the ledger at instant 2k and the transaction at instant 2k + 1, truthfully where it answers. */
  ghost predicate TruthfulRound(w: World, r: Round, last: Option<nat>, k: nat) {
    && (Reported(r, last).Some? ==> Reported(r, last).value == w.validated(2 * k))
    && (Speaks(r) ==> (IsValidated(r.tx) <==> IncludedBy(w, 2 * k + 1)))
  }

  /** Truthful over the rounds up to and including round i. */
  ghost predicate Truthful(w: World, rounds: seq<Round>, last: Option<nat>, i: nat)
    requires i < |rounds|
  {
    forall k: nat | k <= i :: TruthfulRound(w, rounds[k], last, k)
  }

  /** Round i is where the lookup ends, the ledger having passed LastLedgerSequence and nothing found. */
  ghost predicate PassedAt(rounds: seq<Round>, last: Option<nat>, i: nat)
    requires i < |rounds|
  {
    && TellsPassed(rounds[i], last)
    && (forall k: nat | k <= i :: !(rounds[k].connects && rounds[k].tx.Answered? && rounds[k].tx.result.validated))
    && (forall k: nat | k < i :: !TellsPassed(rounds[k], last))
  }

  /** A node that connects reports a validated ledger beyond LastLedgerSequence, if there is one. */
  ghost predicate TellsPassed(r: Round, last: Option<nat>) {
    && r.connects && last.Some? && last.value > 0
    && r.info.Some? && r.info.value.Some? && r.info.value.value > last.value
  }

  lemma {:induction false} PassedSomewhere(rounds: seq<Round>, last: Option<nat>, k: nat)
    requires k <= |rounds|
    requires forall j: nat | j < k :: !HasPassed(rounds[j], last) && !(rounds[j].connects && IsValidated(rounds[j].tx))
    ensures LookupFrom(rounds, last, k) == Passed <==> exists i: nat | i < |rounds| :: PassedAt(rounds, last, i)
    decreases |rounds| - k
  {
    if k < |rounds| {
      if rounds[k].connects && IsValidated(rounds[k].tx) {
      } else if HasPassed(rounds[k], last) {
        assert PassedAt(rounds, last, k);
      } else {
        PassedSomewhere(rounds, last, k + 1);
      }
    }
  }

  /** Some answered request came after a report that LastLedgerSequence is reached. */
  ghost predicate Conclusive(rounds: seq<Round>, last: Option<nat>, i: nat)
    requires i < |rounds| && Asks(last)
  {
    exists j: nat, k: nat | j <= k <= i ::
      Reported(rounds[j], last).Some? && Reported(rounds[j], last).value >= last.value && Speaks(rounds[k])
  }

  /** A conclusive null is final: the transaction is in no ledger, now or later. */
  lemma ConclusiveNullIsFinal(w: World, rounds: seq<Round>, last: Option<nat>, i: nat)
    requires i < |rounds| && PassedAt(rounds, last, i) && Lawful(w, last) && Truthful(w, rounds, last, i)
    requires Conclusive(rounds, last, i)
    ensures w.inclusion.None?
  {
    var j: nat, k: nat :| j <= k <= i
      && Reported(rounds[j], last).Some? && Reported(rounds[j], last).value >= last.value && Speaks(rounds[k]);
    assert TruthfulRound(w, rounds[j], last, j) && TruthfulRound(w, rounds[k], last, k);
    assert w.validated(2 * j) <= w.validated(2 * k + 1);
  }

  ghost function HeldBack(w: World, time: nat, index: nat, t: nat): nat
    requires index > 0
  {
    if t < time && w.validated(t) >= index then index - 1 else w.validated(t)
  }

  /** The same ledger, except that the transaction gets in with ledger `index` at instant `time`. */
  ghost function Slipped(w: World, time: nat, index: nat): World
    requires index > 0
  {
    World((t: nat) => HeldBack(w, time, index, t), Some(Inclusion(time, index)))
  }

  ghost function FirstReached(rounds: seq<Round>, last: Option<nat>, i: nat): (m: nat)
    requires i < |rounds| && Asks(last) && Reported(rounds[i], last).Some? && Reported(rounds[i], last).value >= last.value
    ensures m <= i && Reported(rounds[m], last).Some? && Reported(rounds[m], last).value >= last.value
    ensures forall k: nat | k < m && Reported(rounds[k], last).Some? :: Reported(rounds[k], last).value < last.value
  {
    if j: nat :| j < i && Reported(rounds[j], last).Some? && Reported(rounds[j], last).value >= last.value
    then FirstReached(rounds, last, j) else i
  }

  /** An inconclusive null is not final: in some ledger that gives the same answers the transaction is included. */
  lemma InconclusiveNullMayBeIncluded(w: World, rounds: seq<Round>, last: Option<nat>, i: nat)
    requires i < |rounds| && PassedAt(rounds, last, i) && Lawful(w, last) && Truthful(w, rounds, last, i)
    requires !Conclusive(rounds, last, i)
    ensures exists u: World :: Lawful(u, last) && Truthful(u, rounds, last, i) && u.inclusion.Some?
  {
    var m := FirstReached(rounds, last, i);
    var u := Slipped(w, 2 * m, last.value);
    assert TruthfulRound(w, rounds[m], last, m);
    SlippedIsLawful(w, last, 2 * m);
    forall k: nat | k <= i ensures TruthfulRound(u, rounds[k], last, k) {
      assert TruthfulRound(w, rounds[k], last, k);
      if k >= m { assert !Speaks(rounds[k]); }
    }
  }

  lemma SlippedIsLawful(w: World, last: Option<nat>, time: nat)
    requires Lawful(w, last) && Asks(last) && w.validated(time) >= last.value
    ensures Lawful(Slipped(w, time, last.value), last)
  {
  }

  /** A null after the ledger has passed is final exactly when it is conclusive, whatever lawful ledger gave the answers. */
  lemma NullIsFinalExactlyWhenConclusive(w: World, rounds: seq<Round>, last: Option<nat>, i: nat)
    requires i < |rounds| && PassedAt(rounds, last, i) && Lawful(w, last) && Truthful(w, rounds, last, i)
    ensures (forall u: World | Lawful(u, last) && Truthful(u, rounds, last, i) :: u.inclusion.None?)
            <==> Conclusive(rounds, last, i)
  {
    if Conclusive(rounds, last, i) {
      forall u: World | Lawful(u, last) && Truthful(u, rounds, last, i) ensures u.inclusion.None? {
        ConclusiveNullIsFinal(u, rounds, last, i);
      }
    } else {
      InconclusiveNullMayBeIncluded(w, rounds, last, i);
    }
  }

  /** In particular when the last request of all was answered. */
  lemma AnsweredNullIsFinal(w: World, rounds: seq<Round>, last: Option<nat>, i: nat)
    requires i < |rounds| && PassedAt(rounds, last, i) && Lawful(w, last) && Truthful(w, rounds, last, i)
    requires Speaks(rounds[i])
    ensures w.inclusion.None?
  {
    ConclusiveNullIsFinal(w, rounds, last, i);
  }

  /** What is found is validated and in the ledger, within its LastLedgerSequence. */
  lemma {:induction false} FoundIsIncluded(w: World, rounds: seq<Round>, last: Option<nat>, k: nat)
    requires k <= |rounds| && LookupFrom(rounds, last, k).Found? && Lawful(w, last)
    requires forall i: nat | i < |rounds| :: TruthfulRound(w, rounds[i], last, i)
    ensures LookupFrom(rounds, last, k).result.validated && w.inclusion.Some?
    ensures Asks(last) ==> w.inclusion.value.index <= last.value
    decreases |rounds| - k
  {
    assert TruthfulRound(w, rounds[k], last, k);
    if !(rounds[k].connects && IsValidated(rounds[k].tx)) {
      FoundIsIncluded(w, rounds, last, k + 1);
    }
  }

  /** The swallowed error: one round, the ledger has passed, the request breaks, and the transaction is in. */
  lemma BrokenRequestHidesInclusion()
    ensures exists w: World, rounds: seq<Round>, last: Option<nat> ::
              |rounds| == 1 && Lawful(w, last) && Truthful(w, rounds, last, 0)
              && LookupFrom(rounds, last, 0) == Passed && IncludedBy(w, 0)
  {
    var nine: nat -> nat := (t: nat) => 9;
    var w := World(nine, Some(Inclusion(0, 5)));
    var rounds := [Round(true, Some(Some(9)), Broken)];
    assert TruthfulRound(w, rounds[0], Some(7), 0);
    assert LookupFrom(rounds, Some(7), 0) == Passed;
    assert Lawful(w, Some(7)) && Truthful(w, rounds, Some(7), 0) && IncludedBy(w, 0);
  }

  /** The round finds the transaction in a validated ledger. */
  ghost predicate Finds(r: Round, result: TxResult) { r.connects && r.tx == Answered(result) && result.validated }

  /** A result is returned exactly when some round finds it before any other decides. */
  lemma {:induction false} FoundExactlyWhen(rounds: seq<Round>, last: Option<nat>, k: nat, result: TxResult)
    requires k <= |rounds|
    ensures LookupFrom(rounds, last, k) == Found(result)
            <==> exists i: nat :: k <= i < |rounds| && Finds(rounds[i], result)
                                  && forall j: nat | k <= j < i :: !TellsPassed(rounds[j], last) && forall r :: !Finds(rounds[j], r)
    decreases |rounds| - k
  {
    if k < |rounds| {
      FoundExactlyWhen(rounds, last, k + 1, result);
      if rounds[k].connects && rounds[k].tx.Answered? && rounds[k].tx.result.validated {
        assert Finds(rounds[k], rounds[k].tx.result);
      }
      assert HasPassed(rounds[k], last) <==> TellsPassed(rounds[k], last);
    }
  }
}
