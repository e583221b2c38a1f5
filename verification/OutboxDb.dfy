/**
 * The memory database: operations as functions on its contents, and the class whose methods
 * change the contents in place.
 */
module OutboxDb {
  import opened Options
  import opened SharedTypes

  /** Rows in these states do not stand in the way of a new row with their key. */
  predicate IsTerminal(s: Status) { s == Validated || s == Indexed || s == Failed || s == Closed }

  predicate Claimable(s: Status) { s == Pending || s == Signed2 }

  datatype TxInput = TxInput(
    kind: Kind, aggregate: Aggregate, aggregateId: nat, dedupeKey: Option<DedupeKey>, tx: Tx)

  predicate KeyTaken(outbox: seq<Row>, key: DedupeKey) {
    exists i | 0 <= i < |outbox| :: outbox[i].dedupeKey == Some(key) && !IsTerminal(outbox[i].status)
  }

  predicate Rejects(outbox: seq<Row>, key: Option<DedupeKey>) { key.Some? && KeyTaken(outbox, key.value) }

  function NewRow(input: TxInput): Row {
    Row(input.kind, Pending, input.aggregate, input.aggregateId, input.dedupeKey, input.tx, None, None, NO_META, 0)
  }

  /** Fields a patch does not carry stay as they are. */
  datatype Patch = Patch(
    status: Option<Status>,
    txHash: Option<Option<string>>,
    txResult: Option<Option<TxResult>>,
    meta: Option<RowMeta>)

  function Apply(row: Row, p: Patch): Row {
    row.(status := if p.status.Some? then p.status.value else row.status,
         txHash := if p.txHash.Some? then p.txHash.value else row.txHash,
         txResult := if p.txResult.Some? then p.txResult.value else row.txResult,
         meta := if p.meta.Some? then p.meta.value else row.meta)
  }

  function UpdateRow(outbox: seq<Row>, id: nat, p: Patch): seq<Row> {
    if id < |outbox| then outbox[id := Apply(outbox[id], p)] else outbox
  }

  // ---------- claiming ----------

  /** Ids of the rows in one of the states, oldest first. */
  ghost function IdsIn(outbox: seq<Row>, statuses: set<Status>): seq<nat> {
    if outbox == [] then []
    else
      var n := |outbox| - 1;
      IdsIn(outbox[..n], statuses) + if outbox[n].status in statuses then [n] else []
  }

  lemma {:induction false} IdsInFacts(outbox: seq<Row>, statuses: set<Status>)
    ensures forall i :: i in IdsIn(outbox, statuses) <==> 0 <= i < |outbox| && outbox[i].status in statuses
    ensures forall k, l | 0 <= k < l < |IdsIn(outbox, statuses)| :: IdsIn(outbox, statuses)[k] < IdsIn(outbox, statuses)[l]
  {
    if outbox != [] {
      var n := |outbox| - 1;
      IdsInFacts(outbox[..n], statuses);
      var front := IdsIn(outbox[..n], statuses);
      forall k | 0 <= k < |front| ensures front[k] < n {
        assert front[k] in front;
      }
      assert front <= IdsIn(outbox, statuses);
    }
  }

  /** Ids of the claimable rows, oldest first. */
  ghost function ClaimableIds(outbox: seq<Row>): seq<nat> { IdsIn(outbox, {Pending, Signed2}) }

  lemma ClaimableIdsFacts(outbox: seq<Row>)
    ensures forall i :: i in ClaimableIds(outbox) <==> 0 <= i < |outbox| && Claimable(outbox[i].status)
    ensures forall k, l | 0 <= k < l < |ClaimableIds(outbox)| :: ClaimableIds(outbox)[k] < ClaimableIds(outbox)[l]
  {
    IdsInFacts(outbox, {Pending, Signed2});
  }

  function Firsts(ids: seq<nat>, limit: nat): seq<nat> { if |ids| <= limit then ids else ids[..limit] }

  function ClaimRow(row: Row): Row { row.(status := Processing, attempts := row.attempts + 1) }

  ghost function ClaimRows(outbox: seq<Row>, ids: seq<nat>): seq<Row> {
    seq(|outbox|, i requires 0 <= i < |outbox| => if i in ids then ClaimRow(outbox[i]) else outbox[i])
  }

  /** Two increasing sequences with the same members are equal. */
  lemma {:induction false} IncreasingUnique(a: seq<nat>, b: seq<nat>)
    requires forall k, l | 0 <= k < l < |a| :: a[k] < a[l]
    requires forall k, l | 0 <= k < l < |b| :: b[k] < b[l]
    requires forall i :: i in a <==> i in b
    ensures a == b
  {
    if a != [] && b != [] {
      assert a[0] in b && b[0] in a;
      assert a[0] == b[0];
      forall i ensures i in a[1..] <==> i in b[1..] {
        assert i in a[1..] <==> i in a && i != a[0];
        assert i in b[1..] <==> i in b && i != b[0];
      }
      IncreasingUnique(a[1..], b[1..]);
    }
    assert a != [] ==> a[0] in b;
    assert b != [] ==> b[0] in a;
  }

  /** Claiming takes the oldest claimable rows and leaves the others claimable. */
  lemma ClaimTakesOldest(outbox: seq<Row>, limit: nat)
    ensures var ids := Firsts(ClaimableIds(outbox), limit);
            ClaimableIds(ClaimRows(outbox, ids)) == ClaimableIds(outbox)[|ids|..]
  {
    var all := ClaimableIds(outbox);
    var ids := Firsts(all, limit);
    var after := ClaimRows(outbox, ids);
    ClaimableIdsFacts(outbox);
    ClaimableIdsFacts(after);
    var rest := all[|ids|..];
    assert all == ids + rest;
    forall i ensures i in ClaimableIds(after) <==> i in rest {
      if i in rest {
        var l :| 0 <= l < |rest| && rest[l] == i;
        assert rest[l] == all[|ids| + l];
        assert forall k | 0 <= k < |ids| :: ids[k] == all[k] < i;
        assert i in all;
      }
      if i in ClaimableIds(after) {
        assert i in all && i !in ids;
      }
    }
    IncreasingUnique(ClaimableIds(after), rest);
  }

  // ---------- recorded transactions ----------

  ghost predicate Recorded(transactions: seq<TxRecord>, hash: string) {
    exists t :: t in transactions && t.txHash == hash
  }

  /** Overwrites the record of the hash, or adds one. */
  function Record(transactions: seq<TxRecord>, rec: TxRecord): seq<TxRecord> {
    if transactions == [] then [rec]
    else if transactions[0].txHash == rec.txHash then [rec] + transactions[1..]
    else [transactions[0]] + Record(transactions[1..], rec)
  }

  lemma {:induction false} RecordKeeps(transactions: seq<TxRecord>, rec: TxRecord)
    ensures rec in Record(transactions, rec)
    ensures forall t | t in transactions && t.txHash != rec.txHash :: t in Record(transactions, rec)
  {
    if transactions != [] && transactions[0].txHash != rec.txHash {
      RecordKeeps(transactions[1..], rec);
    }
  }

  /** Recording a transaction makes its hash known and forgets none. */
  lemma RecordedAfter(transactions: seq<TxRecord>, rec: TxRecord, hash: string)
    ensures Recorded(Record(transactions, rec), hash) <== hash == rec.txHash || Recorded(transactions, hash)
  {
    RecordKeeps(transactions, rec);
  }

  ghost predicate DistinctHashes(transactions: seq<TxRecord>) {
    forall i, j | 0 <= i < j < |transactions| :: transactions[i].txHash != transactions[j].txHash
  }

  /** Recording replaces what was known of the hash, or adds to it, and leaves every other record. */
  lemma {:induction false} RecordExactly(transactions: seq<TxRecord>, rec: TxRecord, t: TxRecord)
    requires DistinctHashes(transactions)
    ensures t in Record(transactions, rec) <==> t == rec || (t in transactions && t.txHash != rec.txHash)
    ensures DistinctHashes(Record(transactions, rec))
  {
    if transactions != [] {
      var first, rest := transactions[0], transactions[1..];
      assert transactions == [first] + rest;
      RecordExactly(rest, rec, t);
      if first.txHash == rec.txHash {
        assert forall x | x in rest :: x.txHash != rec.txHash;
        assert Record(transactions, rec) == [rec] + rest;
      } else {
        var after := Record(rest, rec);
        forall j | 0 <= j < |after| ensures after[j].txHash != first.txHash {
          RecordExactly(rest, rec, after[j]);
        }
        assert Record(transactions, rec) == [first] + after;
      }
    }
  }
}
