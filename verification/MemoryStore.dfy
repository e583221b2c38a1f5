/** The memory database: the class whose methods change the shared state in place. */
module MemoryStore {
  import opened Options
  import opened SharedTypes
  import opened OutboxDb
  import opened SequenceLease

  class MemoryDatabase {
    var vaults: seq<Vault>
    var loanBrokers: seq<Broker>
    var loans: seq<Loan>
    var parties: seq<Party>
    var outbox: seq<Row>
    var evidence: seq<Note>
    var transactions: seq<TxRecord>
    var sequences: map<string, int>

    /** The shared state as a value. */
    ghost function View(): Db
      reads this
    {
      Db(vaults, loanBrokers, loans, parties, outbox, evidence, transactions)
    }

    constructor ()
      ensures View() == EMPTY_DB && sequences == map[]
    {
      vaults, loanBrokers, loans, parties, outbox, evidence, transactions := [], [], [], [], [], [], [];
      sequences := map[];
    }

    // ---------- outbox ----------

    /** Adds a pending row, unless an open row has the same key. */
    method EnqueueTx(input: TxInput) returns (id: Option<nat>)
      modifies `outbox
      ensures Rejects(old(outbox), input.dedupeKey) ==> id == None && outbox == old(outbox)
      ensures !Rejects(old(outbox), input.dedupeKey) ==> id == Some(old(|outbox|)) && outbox == old(outbox) + [NewRow(input)]
    {
      if input.dedupeKey.Some? {
        for i := 0 to |outbox|
          invariant forall k | 0 <= k < i :: !(outbox[k].dedupeKey == input.dedupeKey && !IsTerminal(outbox[k].status))
          invariant outbox == old(outbox)
        {
          if outbox[i].dedupeKey == input.dedupeKey && !IsTerminal(outbox[i].status) {
            return None;
          }
        }
      }
      id := Some(|outbox|);
      outbox := outbox + [NewRow(input)];
    }

    /** Marks the oldest claimable rows as processing and counts the attempt. */
    method ClaimPendingOutbox(limit: nat) returns (ids: seq<nat>)
      modifies `outbox
      ensures ids == Firsts(ClaimableIds(old(outbox)), limit)
      ensures outbox == ClaimRows(old(outbox), ids)
    {
      var before := outbox;
      ClaimableIdsFacts(before);
      ids := ListOutbox({Pending, Signed2}, limit);
      ghost var all := ClaimableIds(before);
      assert forall k | 0 <= k < |ids| :: ids[k] == all[k] && all[k] in all;
      for k := 0 to |ids|
        invariant |outbox| == |before|
        invariant forall i | 0 <= i < |before| ::
            outbox[i] == if i in ids[..k] then ClaimRow(before[i]) else before[i]
      {
        var row := outbox[ids[k]];
        assert ids[k] !in ids[..k];
        outbox := outbox[ids[k] := row.(status := Processing, attempts := row.attempts + 1)];
        assert ids[..k + 1] == ids[..k] + [ids[k]];
      }
      assert ids[..|ids|] == ids;
    }

    /** The oldest rows in one of the states. */
    method ListOutbox(statuses: set<Status>, limit: nat) returns (ids: seq<nat>)
      ensures ids == Firsts(IdsIn(outbox, statuses), limit)
    {
      ids := [];
      for i := 0 to |outbox|
        invariant ids == IdsIn(outbox[..i], statuses)
      {
        assert outbox[..i + 1][..i] == outbox[..i];
        if outbox[i].status in statuses { ids := ids + [i]; }
      }
      assert outbox[..|outbox|] == outbox;
      ids := Firsts(ids, limit);
    }

    /** Overwrites the fields the patch carries. */
    method UpdateOutbox(id: nat, p: Patch)
      modifies `outbox
      ensures outbox == UpdateRow(old(outbox), id, p)
    {
      if id < |outbox| {
        var row := outbox[id];
        if p.status.Some? { row := row.(status := p.status.value); }
        if p.txHash.Some? { row := row.(txHash := p.txHash.value); }
        if p.txResult.Some? { row := row.(txResult := p.txResult.value); }
        if p.meta.Some? { row := row.(meta := p.meta.value); }
        outbox := outbox[id := row];
      }
    }

    // ---------- transactions ----------

    /** Overwrites the record of the hash, or adds one. */
    method RecordTransaction(rec: TxRecord)
      modifies `transactions
      ensures transactions == Record(old(transactions), rec)
    {
      for i := 0 to |transactions|
        invariant transactions == old(transactions)
        invariant Record(transactions, rec) == transactions[..i] + Record(transactions[i..], rec)
      {
        if transactions[i].txHash == rec.txHash {
          transactions := transactions[i := rec];
          assert transactions == old(transactions)[..i] + ([rec] + old(transactions)[i..][1..]);
          return;
        }
        assert transactions[i..][1..] == transactions[i + 1..];
        assert transactions[..i] + [transactions[i]] == transactions[..i + 1];
      }
      transactions := transactions + [rec];
    }

    // ---------- sequences ----------

    method ReserveAccountSequence(account: string, fetch: Option<int>) returns (reserved: Option<int>)
      modifies `sequences
      ensures forall leases: Leases | Nexts(leases) == old(sequences) ::
                var after := Step(MemoryDb, leases, Reserve(account, 0, fetch));
                Nexts(after.0) == sequences && after.1 == reserved
    {
      assert forall leases: Leases | Nexts(leases) == sequences :: account in leases <==> account in sequences;
      if account !in sequences {
        reserved := fetch;
        if reserved == None { return; }
        sequences := sequences[account := reserved.value + 1];
      } else {
        reserved := Some(sequences[account]);
        sequences := sequences[account := reserved.value + 1];
      }
    }

    method ForgetAccountSequence(account: string)
      modifies `sequences
      ensures sequences == old(sequences) - {account}
    {
      sequences := sequences - {account};
    }
  }
}
