/** Where the ledger ids of vaults, brokers and loans come from, over every run. */
module LedgerIds {
  import opened Options
  import opened SharedTypes
  import opened OutboxDb
  import opened Protocol
  import opened ServiceCalls
  import opened Control
  import opened Progress
  import opened Ownership
  import LedgerState

  /** The kind of row that creates an object of the type. */
  function CreatorOf(t: LedgerState.ObjectType): Kind {
    match t
    case Vault => VaultCreate
    case LoanBroker => LoanBrokerSet
    case Loan => LoanSet
  }

  /** The record's ledger id, if the record is there. */
  function IdOf(db: Db, t: LedgerState.ObjectType, k: nat): Option<string> {
    match t
    case Vault => if k < |db.vaults| then db.vaults[k].xrplVaultId else None
    case LoanBroker => if k < |db.brokers| then db.brokers[k].xrplLoanBrokerId else None
    case Loan => if k < |db.loans| then db.loans[k].xrplLoanId else None
  }

  /** The record has just become active. */
  predicate IsActive(db: Db, t: LedgerState.ObjectType, k: nat) {
    match t
    case Vault => k < |db.vaults| && db.vaults[k].status == VaultActive
    case LoanBroker => k < |db.brokers| && db.brokers[k].status == BrokerActive
    case Loan => k < |db.loans| && db.loans[k].status == LoanActive
  }

  /** The row's metadata first creates an object of the type its kind is for under this index. */
  ghost predicate Names(row: Row, t: LedgerState.ObjectType, id: string) {
    && row.kind == CreatorOf(t) && row.txResult.Some? && row.txResult.value.meta.Some?
    && exists i: nat :: LedgerState.FirstCreated(row.txResult.value.meta.value.items, t, id, i)
  }

  ghost function ItemsOf(r: Option<TxResult>): seq<LedgerState.AffectedItem> {
    if r.Some? && r.value.meta.Some? then r.value.meta.value.items else []
  }

  ghost function PickOf(r: Option<TxResult>, t: LedgerState.ObjectType): Option<string> {
    match t
    case Vault => CreatedIds(r).vaultId
    case LoanBroker => CreatedIds(r).loanBrokerId
    case Loan => CreatedIds(r).loanId
  }

  lemma PickByItems(r: Option<TxResult>, t: LedgerState.ObjectType, id: string)
    ensures id != "" && PickOf(r, t) == Some(id)
            <==> exists i: nat :: LedgerState.FirstCreated(ItemsOf(r), t, id, i)
  {
    var items := ItemsOf(r);
    assert PickOf(r, t) == LedgerState.PickedIndex(LedgerState.NormalizeAffectedNodes(items), t);
    hide PickOf, CreatedIds, LedgerState.PickedIndex, LedgerState.NormalizeAffectedNodes, LedgerState.FirstCreated, ItemsOf;
    if id != "" && LedgerState.PickedIndex(LedgerState.NormalizeAffectedNodes(items), t) == Some(id) {
      var i := LedgerState.ReportedFromFirstItem(items, t, id);
    }
    if i: nat :| LedgerState.FirstCreated(items, t, id, i) {
      LedgerState.FirstItemDecides(items, t, id, i);
    }
  }

  lemma NothingCreated(t: LedgerState.ObjectType, id: string, i: nat)
    ensures !LedgerState.FirstCreated([], t, id, i)
  {
  }

  lemma NamesByPick(row: Row, t: LedgerState.ObjectType, id: string)
    ensures Names(row, t, id) <==> row.kind == CreatorOf(t) && id != "" && PickOf(row.txResult, t) == Some(id)
  {
    hide PickOf, LedgerState.FirstCreated;
    PickByItems(row.txResult, t, id);
    if i: nat :| LedgerState.FirstCreated(ItemsOf(row.txResult), t, id, i) {
      NothingCreated(t, id, i);
      assert ItemsOf(row.txResult) != [];
      assert LedgerState.FirstCreated(row.txResult.value.meta.value.items, t, id, i);
    }
    if row.txResult.Some? && row.txResult.value.meta.Some? {
      assert ItemsOf(row.txResult) == row.txResult.value.meta.value.items;
    }
  }

  /** What enrichment does to a record's id. */
  lemma EnrichedId(db: Db, row: Row, t: LedgerState.ObjectType, k: nat)
    requires RowOwned(db, row)
    ensures var pick := PickOf(row.txResult, t);
            var named := row.kind == CreatorOf(t) && row.aggregateId == k && Truthy(pick);
            if named then IdOf(Enriched(db, row), t, k) == pick && IsActive(Enriched(db, row), t, k)
            else IdOf(Enriched(db, row), t, k) == IdOf(db, t, k) || !Truthy(IdOf(Enriched(db, row), t, k))
  {
    hide CreatedIds;
    match t
    case Vault =>
    case LoanBroker =>
    case Loan =>
  }

  lemma CallKeepsIds(db: Db, call: Call, t: LedgerState.ObjectType, k: nat)
    ensures IdOf(Handle(db, call).0, t, k) == IdOf(db, t, k)
  {
    hide ViolatesSod, Rejects, MayCounterSign, FindLoanSet, FindParty;
  }

  // ---------- runs ----------

  /** The step enriches the record from a row of its own that names the id. */
  ghost predicate GivesId(s: Sys, l: Label, t: LedgerState.ObjectType, k: nat, id: string) {
    Enriching(s, l) && s.db.outbox[l.id].aggregateId == k && Names(s.db.outbox[l.id], t, id)
  }

  ghost predicate WasGiven(labels: seq<Label>, states: seq<Sys>, t: LedgerState.ObjectType, k: nat, id: string, n: nat)
    requires n <= |labels| && |states| == |labels| + 1
  {
    exists m: nat :: m < n && GivesId(states[m], labels[m], t, k, id)
  }

  lemma GivenStep(cfg: Config, s: Sys, l: Label, t: LedgerState.ObjectType, k: nat, id: string)
    requires OwnershipInv(s.db) && id != "" && IdOf(Next(cfg, s, l).db, t, k) == Some(id)
    ensures IdOf(s.db, t, k) == Some(id) || GivesId(s, l, t, k, id)
  {
    match l
    case Api(call) =>
      hide Handle, IdOf;
      CallKeepsIds(s.db, call, t, k);
    case _ =>
      hide Next;
      GivenByWorker(cfg, s, l, t, k, id);
  }

  lemma GivenByWorker(cfg: Config, s: Sys, l: Label, t: LedgerState.ObjectType, k: nat, id: string)
    requires OwnershipInv(s.db) && id != "" && IdOf(Next(cfg, s, l).db, t, k) == Some(id) && !l.Api?
    ensures IdOf(s.db, t, k) == Some(id) || GivesId(s, l, t, k, id)
  {
    hide Next, Enriched, Names, PickOf, RowOwned;
    WorkerKeepsRecords(cfg, s, l);
    if Enriching(s, l) {
      EnrichedId(s.db, s.db.outbox[l.id], t, k);
      NamesByPick(s.db.outbox[l.id], t, id);
    }
  }

  lemma NoIdsYet(t: LedgerState.ObjectType, k: nat)
    ensures !Truthy(IdOf(START.db, t, k))
  {
  }

  lemma LongerGiven(labels: seq<Label>, states: seq<Sys>, t: LedgerState.ObjectType, k: nat, id: string, n: nat)
    requires n < |labels| && |states| == |labels| + 1
    ensures WasGiven(labels, states, t, k, id, n) || GivesId(states[n], labels[n], t, k, id) ==> WasGiven(labels, states, t, k, id, n + 1)
  {
    hide GivesId;
  }

  /**
   * In every run, the ledger id of a vault, broker or loan is the index of the first object of its type that the
   * metadata of a row that was to create it shows as created, from which it was enriched before.
   */
  lemma {:induction false} IdsComeFromMetadata(cfg: Config, labels: seq<Label>, states: seq<Sys>, t: LedgerState.ObjectType, k: nat, n: nat)
    requires IsRun(cfg, labels, states) && n <= |labels| && Truthy(IdOf(states[n].db, t, k))
    ensures WasGiven(labels, states, t, k, IdOf(states[n].db, t, k).value, n)
  {
    hide Run, Next, WasGiven, GivesId, OwnershipInv;
    if n == 0 {
      NoIdsYet(t, k);
    } else {
      var id := IdOf(states[n].db, t, k).value;
      StateAt(cfg, labels, states, n - 1);
      OwnershipHolds(cfg, labels[..n - 1]);
      assert Moment(n - 1);
      GivenStep(cfg, states[n - 1], labels[n - 1], t, k, id);
      if IdOf(states[n - 1].db, t, k) == Some(id) { IdsComeFromMetadata(cfg, labels, states, t, k, n - 1); }
      LongerGiven(labels, states, t, k, id, n - 1);
    }
  }

  /** And whenever a record is enriched from a row that names an id, that becomes its id, and it is active. */
  lemma NamedIdIsTaken(cfg: Config, labels: seq<Label>, states: seq<Sys>, t: LedgerState.ObjectType, k: nat, id: string, n: nat)
    requires IsRun(cfg, labels, states) && n < |labels| && GivesId(states[n], labels[n], t, k, id)
    ensures IdOf(states[n + 1].db, t, k) == Some(id) && IsActive(states[n + 1].db, t, k)
  {
    hide Run, Next, Enriched, Names, PickOf, IdOf, IsActive;
    var s, l := states[n], labels[n];
    StateAt(cfg, labels, states, n);
    OwnershipHolds(cfg, labels[..n]);
    assert Moment(n);
    assert RowOwned(s.db, s.db.outbox[l.id]);
    hide RowOwned;
    WorkerKeepsRecords(cfg, s, l);
    NamesByPick(s.db.outbox[l.id], t, id);
    EnrichedId(s.db, s.db.outbox[l.id], t, k);
  }
}
