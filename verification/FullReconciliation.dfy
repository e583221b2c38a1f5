/** The daily reconciliation of every active record against the ledger: what it detects, and what it can detect at all. */
module FullReconciliation {
  import opened Options
  import opened SharedTypes
  import opened Protocol
  import opened Ownership
  import opened ActiveLoans

  /** The answer to a `ledger_entry` request. */
  datatype Entry = Throws | NoNode | Node(entryType: string, principalDiffers: bool)

  function Finding(field: string): seq<Mismatch> { [Mismatch(field, Critical)] }

  function ReconcileVault(v: Vault, entry: Entry): seq<Mismatch> {
    var active := v.status == VaultActive || v.status == VaultFunded;
    if !Truthy(v.xrplVaultId) then if active then Finding("xrplVaultId") else []
    else match entry
         case Throws => if active then Finding("ledger_presence") else []
         case NoNode => Finding("ledger_node")
         case Node(t, _) => if t != "Vault" then Finding("entry_type") else []
  }

  function ReconcileBroker(b: Broker, entry: Entry): seq<Mismatch> {
    if !Truthy(b.xrplLoanBrokerId) then
      if b.status == BrokerActive || b.status == CoverFunded then Finding("xrplLoanBrokerId") else []
    else match entry
         case Throws => if b.status != BrokerQueued then Finding("ledger_presence") else []
         case NoNode => []
         case Node(t, _) => if t != "LoanBroker" && t != "LoanManager" then Finding("entry_type") else []
  }

  function ReconcileLoan(l: Loan, entry: Entry): seq<Mismatch> {
    if !Truthy(l.xrplLoanId) then if l.status == LoanActive then Finding("xrplLoanId") else []
    else match entry
         case Throws => if l.status == LoanActive then Finding("ledger_presence") else []
         case NoNode => []
         case Node(_, differs) => if differs then Finding("principal") else []
  }

  predicate VaultChecked(v: Vault) { v.status != VaultQueued }

  predicate BrokerChecked(b: Broker) { b.status != BrokerQueued }

  predicate LoanChecked(l: Loan) { l.status == LoanActive }

  // ---------- what is wrong with a record ----------

  /** The vault has no id, or the ledger shows no vault under it. */
  predicate VaultWrong(v: Vault, entry: Entry) { !Truthy(v.xrplVaultId) || !entry.Node? || entry.entryType != "Vault" }

  /** The broker has no id, or the ledger refuses it or shows something else; an answer without a node passes. */
  predicate BrokerWrong(b: Broker, entry: Entry) {
    !Truthy(b.xrplLoanBrokerId) || entry.Throws?
    || (entry.Node? && entry.entryType != "LoanBroker" && entry.entryType != "LoanManager")
  }

  /** The loan has no id, or the ledger refuses it or shows another principal; an answer without a node passes. */
  predicate LoanWrong(l: Loan, entry: Entry) {
    !Truthy(l.xrplLoanId) || entry.Throws? || (entry.Node? && entry.principalDiffers)
  }

  /** A check reports one critical mismatch for each wrong record and nothing for a right one. */
  ghost predicate Reports<T(!new)>(checked: T -> bool, check: (T, Entry) -> seq<Mismatch>, wrong: (T, Entry) -> bool) {
    forall x: T, e: Entry | checked(x) ::
      if wrong(x, e) then |check(x, e)| == 1 && check(x, e)[0].severity == Critical else check(x, e) == []
  }

  lemma ChecksReport()
    ensures Reports(VaultChecked, ReconcileVault, VaultWrong)
    ensures Reports(BrokerChecked, ReconcileBroker, BrokerWrong)
    ensures Reports(LoanChecked, ReconcileLoan, LoanWrong)
  {
  }

  // ---------- the run ----------

  datatype Summary = Summary(info: nat, warning: nat, critical: nat)

  /** The checked records that are wrong. */
  ghost function WrongOnes<T>(items: seq<T>, entries: seq<Entry>, checked: T -> bool, wrong: (T, Entry) -> bool): set<int>
    requires |entries| == |items|
  {
    set i | 0 <= i < |items| && checked(items[i]) && wrong(items[i], entries[i])
  }

  lemma OneMore<T>(items: seq<T>, entries: seq<Entry>, checked: T -> bool, wrong: (T, Entry) -> bool, n: nat)
    requires |entries| == |items| && n < |items|
    ensures |WrongOnes(items[..n + 1], entries[..n + 1], checked, wrong)|
         == |WrongOnes(items[..n], entries[..n], checked, wrong)|
            + if checked(items[n]) && wrong(items[n], entries[n]) then 1 else 0
  {
    var before := WrongOnes(items[..n], entries[..n], checked, wrong);
    var after := WrongOnes(items[..n + 1], entries[..n + 1], checked, wrong);
    forall i ensures i in after <==> i in before || (i == n && checked(items[n]) && wrong(items[n], entries[n])) {
      if 0 <= i <= n {
        assert items[..n + 1][i] == items[i] && entries[..n + 1][i] == entries[i];
      }
      if 0 <= i < n {
        assert items[..n][i] == items[i] && entries[..n][i] == entries[i];
      }
    }
    hide WrongOnes;
    assert n !in before by { NotYet(items, entries, checked, wrong, n); }
    assert after == if checked(items[n]) && wrong(items[n], entries[n]) then before + {n} else before;
  }

  lemma NotYet<T>(items: seq<T>, entries: seq<Entry>, checked: T -> bool, wrong: (T, Entry) -> bool, n: nat)
    requires |entries| == |items| && n < |items|
    ensures n !in WrongOnes(items[..n], entries[..n], checked, wrong)
  {
  }

  /** One of the three loops of the run: checks the records and counts the mismatches by severity. */
  method CheckAll<T(!new)>(items: seq<T>, entries: seq<Entry>, checked: T -> bool, check: (T, Entry) -> seq<Mismatch>,
                     ghost wrong: (T, Entry) -> bool, summary: Summary)
    returns (s: Summary)
    requires |entries| == |items| && Reports(checked, check, wrong)
    ensures s == summary.(critical := summary.critical + |WrongOnes(items, entries, checked, wrong)|)
  {
    s := summary;
    for i := 0 to |items|
      invariant s == summary.(critical := summary.critical + |WrongOnes(items[..i], entries[..i], checked, wrong)|)
    {
      OneMore(items, entries, checked, wrong, i);
      if checked(items[i]) {
        s := AddUp(s, check(items[i], entries[i]));
      }
    }
    assert items[..|items|] == items && entries[..|items|] == entries;
  }

  function CountOf(mismatches: seq<Mismatch>, severity: Severity): nat {
    if mismatches == [] then 0
    else CountOf(mismatches[..|mismatches| - 1], severity)
         + if mismatches[|mismatches| - 1].severity == severity then 1 else 0
  }

  method AddUp(summary: Summary, mismatches: seq<Mismatch>) returns (s: Summary)
    ensures s == Summary(summary.info + CountOf(mismatches, Info), summary.warning + CountOf(mismatches, Warning),
                         summary.critical + CountOf(mismatches, Critical))
  {
    s := summary;
    for i := 0 to |mismatches|
      invariant s == Summary(summary.info + CountOf(mismatches[..i], Info), summary.warning + CountOf(mismatches[..i], Warning),
                             summary.critical + CountOf(mismatches[..i], Critical))
    {
      assert mismatches[..i + 1][..i] == mismatches[..i];
      match mismatches[i].severity
      case Info => s := s.(info := s.info + 1);
      case Warning => s := s.(warning := s.warning + 1);
      case Critical => s := s.(critical := s.critical + 1);
    }
    assert mismatches[..|mismatches|] == mismatches;
  }

  /** The ledger's answer for each record. */
  datatype Answers = Answers(vaults: seq<Entry>, brokers: seq<Entry>, loans: seq<Entry>)

  predicate AnswersFor(db: Db, a: Answers) {
    |a.vaults| == |db.vaults| && |a.brokers| == |db.brokers| && |a.loans| == |db.loans|
  }

  ghost function WrongRecords(db: Db, a: Answers): nat
    requires AnswersFor(db, a)
  {
    |WrongOnes(db.vaults, a.vaults, VaultChecked, VaultWrong)| + |WrongOnes(db.brokers, a.brokers, BrokerChecked, BrokerWrong)|
    + |WrongOnes(db.loans, a.loans, LoanChecked, LoanWrong)|
  }

  /** Some active record has no id, or the ledger does not show under its id what it should. */
  ghost predicate SomethingWrong(db: Db, a: Answers)
    requires AnswersFor(db, a)
  {
    || (exists v | 0 <= v < |db.vaults| ::
          && db.vaults[v].status in {VaultActive, VaultFunded}
          && (!Truthy(db.vaults[v].xrplVaultId) || !a.vaults[v].Node? || a.vaults[v].entryType != "Vault"))
    || (exists b | 0 <= b < |db.brokers| ::
          && db.brokers[b].status in {BrokerActive, CoverFunded}
          && (!Truthy(db.brokers[b].xrplLoanBrokerId) || a.brokers[b].Throws?
              || (a.brokers[b].Node? && a.brokers[b].entryType !in {"LoanBroker", "LoanManager"})))
    || (exists l | 0 <= l < |db.loans| ::
          && db.loans[l].status == LoanActive
          && (!Truthy(db.loans[l].xrplLoanId) || a.loans[l].Throws? || (a.loans[l].Node? && a.loans[l].principalDiffers)))
  }

  /** The run counts the wrong active records, each once, and ends critical exactly when there is one. */
  method RunFullReconciliation(db: Db, a: Answers) returns (summary: Summary, critical: bool)
    requires AnswersFor(db, a)
    ensures summary == Summary(0, 0, WrongRecords(db, a))
    ensures critical <==> SomethingWrong(db, a)
  {
    hide ReconcileVault, ReconcileBroker, ReconcileLoan, Reports;
    ChecksReport();
    summary := Summary(0, 0, 0);
    summary := CheckAll(db.vaults, a.vaults, VaultChecked, ReconcileVault, VaultWrong, summary);
    summary := CheckAll(db.brokers, a.brokers, BrokerChecked, ReconcileBroker, BrokerWrong, summary);
    summary := CheckAll(db.loans, a.loans, LoanChecked, ReconcileLoan, LoanWrong, summary);
    critical := summary.critical > 0;
    SomeWrong(db.vaults, a.vaults, VaultChecked, VaultWrong);
    SomeWrong(db.brokers, a.brokers, BrokerChecked, BrokerWrong);
    SomeWrong(db.loans, a.loans, LoanChecked, LoanWrong);
  }

  lemma SomeWrong<T>(items: seq<T>, entries: seq<Entry>, checked: T -> bool, wrong: (T, Entry) -> bool)
    requires |entries| == |items|
    ensures |WrongOnes(items, entries, checked, wrong)| > 0
            <==> exists i | 0 <= i < |items| :: checked(items[i]) && wrong(items[i], entries[i])
  {
    var ones := WrongOnes(items, entries, checked, wrong);
    if i :| 0 <= i < |items| && checked(items[i]) && wrong(items[i], entries[i]) {
      assert i in ones;
    }
    if ones != {} {
      var i :| i in ones;
    }
  }

  // ---------- what it can find over runs ----------

  /** The ledger shows an object of the right kind, with the loan's principal, under every id it is asked for. */
  ghost predicate ShowsAll(db: Db, a: Answers)
    requires AnswersFor(db, a)
  {
    && (forall v | 0 <= v < |db.vaults| && Truthy(db.vaults[v].xrplVaultId) ::
          a.vaults[v].Node? && a.vaults[v].entryType == "Vault")
    && (forall b | 0 <= b < |db.brokers| && Truthy(db.brokers[b].xrplLoanBrokerId) ::
          a.brokers[b].Node? && a.brokers[b].entryType in {"LoanBroker", "LoanManager"})
    && (forall l | 0 <= l < |db.loans| && Truthy(db.loans[l].xrplLoanId) ::
          a.loans[l].Node? && !a.loans[l].principalDiffers)
  }

  /**
   * At any moment of any run, against a ledger that shows everything it is asked for, the only
   * thing to find is a loan that enrichment left active without an id, and that is found.
   */
  lemma OnlyLoansWithoutIdAreFound(cfg: Config, labels: seq<Label>, states: seq<Sys>, k: nat, a: Answers)
    requires IsRun(cfg, labels, states) && k <= |labels| && AnswersFor(states[k].db, a) && ShowsAll(states[k].db, a)
    ensures SomethingWrong(states[k].db, a) <==> exists x: nat :: WasLeftWithoutId(labels, states, x, k)
  {
    hide Run, Next, WasLeftWithoutId;
    var db := states[k].db;
    StateAt(cfg, labels, states, k);
    KnownHolds(cfg, labels[..k]);
    forall x: nat ensures ActiveWithoutId(db, x) <==> WasLeftWithoutId(labels, states, x, k) {
      ActiveWithoutIdExactlyWhen(cfg, labels, states, k, x);
    }
    if SomethingWrong(db, a) {
      var x :| 0 <= x < |db.loans| && db.loans[x].status == LoanActive
               && (!Truthy(db.loans[x].xrplLoanId) || a.loans[x].Throws? || (a.loans[x].Node? && a.loans[x].principalDiffers));
      assert ActiveWithoutId(db, x);
    }
    if x: nat :| WasLeftWithoutId(labels, states, x, k) {
      assert ActiveWithoutId(db, x);
      assert LoanChecked(db.loans[x]) && LoanWrong(db.loans[x], a.loans[x]);
    }
  }

  /** In every state of every run, a vault or broker is never reported for a missing ledger id. */
  lemma NoIdMissing(cfg: Config, s: Sys, v: nat, b: nat, entry: Entry, m: Mismatch)
    requires Reachable(cfg, s) && v < |s.db.vaults| && b < |s.db.brokers|
    requires m in ReconcileVault(s.db.vaults[v], entry) || m in ReconcileBroker(s.db.brokers[b], entry)
    ensures m.field != "xrplVaultId" && m.field != "xrplLoanBrokerId"
  {
    hide Reachable;
    ActiveIsKnown(cfg, s);
    assert "ledger_presence"[0] != 'x' && "ledger_node"[0] != 'x' && "entry_type"[0] != 'x';
  }
}
