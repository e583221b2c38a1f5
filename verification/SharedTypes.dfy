/** Records of the shared database, as far as the lending protocol uses them. */
module SharedTypes {
  import opened Options
  import LedgerState

  datatype Status =
    | Pending | Processing | Prepared | Signed1 | Signed2 | Submitted | Validated
    | Indexed | Reconciled | Closed | Failed | Blocked | ManualReview

  datatype Kind = VaultCreate | VaultDeposit | LoanBrokerSet | CollateralDeposit | LoanSet

  datatype Aggregate = VaultAggregate | BrokerAggregate | LoanAggregate | BorrowerAggregate

  /** The dedupe keys the services build, one constructor per string pattern. */
  datatype DedupeKey =
    | VaultCreateKey(vaultId: nat)
    | VaultDepositKey(vaultId: nat, account: string)
    | BrokerSetKey(brokerId: nat)
    | CollateralKey(brokerId: nat, now: int)
    | LoanSetKey(loanId: nat)

  /** The unsigned transaction of a row. */
  datatype Tx = Tx(
    account: string,
    counterparty: Option<string>,
    objectId: Option<string>,
    lastLedgerSequence: Option<nat>)

  datatype TxMeta = TxMeta(code: Option<string>, items: seq<LedgerState.AffectedItem>)

  /** What the ledger says about a transaction. */
  datatype TxResult = TxResult(validated: bool, ledgerIndex: Option<nat>, meta: Option<TxMeta>)

  datatype RowMeta = RowMeta(
    brokerSigned: bool,            // brokerSignedAt is present
    brokerBlob: Option<string>,
    counterpartySigned: bool,      // counterpartySignedAt is present
    counterpartyBlob: Option<string>,
    lastLedgerSequence: Option<nat>)

  const NO_META := RowMeta(false, None, false, None, None)

  datatype Row = Row(
    kind: Kind,
    status: Status,
    aggregate: Aggregate,
    aggregateId: nat,
    dedupeKey: Option<DedupeKey>,
    tx: Tx,
    txHash: Option<string>,
    txResult: Option<TxResult>,
    meta: RowMeta,
    attempts: nat)

  datatype VaultStatus = VaultQueued | VaultActive | VaultFunded

  datatype BrokerStatus = BrokerQueued | BrokerActive | CoverFunded

  datatype LoanStatus = LoanApproved | CosignPending | LoanActive

  datatype Vault = Vault(xrplVaultId: Option<string>, ownerAddress: string, status: VaultStatus)

  datatype Broker = Broker(xrplLoanBrokerId: Option<string>, vaultId: nat, ownerAddress: string, status: BrokerStatus)

  datatype Loan = Loan(
    xrplLoanId: Option<string>,
    xrplLoanSeq: Option<int>,
    loanBrokerId: nat,
    borrowerPartyId: Option<string>,
    borrowerAddress: string,
    status: LoanStatus)

  datatype Party = Party(id: string, authUserId: Option<string>)

  /** What the protocol reads of an evidence event: who did what to which aggregate and row. */
  datatype Note = Note(
    aggregate: Aggregate,
    aggregateId: nat,
    actor: Option<string>,
    action: Option<string>,
    outboxId: Option<nat>)

  datatype TxRecord = TxRecord(txHash: string, resultCode: string)

  /** The whole shared state. A record's id is its position, standing for a fresh UUID. */
  datatype Db = Db(
    vaults: seq<Vault>,
    brokers: seq<Broker>,
    loans: seq<Loan>,
    parties: seq<Party>,
    outbox: seq<Row>,
    evidence: seq<Note>,
    transactions: seq<TxRecord>)

  const EMPTY_DB := Db([], [], [], [], [], [], [])
}
