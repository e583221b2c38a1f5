# Verification of the lending platform's off-chain protocol

This project models how a lending request becomes a ledger transaction, and proves what the
program promises about it over every run. It also covers the algorithms that the protocol
leans on. The command `dafny verify dfyconfig.toml` verifies all of it.

## What is modelled

**The outbox protocol.** `SharedTypes`, `OutboxDb`, `ServiceCalls` and `Classify` say what the
records are and what each operation does to them. `Protocol` puts them together as a state
machine: an API call is one step, and the worker takes one step for each database write and
each exchange with the ledger. A label carries whatever the ledger, the clock or the user
answers, and a run is any sequence of labels, so a statement about every reachable state covers
every interleaving and every behaviour of the ledger. `Control` holds the invariant about who
has which row; `SigningOrder`, `Progress`, `Dedupe`, `SeparationOfDuties`, `Signers`, `Admission`,
`Requests`, `Gates`, `Outcomes` and `Verdicts`, `Ownership`, `LedgerIds`, `ValidatedRecords`,
`WireSequences`, `RowEffects`, `ActiveLoans`, `Enrichment`, `Founding` and `FullReconciliation`
prove the results. `Reachability` shows how a row goes through, and `Witnesses` builds concrete
runs where a result needs its condition.

**The running program.** `MemoryStore`, `Services`, `TxExecutor` and `LedgerWorker` are classes
and methods that change state in place, loop and retry as the source does. Each method is
proved against the functions above: the services do what `ServiceCalls` says, and everything
the executor, the indexer and reconciliation do, with API calls in between, is a run of the
protocol. `Guarantees` draws the consequence for the running worker's database.

**Lookups.** `Lookup` runs the lookup loop against a ledger that moves on meanwhile and says
when a null answer is final.

**The evidence chain.** `Text`, `Json`, `Tokens`, `Canonical` and `CanonicalForm` print values
canonically and read them back, and `CanonicalText` says in plain text what is printed.
`EvidencePayload` and `EvidenceText` say what an event stores and what is hashed of it;
`EvidenceChain` hashes and verifies chains, and `EvidenceLog` interleaves appends to many
aggregates. The hash is any function; results that need it collision-free say so for the finitely
many texts the chains in question feed to it.

**Signatures, keys, sequences, rate limits.** `SignatureCodec` (ITU-T X.690 sections 8.1.3 and
8.3; section 2.2.3 of RFC 3279), `PublicKey` (SEC 1 section 2.3.3), `SequenceLease` and
`RateLimit`.

## Where the code does less than it seems to

- The separation-of-duties check skips an actor whose `sub` is missing or empty. The guarantee
  holds for every non-empty `sub` and for no other (`RefusedExactlyForApprovers`,
  `EmptySubEscapes`).
- Signing and counter-signing skip their identity checks when no user is named
  (`BorrowerSignaturesAccepted`, `BrokerSignaturesAccepted`).
- A dry run gets no further than asking for vaults: none of them is ever known to the ledger, and
  everything else needs one that is (`OnlyVaultsAreAskedFor`).
- A vault asked for without an address is refused and stays behind, queued and without a row
  (`RefusedChangesNothing`).
- The signature parser reads neither the outer length nor what follows the two integers, and takes
  a second integer that is cut short (`AcceptedExactlyWhenSplit`).
- `lookupTx` calls a transaction definitively absent although a broken connection on the last
  request looks the same as an answer; `NullIsFinalExactlyWhenConclusive` gives the exact
  condition.
- A sequence can be signed with twice when the ledger keeps answering a stale one
  (`StaleRefetchReuses`); `NoSequenceReusedExactlyWhen` says exactly when, and
  `SentIncreasingExactlyWhen` when sequences rise.
- One row can take effect on the ledger more than once: after a timeout that reached it, or a
  retry code, the row is signed again under another sequence (`TimeoutTakesEffectTwice`).
  `EffectAtMostOnceExactlyWhen` and `OneSequenceExactlyWhenLedBack` say exactly when it cannot,
  `RepeatedUnder` which answers bring it about. A cosigned blob is sent once
  (`BlobsAreSentOnce`).
- The TTL cache and the lease table disagree at the very instant a lease expires
  (`DifferAtExpiry`).
- A LoanSet whose metadata has a loan sequence and no index activates its loan without a ledger
  id (`ActiveLoanWithoutId`, `ActiveWithoutIdExactlyWhen`). Against a ledger that shows everything
  else, that is all the full reconciliation can find (`OnlyLoansWithoutIdAreFound`).
- A dedupe key is free again while its row is validated or indexed, so two LoanSets of one loan
  can both be validated (`TwoLoanSetsOfOneLoan`); exactly a call accepted at such a moment makes
  that possible (`SecondWasAcceptedTooEarly`, `AcceptedTooEarlyGoesThroughTwice`).
- Reconciliation enriches an aggregate again, which takes a funded vault back to active when a
  deposit was enriched since, as after a restart between indexing and reconciliation
  (`EnrichmentTakesBack`). Once the deposit is reconciled too the vault is funded for good, because
  rows are reconciled oldest first (`ReconciledDepositsStand`, `InEffectExactlyWhenInOrder`).
- The full reconciliation lets a broker or loan pass that the ledger answers without a node
  (`ChecksReport`).
- An aggregate type with a colon can share a chain scope with another aggregate
  (`ColonInTypeCollides`); chains verify exactly when that does not happen.
- An interval as long as a rate window admits up to 2·max − 1 requests, not max, unless max is at
  most 1 or a window at most 1 ms (`SlidingBoundIsMet`, `IntervalsBoundedExactlyWhen`).

## Model

| member | source | states |
|---|---|---|
| `Control.ControlHolds` | apps/ledger-worker/src/tx-executor.js:195-388 | in every state of every run each row is unclaimed and waiting, claimed once and in the worker’s hands at a stage that fits its status, or claimed once and settled |
| `Control.HandleChanges` | apps/control-api/src/services/loans.service.js:79-242 | whatever a service call does, the outbox changes in one of four ways: not at all, one new pending row whose key was free, one broker signature on a pending or processing row, one borrower signature on a broker-signed row |
| `Control.WorkerStepMoves` | apps/ledger-worker/src/tx-executor.js:219-388 | no worker step changes what a row asks for or its signature marks, and its status moves only forward: claimed from waiting, settled from in hand or submitted, indexed, reconciled |
| `Control.WorkerKeepsRecords` | apps/ledger-worker/src/runs/xrpl-state.js:109-175 | apart from rows and recorded transactions the worker changes the database only by enriching one aggregate |
| `SigningOrder.BrokerSignsFirst` | apps/control-api/src/services/loans.service.js:157-243 | in every state of every run a row marked as counter-signed is marked as broker-signed; its borrower signatures are at most its broker signatures, which lead by at most one and are at most two; the marks are set exactly when the evidence log holds a signature |
| `SigningOrder.SignaturesAlternate` | apps/control-api/src/services/loans.service.js:157-243 | in every state of every run, at every moment of the evidence log each borrower signature of a row is preceded by a broker signature of its own |
| `SigningOrder.CounterSignedInOrder` | apps/control-api/src/services/loans.service.js:157-243 | in every state of every run a counter-signed row has a broker signature in the evidence log before its first borrower signature |
| `SigningOrder.BlobPathIsSigned` | apps/ledger-worker/src/tx-executor.js:244-247 | the worker is about to send a cosigned blob only for a LoanSet row that both parties signed, the broker before the borrower |
| `Progress.ClaimedAtMostOnce` | apps/control-api/src/db/memory.js:187-196 | no row is claimed twice in any run, however it is signed in between, and while the worker is idle no row is in processing and every claimed row is settled |
| `Progress.WorkerNeverReopens` | apps/ledger-worker/src/tx-executor.js:219-388 | no worker write ever makes a row claimable |
| `Progress.AtMostThreeSubmits` | apps/ledger-worker/src/tx-executor.js:259-347 | whatever the ledger answers or throws, in every run the executor makes at most three submit requests for a row |
| `Progress.EveryPassEnds` | apps/ledger-worker/src/tx-executor.js:195-217 | within 7 worker steps for each row of a batch, whatever the ledger answers and whatever is called meanwhile, the worker is idle with no row in processing |
| `Progress.DrainedExactlyWhen` | apps/ledger-worker/src/tx-executor.js:195-217 | without new calls each claim takes the oldest batch off the claimable rows and nothing else changes them, so n of them are gone exactly when batchSize times the number of claims reaches n |
| `Gates.NothingIsSent` | apps/ledger-worker/src/tx-executor.js:219-234 | with lending off or in a dry run, in every state of every run nothing was sent and no sequence reserved, no row is submitted or validated, and what the worker is done with is blocked, or in a dry run prepared or reconciled and recorded as a dry run |
| `Gates.OnlyVaultsAreAskedFor` | apps/control-api/src/services/vaults.service.js:52-57 | and every row asks for a vault, none of which the ledger ever knows, so there are no brokers |
| `Gates.SentOnlyThroughTheGate` | apps/ledger-worker/src/tx-executor.js:219-257 | in every run whatever was sent belongs to a row that passed the gate before, with lending on, no dry run, no fee spike and the ledger connected; what was signed here, to one whose key the store said it holds |
| `Gates.SpikedPassSendsNothing` | apps/ledger-worker/src/tx-executor.js:236-239 | rows that meet a fee spike send nothing, whatever is called meanwhile and however many batches follow |
| `Classify.ClassesByText` | apps/ledger-worker/src/tx-executor.js:29-57 | success is exactly terQUEUED or a code beginning with tes; retry tefPAST_SEQ, tel… or another ter…; manual review tefNOT_ENABLED or tec…; any other code fails |
| `Verdicts.GateDecides` | apps/ledger-worker/src/tx-executor.js:219-242 | in every run a row at the gate is blocked if lending is off or fees spike, prepared and recorded in a dry run, failed without a connection, and else marked |
| `Verdicts.RouteDecides` | apps/ledger-worker/src/tx-executor.js:244-257 | in every run a marked LoanSet with the borrower’s blob is sent as that; any other row is signed, blocked or failed by what the key store says |
| `Verdicts.SignedAnswerDecides` | apps/ledger-worker/src/tx-executor.js:280-337 | in every run a self-signed row is sent again on a retry code, up to twice; else a validated result decides by its final code, a success not found and a review code go to manual review, and anything else fails, each with the record it leaves |
| `Verdicts.BlobAnswerDecides` | apps/ledger-worker/src/tx-executor.js:349-384 | in every run a cosigned row answered with a hash and a success code is decided by the validated result or stays submitted; a review code leads to manual review, a retry code leaves it submitted, and anything else fails |
| `Verdicts.SilenceDecides` | apps/ledger-worker/src/tx-executor.js:338-388 | in every run a request without an answer fails a cosigned row, and a self-signed one too unless the error allows another of three attempts |
| `Dedupe.OneOpenRowPerKey` | apps/control-api/src/db/memory.js:162-185 | in every state of every run at most one row of a dedupe key is outside validated, indexed, reconciled, failed and closed |
| `Dedupe.DoneIsForever` | apps/ledger-worker/src/runs/reconciliation.js:149-218 | however a run goes on, rows keep their keys, rows in those states stay in them, and reconciled rows stay reconciled |
| `Dedupe.ReconciledKeyIsSpent` | apps/control-api/src/db/memory.js:162-173 | a key with a reconciled row is rejected in every later state |
| `Dedupe.SecondWasAcceptedTooEarly` | apps/control-api/src/db/memory.js:165-173 | in every run, if two rows with one key go through, the later one was accepted while the earlier was validated or indexed; without such a call one row a key goes through at most |
| `Dedupe.AcceptedTooEarlyGoesThroughTwice` | apps/control-api/src/db/memory.js:165-173 | and from every reachable state, whatever the worker is doing, every such acceptance leads on to a state in which both rows have gone through |
| `Witnesses.TwoLoanSetsOfOneLoan` | apps/control-api/src/services/loans.service.js:79-133 | in some run two LoanSets of one loan are both validated |
| `SeparationOfDuties.NobodyApprovesAndSubmits` | apps/control-api/src/services/loans.service.js:22-195 | in every state of every run nobody with a non-empty sub has both approved a loan and prepared or signed it for the broker |
| `SeparationOfDuties.RefusedExactlyForApprovers` | apps/control-api/src/services/loans.service.js:22-36 | in every reachable state the two submitting calls fail the check exactly when the actor’s non-empty sub approved that loan |
| `SeparationOfDuties.ConflictsByText` | apps/control-api/src/services/loans.service.js:22-36 | on any log the scan finds a violation exactly when an event of the loan by this actor spells loan_approve or reconciliation_close, in letters of either case |
| `Signers.RefusedExactlyToOthers` | apps/control-api/src/services/loans.service.js:206-218 | in every run a user is refused to counter-sign a loan for its identity exactly when neither the loan names the user nor the first party linked to the user, and such a call changes nothing |
| `Signers.BlobIsTheBorrowers` | apps/control-api/src/services/loans.service.js:201-243 | in every run the blob of a counter-signed row was given for its loan by an earlier call, and if a user made that call, by the loan’s borrower at that moment |
| `Signers.BrokerBlobIsASubmitters` | apps/control-api/src/services/loans.service.js:157-195 | in every run the broker’s blob of a row was given for its loan while it was prepared for signing, and by no user with a non-empty sub who had approved the loan |
| `Witnesses.EmptySubEscapes` | apps/control-api/src/services/loans.service.js:23 | the non-empty sub is needed: in some run an actor with an empty sub approves a loan and prepares it |
| `Reachability.SuccessIsReachable` | apps/ledger-worker/src/tx-executor.js:195-388 | from every reachable state, whatever the worker has in hand and whatever else waits, some run goes on to send any row that is claimable or claimed and not yet marked, the way it has to be sent, and to a state where it is validated, recorded and its aggregate enriched |
| `Witnesses.CosignedLoanSucceeds` | apps/control-api/src/services/loans.service.js:79-243 | the blob path is taken: in some run a loan is prepared, signed by both, sent as a blob and validated |
| `Ownership.BrokersOwnTheirVault` | apps/control-api/src/services/vaults.service.js:96-107 | in every state of every run a broker’s owner is its vault’s owner |
| `Ownership.LoanSetsComeFromTheVaultOwner` | apps/control-api/src/services/loans.service.js:79-133 | in every state of every run the Account of a LoanSet row is the owner of the vault behind the loan’s broker, whose ledger id is set, and the borrower is its counterparty |
| `Ownership.ActiveIsKnown` | apps/ledger-worker/src/runs/xrpl-state.js:109-153 | in every state of every run a vault or broker past its queued state has a ledger id |
| `ValidatedRecords.OnlySuccessValidates` | apps/ledger-worker/src/tx-executor.js:299-306 | in every run a row becomes validated only by the executor’s write, on a validated result whose code, if it carries one, is terQUEUED or begins with tes |
| `ValidatedRecords.RecordedOnce` | apps/control-api/src/db/memory.js:221-225 | in every state of every run each hash is recorded once |
| `ValidatedRecords.IndexedRowsHaveResults` | apps/ledger-worker/src/runs/ledger-indexer.js:51-78 | in every state of every run an indexed row has a result |
| `ValidatedRecords.ValidatedRowsAreRecorded` | apps/ledger-worker/src/tx-executor.js:299-315 | in every run, from the moment a row is validated it keeps its hash and a validated result, through indexing and reconciliation, and its transaction is recorded whenever the executor does not have it in hand |
| `WireSequences.NoSequenceReusedExactlyWhen` | apps/ledger-worker/src/tx-executor.js:264-296 | in every state of every run no two submissions of an account share a Sequence exactly when, for no two of them, the ledger was asked again in between and its last answer with the reservations made since comes out at the earlier one’s |
| `WireSequences.SentIncreasingExactlyWhen` | apps/ledger-worker/src/tx-executor.js:259-278 | in every run the sequences an account sent strictly increase exactly when each answer it asked for in between, with the reservations made since, comes out ahead of what it sent last |
| `WireSequences.EverySubmissionBacked` | apps/control-api/src/db/memory.js:269-279 | in every state of every run every self-signed submission carries the sequence its own reservation handed out, and no reservation backs two submissions |
| `Witnesses.StaleRefetchReuses` | apps/ledger-worker/src/tx-executor.js:287-292 | the condition is needed: an account told twice that its sequence is stale may fetch and sign with the same one again |
| `RowEffects.BlobsAreSentOnce` | apps/ledger-worker/src/tx-executor.js:349-388 | in every run what was sent as a cosigned blob was sent once and never signed here as well |
| `RowEffects.EffectAtMostOnceExactlyWhen` | apps/ledger-worker/src/tx-executor.js:259-347 | in every state of every run, whichever submissions a ledger applies that takes each account’s Sequence and each blob once, every row takes effect at most once, exactly when no row was signed under two Sequences |
| `RowEffects.OneSequenceExactlyWhenLedBack` | apps/ledger-worker/src/tx-executor.js:259-347 | that is so exactly when, for every two times a row was signed, the ledger was asked again in between and its answer led back to the first one’s Sequence |
| `RowEffects.RepeatedUnder` | apps/ledger-worker/src/tx-executor.js:287-296 | a repeated attempt is signed under the same Sequence exactly when the first forgot the account’s next Sequence and the ledger, asked again, answers the same; after any other retry code it is one more |
| `RowEffects.AttemptReserves` | apps/ledger-worker/src/tx-executor.js:259-293 | each attempt reserves one sequence, and forgets the account’s next one exactly on a sequence error or an error that may be retried, when another attempt follows |
| `Witnesses.TimeoutTakesEffectTwice` | apps/ledger-worker/src/tx-executor.js:338-343 | in some run a request that timed out after reaching the ledger makes one row take effect twice |
| `Enrichment.EnrichTwice` | apps/ledger-worker/src/runs/xrpl-state.js:109-175 | enriching an aggregate twice in succession from a row leaves what enriching once leaves |
| `LedgerIds.IdsComeFromMetadata` | apps/ledger-worker/src/runs/xrpl-state.js:63-132 | in every run the ledger id of a vault, broker or loan is the index of the first object of its type in the metadata of a row that was to create it, from which it was enriched before |
| `LedgerIds.NamedIdIsTaken` | apps/ledger-worker/src/runs/xrpl-state.js:109-170 | and whenever a record is enriched from a row whose metadata names an id, that becomes its id and it is active |
| `Founding.DepositsFollowCreation` | apps/control-api/src/services/vaults.service.js:63-121 | in every state of every run a deposit comes after the row that created its vault or broker, and that row is validated, indexed, prepared or reconciled |
| `Founding.InEffectExactlyWhenInOrder` | apps/ledger-worker/src/runs/reconciliation.js:149-218 | in all states of a run every reconciled deposit has its vault or broker funded and the row that created it reconciled, exactly when that was so at each step that reconciled a deposit |
| `Guarantees.ReconciledDepositsStand` | apps/ledger-worker/src/runs/reconciliation.js:149-218 | and the running worker, which reconciles oldest first, keeps it so: between passes whatever a reconciled deposit was made to is funded |
| `Enrichment.SecondEnrichmentIsSilent` | apps/ledger-worker/src/runs/reconciliation.js:153 | in every run reconciliation’s enrichment, any steps after the indexer’s from the same result, changes nothing if no other row or result enriched the aggregate in between and its loan was not prepared again |
| `Witnesses.EnrichmentTakesBack` | apps/ledger-worker/src/runs/xrpl-state.js:113-132 | otherwise it can take back: in some run a vault funded by a deposit is active again after its creation row enriches it once more |
| `Guarantees.KeptAtRest` | apps/ledger-worker/src/main.js:27-36 | between passes the running worker’s database keeps all of it at once: one open row a key, separate duties, owned brokers, and every row counter-signed only after the broker signed, claimed at most once, settled, recorded and owned |
| `Lookup.LookupTx` | apps/ledger-worker/src/tx-executor.js:129-159 | the loop returns exactly what the first deciding round says: a validated result, or nothing once the ledger has passed or the rounds are over |
| `Lookup.PassedSomewhere` | apps/ledger-worker/src/tx-executor.js:140-147 | the lookup ends in the passed-ledger branch exactly when some round reports a passed ledger with nothing validated up to it |
| `Lookup.FoundIsIncluded` | apps/ledger-worker/src/tx-executor.js:143-152 | against a truthful node what is found is validated and in the ledger, no later than LastLedgerSequence |
| `Lookup.FoundExactlyWhen` | apps/ledger-worker/src/tx-executor.js:129-159 | a result is returned exactly when some round finds it validated before any other decides |
| `Lookup.NullIsFinalExactlyWhenConclusive` | apps/ledger-worker/src/tx-executor.js:140-147 | a null from the passed-ledger branch means the transaction is in no ledger, now or later, exactly when some request was answered at or after a report that LastLedgerSequence is reached; otherwise some lawful ledger gives the same answers and includes it |
| `Lookup.AnsweredNullIsFinal` | apps/ledger-worker/src/tx-executor.js:141-146 | in particular it is final whenever the last request was answered |
| `Lookup.BrokenRequestHidesInclusion` | apps/ledger-worker/src/tx-executor.js:142-146 | it is not final when the last request broke: an included transaction is reported as definitively absent |
| `MemoryStore.MemoryDatabase.EnqueueTx` | apps/control-api/src/db/memory.js:162-185 | refuses a key that an open row has and otherwise adds one pending row |
| `MemoryStore.MemoryDatabase.ClaimPendingOutbox` | apps/control-api/src/db/memory.js:187-196 | claims exactly the oldest claimable rows, counts the attempt and touches nothing else |
| `OutboxDb.ClaimTakesOldest` | apps/control-api/src/db/memory.js:187-196 | after a claim the claimable rows are the earlier ones without the oldest batch |
| `MemoryStore.MemoryDatabase.ListOutbox` | apps/control-api/src/db/memory.js:214-219 | lists the oldest rows in given states |
| `MemoryStore.MemoryDatabase.UpdateOutbox` | apps/control-api/src/db/memory.js:198-203 | overwrites the fields a patch carries of the one row |
| `MemoryStore.MemoryDatabase.RecordTransaction` | apps/control-api/src/db/memory.js:221-225 | overwrites the record of a hash or adds it |
| `OutboxDb.RecordedAfter` | apps/control-api/src/db/memory.js:221-225 | recording makes a hash known and forgets no other |
| `MemoryStore.MemoryDatabase.ReserveAccountSequence` | apps/control-api/src/db/memory.js:269-279 | keeps the account’s next sequence and hands out what the store without expiry does |
| `Admission.VaultsAccepted` | apps/control-api/src/services/vaults.service.js:15-50 | in every state of every run a vault is accepted for any owner address |
| `Admission.DepositsAccepted` | apps/control-api/src/services/vaults.service.js:52-94 | in every state of every run a deposit is answered by what the records say: the vault is there and known to the ledger, there is an account, and it has no deposit there still open |
| `Admission.BrokersAccepted` | apps/control-api/src/services/vaults.service.js:96-133 | in every state of every run a broker is accepted exactly for a vault the ledger knows, from its owner |
| `Admission.CollateralAccepted` | apps/control-api/src/services/vaults.service.js:135-169 | in every state of every run collateral is accepted exactly for a broker the ledger knows, once at an instant while the deposit is open |
| `Admission.PreparationsAccepted` | apps/control-api/src/services/loans.service.js:79-133 | in every state of every run a loan is prepared exactly by somebody who did not approve it, with a broker the ledger knows, two addresses and no LoanSet of it open; else the first of these that fails is the reason |
| `Admission.BrokerSignaturesAccepted` | apps/control-api/src/services/loans.service.js:157-180 | in every state of every run the broker’s signature is accepted exactly for a loan prepared for signing with an unsigned LoanSet, from somebody who did not approve it |
| `Admission.BorrowerSignaturesAccepted` | apps/control-api/src/services/loans.service.js:201-225 | in every state of every run the borrower’s signature is accepted exactly for a loan whose LoanSet the broker signed, from its borrower or without a user |
| `Admission.BrokerSignatureLeaves` | apps/control-api/src/services/loans.service.js:157-195 | it goes to the loan’s first unsigned LoanSet, which it leaves signed once with the blob and hash given; nothing else changes but the log |
| `Admission.BorrowerSignatureLeaves` | apps/control-api/src/services/loans.service.js:201-243 | it goes to the loan’s first broker-signed LoanSet, which it leaves signed twice with the blob given; nothing else changes but the log |
| `Admission.RefusedChangesNothing` | apps/control-api/src/services/vaults.service.js:15-50 | in every state of every run a refused call changes nothing, but for a vault without an address, which stays queued without a row |
| `Admission.CallsAreLogged` | apps/control-api/src/services/loans.service.js:63-243 | an accepted call is logged by one event with its actor, action, aggregate and row, a refused one by none |
| `Admission.ApprovedUntilPrepared` | apps/control-api/src/services/loans.service.js:63-133 | in every state of every run a loan is just approved exactly as long as no LoanSet of it was asked for |
| `Admission.LinksTheFirst` | apps/control-api/src/services/borrowers.service.js:27-47 | linking a user succeeds exactly when some party has the id, and links the first that has it and no other |
| `Requests.RowsAskForWhatWasCalled` | apps/control-api/src/services/vaults.service.js:15-169 | in every run, whatever has become of it, a row asks for what the call that added it asked for: account, parties and ledger object as the records stood then |
| `Services.LendingServices.EnforceSod` | apps/control-api/src/services/loans.service.js:22-36 | the scan reports a violation exactly when an event of the loan by this actor conflicts |
| `Services.LendingServices.PrepareCosignPacket` | apps/control-api/src/services/loans.service.js:79-151 | each guard in order, then the row, the loan’s status and the event; nothing is written when it is refused |
| `Services.LendingServices.RecordBrokerSignature` | apps/control-api/src/services/loans.service.js:157-195 | signs the loan’s first pending or processing LoanSet row, or refuses and writes nothing |
| `Services.LendingServices.RecordBorrowerSignature` | apps/control-api/src/services/loans.service.js:201-243 | counter-signs the loan’s first broker-signed LoanSet row; refuses a user on grounds of identity exactly when neither the loan nor the first party linked to the user says it is the borrower |
| `Services.LendingServices.CreateLoan` | apps/control-api/src/services/loans.service.js:63-73 | adds an approved loan and the approval event |
| `Services.LendingServices.CreateVault` | apps/control-api/src/services/vaults.service.js:15-50 | adds a queued vault, its row and its event |
| `Services.LendingServices.Deposit` | apps/control-api/src/services/vaults.service.js:52-94 | needs a vault known to the ledger, then adds a row and an event |
| `Services.LendingServices.CreateLoanBroker` | apps/control-api/src/services/vaults.service.js:96-133 | needs a vault known to the ledger and owned by the caller, then adds broker, row and event |
| `Services.LendingServices.DepositCollateral` | apps/control-api/src/services/vaults.service.js:135-169 | needs a broker known to the ledger, then adds a row and an event |
| `Services.LendingServices.CreateBorrower` | apps/control-api/src/services/borrowers.service.js:7-20 | adds a party and its event |
| `Services.LendingServices.LinkAuthUser` | apps/control-api/src/services/borrowers.service.js:27-47 | links the first party with the id, or refuses |
| `TxExecutor.Executor.ApiCalls` | apps/ledger-worker/src/main.js:24-36 | any API calls between two worker steps keep the worker’s place and change only rows that wait for a signature |
| `TxExecutor.Executor.ProcessPending` | apps/ledger-worker/src/tx-executor.js:195-217 | unless the network is blocked, a pass claims a batch and takes every row of it as far as it goes, whatever the ledger answers; everything it did is a run of the protocol, and no row is left in processing; with lending off, in a dry run or in a fee spike it sends nothing |
| `TxExecutor.Executor.ProcessOne` | apps/ledger-worker/src/tx-executor.js:219-257 | a claimed row leaves the batch, or is left for the caller to mark as failed when the ledger or the key store failed, by protocol steps only; with lending off, in a dry run or in a fee spike nothing is sent |
| `TxExecutor.Executor.SignAndSubmit` | apps/ledger-worker/src/tx-executor.js:259-347 | at most three attempts, each by protocol steps only, end with the row out of the batch |
| `TxExecutor.Executor.JudgeSigned` | apps/ledger-worker/src/tx-executor.js:298-346 | the outcome written for an attempt that is not repeated is the one the protocol names, after the lookup it calls for |
| `TxExecutor.Executor.SubmitBlobAndLookup` | apps/ledger-worker/src/tx-executor.js:349-388 | a cosigned row leaves the batch by protocol steps only |
| `TxExecutor.Executor.JudgeBlob` | apps/ledger-worker/src/tx-executor.js:349-388 | the outcome written for a sent blob is the one the protocol names, after the lookup it calls for |
| `LedgerWorker.Worker.EnrichAggregate` | apps/ledger-worker/src/runs/xrpl-state.js:109-175 | the records change to what the metadata says and the created ids come back |
| `LedgerWorker.Worker.IndexRow` | apps/ledger-worker/src/runs/ledger-indexer.js:34-83 | a candidate ends enriched and indexed, or waits when there is still no result for it |
| `LedgerWorker.Worker.RunLedgerIndexer` | apps/ledger-worker/src/runs/ledger-indexer.js:13-100 | unless it is off, unreachable or has seen this ledger, a run leaves each of the oldest twenty candidates indexed or without a result, by protocol steps only |
| `LedgerWorker.Worker.ResultOf` | apps/ledger-worker/src/runs/ledger-indexer.js:37-65 | a validated answer replaces a missing result, or one without metadata, of a row with a real hash, and nothing else does |
| `LedgerWorker.Worker.CheckCreated` | apps/ledger-worker/src/runs/reconciliation.js:155-186 | the post-submit check reports exactly the created objects the ledger does not show, each as a warning |
| `LedgerWorker.WarningsByText` | apps/ledger-worker/src/runs/xrpl-state.js:179-216 | a vault is missing when the ledger shows it in neither of two ways, a broker or loan when it does not show it, and each is warned of under its own field |
| `LedgerWorker.Worker.RunReconciliation` | apps/ledger-worker/src/runs/reconciliation.js:149-229 | the oldest twenty candidates end reconciled, by protocol steps only |
| `LedgerWorker.Worker.Tick` | apps/ledger-worker/src/main.js:27-36 | a tick is a run of the protocol: unless the network is blocked a pass; unless it is off, unreachable or has seen this ledger, the oldest rows to index that the pass left are indexed or without a result; then the oldest rows to reconcile are reconciled; and no row is in processing |
| `FullReconciliation.RunFullReconciliation` | apps/ledger-worker/src/runs/reconciliation.js:233-272 | the run ends critical exactly when some active vault, broker or loan has no id or the ledger does not show what it should under it, and it counts each such record once, as critical |
| `FullReconciliation.ChecksReport` | apps/ledger-worker/src/runs/reconciliation.js:29-143 | each check reports one critical mismatch for a wrong record and nothing for a right one; a broker or loan the ledger answers without a node passes |
| `FullReconciliation.OnlyLoansWithoutIdAreFound` | apps/ledger-worker/src/runs/reconciliation.js:233-272 | at any moment of any run, against a ledger that shows everything it is asked for, something is found exactly when enrichment left some loan active without an id |
| `FullReconciliation.NoIdMissing` | apps/ledger-worker/src/runs/reconciliation.js:36-41 | in every state of every run a vault or broker is never reported for a missing ledger id |
| `ActiveLoans.ActiveWithoutIdExactlyWhen` | apps/ledger-worker/src/runs/xrpl-state.js:155-169 | at any moment of any run a loan is active without an id exactly when an earlier enrichment met a LoanSet row of it with a loan sequence and no index, and since then none met one with an index and the loan was not prepared again |
| `Witnesses.ActiveLoanWithoutId` | apps/ledger-worker/src/runs/xrpl-state.js:155-169 | and in some run that happens |
| `LedgerState.NormalizeConcat` | apps/ledger-worker/src/runs/xrpl-state.js:20-58 | normalising a concatenation is concatenating the normalised lists |
| `LedgerState.NodesOfItems` | apps/ledger-worker/src/runs/xrpl-state.js:20-58 | the nodes are those of the items that have one, in order, created before modified before deleted, with the index in either spelling |
| `LedgerState.ExtractCreatedLedgerIds` | apps/ledger-worker/src/runs/xrpl-state.js:63-91 | the loop computes the picks of the specification |
| `LedgerState.PicksFirstUsable` | apps/ledger-worker/src/runs/xrpl-state.js:77-89 | an id is usable exactly when some created node of the type has a non-empty index, and it is then the first such node’s |
| `LedgerState.FirstUsableIsExtracted` | apps/ledger-worker/src/runs/xrpl-state.js:77-89 | the first usable node alone decides the id |
| `LedgerState.LoanIdWithItsSeq` | apps/ledger-worker/src/runs/xrpl-state.js:86-89 | a non-empty loan id always comes with the sequence of the same node |
| `LedgerState.PickedConcat` | apps/ledger-worker/src/runs/xrpl-state.js:77-89 | over two node lists in a row the first list’s pick stands if it is usable or the second has none, and else the second’s |
| `LedgerState.FirstUsableWins` | apps/ledger-worker/src/runs/xrpl-state.js:77-89 | in particular the first usable id of the two lists wins |
| `LedgerState.ExtractedConcat` | apps/ledger-worker/src/runs/xrpl-state.js:77-89 | so each id of a concatenation, and the loan sequence with its loan id, is that of one of the lists |
| `LedgerState.IdIsFirstCreatedItems` | apps/ledger-worker/src/runs/xrpl-state.js:63-91 | straight from the metadata: a non-empty id is reported for a type exactly when it is the index of the first item that creates an object of the type under a non-empty index, and a loan’s sequence is that item’s |
| `CanonicalForm.ReadPrinted` | packages/evidence-sdk/src/index.js:13-18 | a parser reads every printed value back, up to member order, and leaves the rest of the text |
| `CanonicalForm.CanonicalIffSame` | packages/evidence-sdk/src/index.js:13-18 | two values print alike exactly when they are the same up to member order |
| `CanonicalForm.PermutedMembersPrintAlike` | packages/evidence-sdk/src/index.js:16 | permuting the members of an object never changes the output |
| `Tokens.ReadEscaped` | packages/evidence-sdk/src/index.js:14-17 | every string, lone surrogates included, is read back from its escaped form |
| `Tokens.ReadPrintedInt` | packages/evidence-sdk/src/index.js:14 | every integer is read back from its decimal form |
| `Json.SortedInKeyOrder` | packages/evidence-sdk/src/index.js:16 | members come out all and in order: a key that is a proper beginning of another, or has the smaller code unit at the first difference, first |
| `Text.LessExactlyWhenFirst` | packages/evidence-sdk/src/index.js:16 | the recursive comparison is that order |
| `CanonicalText.ObjectsPrintInKeyOrder` | packages/evidence-sdk/src/index.js:16-17 | an object prints all its members in that order, each as its quoted key, a colon and its value, between braces with commas |
| `CanonicalText.ArraysPrintInPlace` | packages/evidence-sdk/src/index.js:15 | an array prints its elements in place between brackets with commas |
| `CanonicalText.StringsPrintEscaped` | packages/evidence-sdk/src/index.js:14 | a string prints between quotes, surrogate pairs as they are and every other code unit by section 7 of RFC 8259, shortest escape first |
| `CanonicalText.IntegersPrintInDecimal` | packages/evidence-sdk/src/index.js:14 | an integer prints as its decimal digits without leading zeros, after a minus sign if negative |
| `CanonicalText.WordsPrintAsThemselves` | packages/evidence-sdk/src/index.js:14 | null, undefined, true and false print as these words |
| `EvidenceText.HashedTextIs` | packages/evidence-sdk/src/index.js:28-37 | the text hashed for an event is its six fields under their names, in key order, the scope made of type and id where none is given, and null for no predecessor |
| `EvidencePayload.EnrichStores` | packages/evidence-sdk/src/index.js:42-66 | what is stored is every field of the caller’s payload with its value, the version 2.0, and warnings for a missing actor and action exactly when these are falsy |
| `EvidenceChain.PreimageBinds` | packages/evidence-sdk/src/index.js:28-37 | equal hashed texts mean equal scope, aggregate, type, predecessor and payload |
| `EvidenceChain.VerifyChain` | packages/evidence-sdk/src/index.js:85-116 | the loop accepts exactly the chains whose every event is linked and names the first that is not |
| `EvidenceChain.HeadBindsHistory` | packages/evidence-sdk/src/index.js:85-116 | two verified chains with one head hash have the same length and the same events |
| `EvidenceChain.HashesDistinct` | packages/evidence-sdk/src/index.js:85-116 | in a verified chain no hash occurs twice |
| `EvidenceChain.RewrittenEventFails` | packages/evidence-sdk/src/index.js:89-106 | changing the content of an event is found at that event |
| `EvidenceChain.DroppedEventFails` | packages/evidence-sdk/src/index.js:89-106 | dropping an event other than the last is found where it stood |
| `EvidenceChain.SwappedEventsFail` | packages/evidence-sdk/src/index.js:89-106 | swapping two events is found at the earlier place |
| `EvidenceChain.PrefixVerified` | packages/evidence-sdk/src/index.js:85-116 | every prefix of a verified chain verifies |
| `EvidenceLog.InterleavedChainsVerify` | apps/control-api/src/db/memory.js:148-160 | after any appends to any aggregates with distinct scopes the chain read back for each verifies |
| `EvidenceLog.ChainLength` | apps/control-api/src/db/memory.js:148-160 | and is as long as the appends made to it |
| `EvidenceLog.ChainsVerifyIffScopesDistinct` | apps/control-api/src/db/memory.js:148-160 | all chains verify exactly when no two aggregates share a scope |
| `EvidenceLog.ScopeInjective` | packages/evidence-sdk/src/index.js:24-26 | without a colon in the type the scope determines type and id |
| `EvidenceLog.ColonFreeTypesSuffice` | packages/evidence-sdk/src/index.js:24-26 | so colon-free types keep every chain verifiable |
| `EvidenceLog.ColonInTypeCollides` | packages/evidence-sdk/src/index.js:24-26 | with a colon in the type two aggregates can share a scope |
| `EvidenceLog.EventsCarryTheirCalls` | apps/control-api/src/db/memory.js:148-156 | every logged event carries its call’s aggregate, event type and payload, with just the two fields added |
| `EvidenceLog.ChainCarriesItsCalls` | apps/control-api/src/db/memory.js:148-160 | the chain read back for an aggregate is the calls made to it, in order |
| `EvidenceLog.HeadBindsCalls` | apps/control-api/src/db/memory.js:148-160 | chains of any two stores with one head hash were made by the same calls in the same order, payload for payload apart from the two added fields |
| `EvidenceLog.EvidenceStore.AppendEvidence` | apps/control-api/src/db/memory.js:148-156 | appends the next event of its scope and keeps the log a replay of the calls, and stores the caller’s payload with just the two fields added |
| `EvidenceLog.EvidenceStore.ValidIsLogged` | apps/control-api/src/db/memory.js:148-156 | the store’s log is one that its appends leave, so all results about such logs hold of it |
| `EvidenceLog.EvidenceStore.GetEvidence` | apps/control-api/src/db/memory.js:158-160 | reads back the events of one aggregate in order |
| `SignatureCodec.EncodingIsDer` | packages/keystore/src/kms-helpers.js:65-81 | the encoding is two minimal non-negative integers in a sequence, short enough for one-byte lengths |
| `SignatureCodec.NormalizeDerToLowS` | packages/keystore/src/kms-helpers.js:30-61 | the walk over the bytes computes the parser of the specification, errors included |
| `SignatureCodec.RoundTrip` | packages/keystore/src/kms-helpers.js:27-81 | decoding an encoded signature gives r unchanged and s made low |
| `SignatureCodec.RoundTripStable` | packages/keystore/src/kms-helpers.js:27-81 | for s below the order both are 64 digits, s becomes the smaller of s and N - s, and a second round trip changes nothing |
| `SignatureCodec.LowExactlyUpToN` | packages/keystore/src/kms-helpers.js:53-60 | the result is a low s exactly when s was at most the order |
| `SignatureCodec.EncodingInjective` | packages/keystore/src/kms-helpers.js:65-81 | different scalars have different encodings |
| `SignatureCodec.AcceptedExactlyWhenSplit` | packages/keystore/src/kms-helpers.js:30-61 | the parser accepts exactly the bytes that split into a sequence tag, a length of one octet or of two, two tagged integers and anything after them, the second possibly cut short |
| `SignatureCodec.RefusedFor` | packages/keystore/src/kms-helpers.js:35-61 | and gives the first of the reasons that apply for refusing others |
| `PublicKey.ExtractsThePoint` | packages/keystore/src/kms-helpers.js:107-124 | from every secp256k1 SubjectPublicKeyInfo the compressed form of its own point comes out |
| `PublicKey.TagAfterHeader` | packages/keystore/src/kms-helpers.js:113 | the search never stops inside the header, at no byte or half-byte offset |
| `PublicKey.RefusedExactlyWhen` | packages/keystore/src/kms-helpers.js:107-124 | from any bytes a key comes out exactly when 128 digits follow the first tag from the fortieth digit on, and has the 64 after it |
| `PublicKey.CompressionTellsApart` | packages/keystore/src/kms-helpers.js:119-123 | two points compress alike exactly when x and the parity of y agree, so the two points with one x never do |
| `SequenceLease.TtlCoordinator.WithAccountSequence` | apps/ledger-worker/src/sequence-coordinator.js:19-48 | the cache reserves as the specified store does, a failed fetch included |
| `SequenceLease.TtlCoordinator.InvalidateAccount` | apps/ledger-worker/src/sequence-coordinator.js:47 | the cache forgets the account and no other |
| `SequenceLease.PgSequences.ReserveAccountSequence` | apps/control-api/src/db/pg.js:551-576 | the transaction reserves as the specified store does, a roll-back included |
| `SequenceLease.NoRepeatNoGap` | apps/control-api/src/db/memory.js:269-279 | a reservation that asks no ledger hands out the value right after all handed out since the last that did |
| `SequenceLease.AsksExactlyWhen` | apps/ledger-worker/src/sequence-coordinator.js:19-48 | a reservation asks the ledger exactly when the account has not reserved since it was invalidated or half a minute has passed since it last did, at that instant already for the cache, only after it for the table, and never for the memory database; else it hands out one more |
| `SequenceLease.IncreasingIffFetchesAhead` | apps/control-api/src/db/pg.js:544-589 | an account’s sequences strictly increase exactly when every refetch is ahead of the last one handed out |
| `SequenceLease.CacheRefinesTable` | apps/ledger-worker/src/sequence-coordinator.js:19-48 | cache and lease table hand out the same on a trace exactly when each fetch at an expiry instant matches the lease |
| `SequenceLease.AgreeOffExpiry` | apps/ledger-worker/src/sequence-coordinator.js:26-34 | in particular when no reservation falls on an expiry instant |
| `SequenceLease.DifferAtExpiry` | apps/control-api/src/db/pg.js:552-555 | on an expiry instant they can differ |
| `RateLimit.RateLimiter.DoCheck` | apps/control-api/src/http/rate-limit.js:23-43 | the method decides and counts as the specification does |
| `RateLimit.RateLimiter.DoCleanup` | apps/control-api/src/http/rate-limit.js:10-19 | deleting while looping leaves exactly the entries that are not stale |
| `RateLimit.VerdictsByTimes` | apps/control-api/src/http/rate-limit.js:21-45 | on every trace, until the cap is first hit, every verdict, with what remains and when the window ends, is what the times of the key’s requests alone say |
| `RateLimit.OnlyOldEntriesGo` | apps/control-api/src/http/rate-limit.js:10-19 | a request leaves every other key’s entry alone, unless a minute passed since the last cleanup and the entry’s window ended a window ago |
| `RateLimit.CapHolds` | apps/control-api/src/http/rate-limit.js:28-30 | the map never exceeds its cap on any trace |
| `RateLimit.CleanupInvisible` | apps/control-api/src/http/rate-limit.js:10-43 | on every trace that never hits the cap, cleanup changes no verdict |
| `RateLimit.WindowBound` | apps/control-api/src/http/rate-limit.js:32-42 | no window admits more than max requests of a key |
| `RateLimit.SlidingBound` | apps/control-api/src/http/rate-limit.js:21-45 | no interval of a window’s length admits more than 2·max − 1 requests of a key, for every trace over any keys |
| `RateLimit.SlidingBoundIsMet` | apps/control-api/src/http/rate-limit.js:21-45 | for every max of at least 1 and every window of at least 2 ms some trace admits that many |
| `RateLimit.IntervalsBoundedExactlyWhen` | apps/control-api/src/http/rate-limit.js:21-45 | on all traces every interval of a window’s length is held to the limit of a window exactly when max is at most 1 or a window is at most one millisecond |

## Left out

- EveryPassEnds: assumes that while the worker is busy the labels it is given are the ones it waits for; other labels do nothing and take no step.
- AtMostThreeSubmits: counts the executor's submit requests; after a connection error the client sends the same signed transaction once more within one request, which is not modelled.
- NoSequenceReusedExactlyWhen: is about the memory database's reservation, which never expires; for the other two stores `IncreasingIffFetchesAhead` speaks of reservations, not submissions.
- EffectAtMostOnceExactlyWhen: the ledger may refuse any submission but takes no Sequence of an account and no blob twice; what each application does to balances is not modelled.
- ReconciledDepositsStand: is about the memory database, whose writes do not throw; reconciliation skips a row whose writes throw, and `InEffectExactlyWhenInOrder` then says what is left.
- ConflictsByText: compares letters as ASCII does; the runtime's upper-casing of other letters is not modelled.
- HeadBindsCalls: binds the caller's payload apart from fields named `_evidenceVersion` and `_warnings`, which are overwritten.
- HeadBindsHistory: needs the hash to be collision-free on the texts of the two chains, and says nothing about a chain's creation times, which are not hashed.
- CanonicalIffSame: its domain is null, booleans, safe integers, strings of UTF-16 units, arrays and duplicate-free objects with `undefined` only as a member value; on fractions, NaN, infinities, −0, dates and `undefined` in arrays printed forms collide or belong to the number printer.
- NullIsFinalExactlyWhenConclusive: the node may stay silent or fail but does not lie, and sees all validated ledgers.
- CleanupInvisible: is about one limiter with one window length; several limiters of different lengths over the shared map are not modelled.
- Record ids are positions, standing for fresh UUIDs, and dedupe keys are constructors, standing for the distinct strings the services build.
- The protocol keeps of an evidence event only who did what to which aggregate and row; full events with hashes are `EvidenceLog`.
- Each service method is one step and each memory write does not throw; one worker runs at a time, as `tickRunning` ensures in one process.
- Records are values in sequences that methods reassign; the executor rereads a row by id where the source holds a reference to it.
- Vault positions, the cover ledger, reconciliation run records, request authors, principals, interest, error texts and timestamps are not in the records; whether a loan's principal differs from the ledger's is part of the ledger's answer.
- Transaction builders and signing: a builder refuses an empty address, a key store answers whether it holds a key or throws, a signer signs or throws, and its hash is arbitrary.
- Sleeping, logging, metrics, the network readiness details behind `amendment_blocked`, and reconnecting after repeated errors.
- `classifyResult` on names that every object inherits, such as `constructor`, is taken as a failure, which is how the executor then treats it.
- A dry run's result carries its kind; the model keeps only that it is not validated.
- `PgDatabase` apart from its sequence leases: SQL text, `buildPatch`, and `appendEvidence`, which stores the caller's payload rather than the one it hashed.
- `fetchAllAccountObjects`: the paging loop ends only if the ledger stops sending markers.
- `quote`, `buildAuditBundle`, chain anchors, listing and dashboard queries: easy, or floating point.
- The HTTP server, authentication, portals and configuration.
