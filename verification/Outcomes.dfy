/** What the executor makes of an answer, by the text of the result code. */
module Outcomes {
  import opened Options
  import opened SharedTypes
  import opened OutboxDb
  import opened Classify
  import opened Protocol

  /** The code that counts in the end: that of the metadata, and the engine's where there is none. */
  predicate EndsWith(r: TxResult, engine: string, code: string) {
    if r.meta.Some? && r.meta.value.code.Some? then r.meta.value.code == Some(code) else code == engine
  }

  /** What a result found in a validated ledger makes of a row: validated on a success, and else failed. */
  ghost predicate JudgedBy(r: TxResult, hash: string, engine: string, patch: Patch, toRecord: Option<TxRecord>) {
    && r.validated && patch.txResult == Some(Some(r)) && toRecord.Some? && toRecord.value.txHash == hash
    && EndsWith(r, engine, toRecord.value.resultCode)
    && patch.status == Some(if IsSuccess(toRecord.value.resultCode) then Validated else Failed)
  }

  /** The outcome of a self-signed transaction that was answered and is not repeated. */
  ghost predicate SignedOutcome(hash: string, engine: string, result: Option<TxResult>, lookup: Option<TxResult>,
                                patch: Patch, toRecord: Option<TxRecord>) {
    && patch.txHash == Some(Some(hash)) && patch.meta == None
    && if IsSuccess(engine) && lookup.Some? && lookup.value.validated then
         JudgedBy(lookup.value, hash, engine, patch, toRecord)
       else
         && patch.txResult == Some(result)
         && patch.status == Some(if IsSuccess(engine) || IsReview(engine) then ManualReview else Failed)
         && toRecord == if IsSuccess(engine) then None else Some(TxRecord(hash, engine))
  }

  /** The outcome of a cosigned blob that was answered; without a hash not even a success code is one. */
  ghost predicate BlobOutcome(row: Row, hash: Option<string>, engine: string, result: Option<TxResult>,
                              lookup: Option<TxResult>, patch: Patch, toRecord: Option<TxRecord>) {
    && patch.txHash == Some(hash)
    && if IsSuccess(engine) && Truthy(hash) then
         if lookup.Some? && lookup.value.validated then
           JudgedBy(lookup.value, hash.value, engine, patch, toRecord) && patch.meta == None
         else
           && patch.status == Some(Status.Submitted) && patch.txResult == Some(result) && toRecord == None
           && patch.meta.Some? && patch.meta.value.lastLedgerSequence
                == (if row.tx.lastLedgerSequence.Some? then row.tx.lastLedgerSequence else row.meta.lastLedgerSequence)
       else
         && patch.txResult == Some(result) && patch.meta == None
         && patch.status == Some(if IsReview(engine) then ManualReview else if IsRetry(engine) then Status.Submitted else Failed)
         && toRecord == if Truthy(hash) then Some(TxRecord(hash.value, engine)) else None
  }

  /** A request that got no answer leaves the row failed and says nothing else. */
  ghost predicate Unanswered(patch: Patch, toRecord: Option<TxRecord>) {
    patch == Patch(Some(Failed), None, None, None) && toRecord == None
  }

  lemma JudgedByText(v: TxResult, hash: string, engine: string)
    requires v.validated
    ensures JudgedBy(v, hash, engine, Patch(Some(ValidatedOrFailed(v, engine)), Some(Some(hash)), Some(Some(v)), None),
                     Some(TxRecord(hash, FinalCode(v, engine))))
  {
    ClassesByText(FinalCode(v, engine));
    hide ClassifyResult;
  }

  /** A self-signed attempt is repeated on a retry code up to twice; otherwise its class and the lookup decide. */
  lemma SignedByText(n: nat, hash: string, engine: string, h: Option<string>, result: Option<TxResult>, lookup: Option<TxResult>)
    ensures var stage := SentStage(n, hash, Answer(engine, h, result), lookup);
            if IsRetry(engine) && n < 2 then stage == Attempt(n + 1)
            else stage.Verdict? && SignedOutcome(hash, engine, result, lookup, stage.patch, stage.toRecord)
  {
    hide ClassifyResult, IsSuccess, IsRetry, IsReview, JudgedBy, ValidatedOrFailed, FinalCode;
    ByText(engine);
    if lookup.Some? && lookup.value.validated { JudgedByText(lookup.value, hash, engine); }
  }

  /** The classes in words, as far as an attempt asks for them. */
  lemma ByText(code: string)
    ensures ClassifyResult(code) == Success <==> IsSuccess(code)
    ensures ClassifyResult(code) == Retry <==> IsRetry(code)
    ensures ClassifyResult(code) == Review <==> IsReview(code)
    ensures SequenceError(code) ==> IsRetry(code)
  {
    ClassesByText(code);
    if SequenceError(code) { SequenceErrorIsRetry(code); }
  }

  lemma SequenceErrorIsRetry(code: string)
    requires SequenceError(code)
    ensures IsRetry(code)
  {
    ClassesByText(code);
    SequenceErrorsRetry(code);
  }

  lemma BlobByText(row: Row, engine: string, hash: Option<string>, result: Option<TxResult>, lookup: Option<TxResult>)
    ensures var stage := BlobStage(row, Answer(engine, hash, result), lookup);
            stage.Verdict? && BlobOutcome(row, hash, engine, result, lookup, stage.patch, stage.toRecord)
  {
    hide ClassifyResult, IsSuccess, IsRetry, IsReview, JudgedBy, ValidatedOrFailed, FinalCode;
    ByText(engine);
    if Truthy(hash) && lookup.Some? && lookup.value.validated { JudgedByText(lookup.value, hash.value, engine); }
  }

  /** Without an answer a self-signed attempt is repeated if the error allows it, up to twice, and a blob never. */
  lemma UnansweredByText(n: nat, hash: string, row: Row, reply: LedgerReply, lookup: Option<TxResult>)
    requires !reply.Answer?
    ensures var stage := SentStage(n, hash, reply, lookup);
            if reply.retryable && n < 2 then stage == Attempt(n + 1)
            else stage.Verdict? && Unanswered(stage.patch, stage.toRecord)
    ensures var stage := BlobStage(row, reply, lookup);
            stage.Verdict? && Unanswered(stage.patch, stage.toRecord)
  {
  }

  // ---------- before anything is sent ----------

  /** The outcome of a row that is turned away unsent. */
  ghost predicate TurnedAway(status: Status, patch: Patch, toRecord: Option<TxRecord>) {
    patch == Patch(Some(status), None, None, None) && toRecord == None
  }

  /**
   * With lending off or in a fee spike a row is blocked, without a connection it fails, and in a dry run it is
   * prepared under its made-up hash, with a result that is not validated; else it goes on.
   */
  lemma GateByCase(cfg: Config, feeSpike: bool, connects: bool, hash: string)
    ensures var stage := GateStage(cfg, feeSpike, connects, hash);
            if cfg.lendingEnabled && !cfg.dryRun && !feeSpike && connects then stage == Marked
            else
              && stage.Verdict?
              && (if cfg.lendingEnabled && cfg.dryRun then
                    stage.patch == Patch(Some(Prepared), Some(Some(hash)), Some(Some(TxResult(false, None, None))), None)
                    && stage.toRecord == Some(TxRecord(hash, "DRY_RUN"))
                  else TurnedAway(if !cfg.lendingEnabled || feeSpike then Blocked else Failed, stage.patch, stage.toRecord))
  {
  }

  /** A LoanSet with the borrower's blob is sent as that; another row is signed if the key is held, blocked if not, and failed if that cannot be told. */
  lemma RouteByCase(row: Row, holdsKey: Option<bool>)
    ensures var stage := RouteStage(row, holdsKey);
            if row.kind == LoanSet && row.meta.counterpartyBlob.Some? && row.meta.counterpartyBlob.value != "" then stage == BlobReady
            else if holdsKey == Some(true) then stage == Attempt(0)
            else stage.Verdict? && TurnedAway(if holdsKey == Some(false) then Blocked else Failed, stage.patch, stage.toRecord)
  {
  }
}
