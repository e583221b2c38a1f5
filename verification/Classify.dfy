/** How the executor reads an engine result code. */
module Classify {
  import opened Options

  datatype Class = Success | Retry | Review | Fail

  const SUCCESS_CODES := ["tesSUCCESS", "terQUEUED"]
  const RETRY_CODES := ["terPRE_SEQ", "tefPAST_SEQ", "telCAN_NOT_QUEUE", "terINSUF_FEE_B", "telINSUF_FEE_P"]
  const REVIEW_CODES := ["tecUNFUNDED", "tecNO_PERMISSION", "tecNO_AUTH", "tefNOT_ENABLED", "tecINVARIANT_FAILED",
                         "tecUNFUNDED_PAYMENT", "tecPATH_DRY", "tecNO_LINE"]
  const FAIL_CODES := ["temMALFORMED", "temBAD_AMOUNT", "temBAD_FEE", "temINVALID", "temDISABLED",
                       "temBAD_SEQUENCE", "temREDUNDANT", "temBAD_EXPIRATION"]

  function ClassifyResult(code: string): Class {
    if code == "" || code == "unknown" then Fail
    else if code in SUCCESS_CODES then Success
    else if code in RETRY_CODES then Retry
    else if code in REVIEW_CODES then Review
    else if code in FAIL_CODES then Fail
    else if "tes" <= code then Success
    else if "ter" <= code then Retry
    else if "tel" <= code then Retry
    else if "tec" <= code then Review
    else Fail
  }

  predicate SequenceError(code: string) { code == "terPRE_SEQ" || code == "tefPAST_SEQ" }

  /** Codes that ask for a new sequence are always retried, so no code is both final and stale. */
  lemma SequenceErrorsRetry(code: string)
    requires SequenceError(code)
    ensures ClassifyResult(code) == Retry
  {
    assert RETRY_CODES[0] == "terPRE_SEQ" && RETRY_CODES[1] == "tefPAST_SEQ";
    assert code[2] != 's';
    assert "terPRE_SEQ"[3] != "terQUEUED"[3];
  }

  // ---------- the classes by the text of the code ----------

  predicate IsSuccess(code: string) { code == "terQUEUED" || "tes" <= code }

  predicate IsRetry(code: string) { code == "tefPAST_SEQ" || "tel" <= code || ("ter" <= code && code != "terQUEUED") }

  predicate IsReview(code: string) { code == "tefNOT_ENABLED" || "tec" <= code }

  lemma StartsWith(code: string)
    ensures "tes" <= code <==> |code| >= 3 && code[0] == 't' && code[1] == 'e' && code[2] == 's'
    ensures "ter" <= code <==> |code| >= 3 && code[0] == 't' && code[1] == 'e' && code[2] == 'r'
    ensures "tel" <= code <==> |code| >= 3 && code[0] == 't' && code[1] == 'e' && code[2] == 'l'
    ensures "tec" <= code <==> |code| >= 3 && code[0] == 't' && code[1] == 'e' && code[2] == 'c'
  {
  }

  lemma SuccessTable(code: string)
    ensures code in SUCCESS_CODES ==> IsSuccess(code)
    ensures code == "terQUEUED" ==> code in SUCCESS_CODES
    ensures code == "" || code == "unknown" ==> !IsSuccess(code) && !IsRetry(code) && !IsReview(code)
  {
    StartsWith(code);
    assert SUCCESS_CODES[1] == "terQUEUED";
    assert "tefPAST_SEQ"[0] != "unknown"[0] && "tefNOT_ENABLED"[0] != "unknown"[0] && "terQUEUED"[0] != "unknown"[0];
  }

  lemma RetryTable(code: string)
    ensures code in RETRY_CODES ==> IsRetry(code)
    ensures code == "tefPAST_SEQ" ==> code in RETRY_CODES
  {
    StartsWith(code);
    assert RETRY_CODES[1] == "tefPAST_SEQ";
    assert "terQUEUED"[3] != "terPRE_SEQ"[3] && "terQUEUED"[3] != "terINSUF_FEE_B"[3];
  }

  lemma ReviewTable(code: string)
    ensures code in REVIEW_CODES ==> IsReview(code)
    ensures code == "tefNOT_ENABLED" ==> code in REVIEW_CODES
  {
    StartsWith(code);
    assert REVIEW_CODES[3] == "tefNOT_ENABLED";
  }

  lemma FailTable(code: string)
    requires code in FAIL_CODES
    ensures !IsSuccess(code) && !IsRetry(code) && !IsReview(code)
  {
    StartsWith(code);
    assert code[2] == 'm';
    assert "terQUEUED"[2] == 'r' && "tefPAST_SEQ"[2] == 'f' && "tefNOT_ENABLED"[2] == 'f';
  }

  lemma ClassesDisjoint(code: string)
    ensures !(IsSuccess(code) && IsRetry(code)) && !(IsSuccess(code) && IsReview(code)) && !(IsRetry(code) && IsReview(code))
  {
    StartsWith(code);
    assert "terQUEUED"[2] == 'r' && "tefPAST_SEQ"[2] == 'f' && "tefNOT_ENABLED"[2] == 'f';
    assert "tefPAST_SEQ"[3] != "tefNOT_ENABLED"[3];
  }

  /** Each class by how the code begins: three codes of the table differ from others that begin like them. */
  lemma ClassesByText(code: string)
    ensures ClassifyResult(code) == Success <==> code == "terQUEUED" || "tes" <= code
    ensures ClassifyResult(code) == Retry <==> code == "tefPAST_SEQ" || "tel" <= code || ("ter" <= code && code != "terQUEUED")
    ensures ClassifyResult(code) == Review <==> code == "tefNOT_ENABLED" || "tec" <= code
  {
    SuccessTable(code);
    RetryTable(code);
    ReviewTable(code);
    if code in FAIL_CODES { FailTable(code); }
    ClassesDisjoint(code);
    hide SUCCESS_CODES, RETRY_CODES, REVIEW_CODES, FAIL_CODES;
  }
}
