/**
 The pure parts of the deep-path analyser, the verdict documents it exchanges
 with Gemini and with the Redis cache, and its classification of errors.
 */
module Analyst {
  import opened Common

  /** The JSON object that Gemini answers with and that the cache stores as it is. */
  datatype Document = Document(
    isAttack: bool, attackType: string, confidence: real, explanation: string,
    affectedParameter: Option<string>, remediationHint: Option<string>, fromCache: Option<bool>)

  datatype Verdict = Verdict(
    isAttack: bool, attackType: string, confidence: real, explanation: string,
    affectedParameter: Option<string>, remediationHint: Option<string>, fromCache: bool)

  /** `Verdict(**data)` */
  function Fresh(d: Document): Verdict {
    Verdict(d.isAttack, d.attackType, d.confidence, d.explanation, d.affectedParameter, d.remediationHint,
            d.fromCache == Some(true))
  }

  /**
   `Verdict(**data, from_cache=True)`: a document that itself carries the key
   `from_cache` passes that keyword twice, which raises and counts as a miss.
   */
  function Served(d: Document): Option<Verdict> {
    if d.fromCache.Some? then None else Some(Fresh(d).(fromCache := true))
  }

  function FailOpen(reason: string): Verdict {
    Verdict(false, "none", 0.0, reason, None, None, false)
  }

  datatype Failure = Timeout | Error(message: string)

  const SERVER_ERRORS: seq<string> := ["500", "502", "503", "504"]

  /** Timeouts and messages that mention a server-error code count against the breaker. */
  predicate CountsAgainstBreaker(f: Failure) {
    f.Timeout? || exists i :: 0 <= i < |SERVER_ERRORS| && Contains(f.message, SERVER_ERRORS[i])
  }

  predicate ServerError(message: string) {
    Contains(message, "500") || Contains(message, "502") || Contains(message, "503") || Contains(message, "504")
  }

  lemma CountsIffServerError(f: Failure)
    ensures CountsAgainstBreaker(f) <==> f.Timeout? || ServerError(f.message)
  {
    if f.Error? {
      assert SERVER_ERRORS[0] == "500" && SERVER_ERRORS[1] == "502" && SERVER_ERRORS[2] == "503" && SERVER_ERRORS[3] == "504";
    }
  }

  function Reason(f: Failure): string {
    if f.Timeout? then "AI analysis timed out — request passed (fail-open policy)"
    else "AI analysis error — request passed (fail-open policy)"
  }

  const REFUSED := "Gemini circuit breaker open — request passed (fail-open policy)"

  /** What one call to the model yields: a text that parses or not, or an exception. */
  datatype Reply = Text(parsed: Result<Document, string>) | Raised(failure: Failure)

  const MAX_ATTEMPTS := 3

  predicate Retryable(r: Reply) {
    r.Raised? && r.failure.Error? && Contains(r.failure.message, "429")
  }
}
