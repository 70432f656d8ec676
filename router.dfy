/**
 * The local-model router: a confidence phase rates the task, a score below
 * the threshold falls back, otherwise the model attempts the task and then
 * validates its own solution. The three model calls are inputs: each one
 * answers, fails with a connection error the router catches, or raises
 * something it does not catch.
 */
module Router {
  import opened Wrappers
  import opened Numerals

  const ConfidenceThreshold := 7

  /** What `int(parsed.get("confidence", 1))` sees. */
  datatype ConfidenceField = Absent | Whole(n: int) | NotANumber

  /** The parsed reply of the confidence phase. */
  datatype ConfidenceReply = ConfidenceReply(confidence: ConfidenceField, criteria: Option<seq<string>>,
                                             reasoning: Option<string>)

  /** A model call: an answer, a caught connection error, or an uncaught exception. */
  datatype Call<T> = Answered(value: T) | ConnectionError(message: string) | Crashed

  datatype Assessment = Assessment(score: int, criteria: seq<string>, reasoning: string)

  datatype RouteResult = RouteResult(confidenceScore: int, successCriteria: seq<string>, solution: Option<string>,
                                     passedValidation: bool, fallbackNeeded: bool, reasoning: string)

  /** `max(1, min(10, score))`. */
  function Clamp(score: int): (r: int)
    ensures 1 <= r <= 10
    ensures 1 <= score <= 10 ==> r == score
    ensures score < 1 ==> r == 1
    ensures score > 10 ==> r == 10
  {
    if score < 1 then 1 else if score > 10 then 10 else score
  }

  function Prefix300(raw: string): string
  {
    if |raw| <= 300 then raw else raw[..300]
  }

  /**
   * `_evaluate_confidence` after the model answered `raw`: an absent score
   * counts as 1, a score that `int()` rejects raises (`None`).
   */
  function EvaluateConfidence(raw: string, reply: ConfidenceReply): (r: Option<Assessment>)
    ensures r.None? <==> reply.confidence.NotANumber?
    ensures r.Some? ==> 1 <= r.value.score <= 10
    ensures r.Some? && reply.confidence.Absent? ==> r.value.score == 1
    ensures r.Some? && reply.reasoning.None? ==> r.value.reasoning == Prefix300(raw)
  {
    match reply.confidence
    case NotANumber => None
    case Absent => Some(Assessment(Clamp(1), reply.criteria.GetOr([]), reply.reasoning.GetOr(Prefix300(raw))))
    case Whole(n) => Some(Assessment(Clamp(n), reply.criteria.GetOr([]), reply.reasoning.GetOr(Prefix300(raw))))
  }

  const Initial := RouteResult(0, [], None, false, false, "")

  /** `route_task`; `None` when an uncaught exception leaves it. */
  function Route(confidence: Call<Assessment>, attempt: Call<string>, validation: Call<bool>): Option<RouteResult>
  {
    match confidence
    case Crashed => None
    case ConnectionError(e) =>
      Some(Initial.(reasoning := "Confidence evaluation failed: " + e, fallbackNeeded := true))
    case Answered(a) =>
      var gated := Initial.(confidenceScore := a.score, successCriteria := a.criteria, reasoning := a.reasoning);
      if a.score < ConfidenceThreshold then
        Some(gated.(fallbackNeeded := true,
                    reasoning := a.reasoning + " | Score " + IntToString(a.score) + " < threshold 7; falling back."))
      else match attempt
        case Crashed => None
        case ConnectionError(e) =>
          Some(gated.(reasoning := a.reasoning + " | Attempt failed: " + e, fallbackNeeded := true))
        case Answered(solution) =>
          var attempted := gated.(solution := Some(solution));
          match validation
          case Crashed => None
          case ConnectionError(e) =>
            Some(attempted.(reasoning := a.reasoning + " | Validation failed: " + e, passedValidation := false))
          case Answered(passed) =>
            Some(attempted.(passedValidation := passed,
                            reasoning := if passed then a.reasoning else a.reasoning + " | Solution did not pass self-validation."))
  }

  /** `route_task`: fills the result phase by phase, returning early at each gate. */
  method RouteTask(confidence: Call<Assessment>, attempt: Call<string>, validation: Call<bool>) returns (r: Option<RouteResult>)
    ensures r == Route(confidence, attempt, validation)
  {
    var result := Initial;
    if confidence.Crashed? {
      return None;
    }
    if confidence.ConnectionError? {
      result := result.(reasoning := "Confidence evaluation failed: " + confidence.message);
      result := result.(fallbackNeeded := true);
      return Some(result);
    }
    var a := confidence.value;
    result := result.(confidenceScore := a.score);
    result := result.(successCriteria := a.criteria);
    result := result.(reasoning := a.reasoning);
    if a.score < ConfidenceThreshold {
      result := result.(fallbackNeeded := true);
      result := result.(reasoning := result.reasoning + " | Score " + IntToString(a.score) + " < threshold 7; falling back.");
      return Some(result);
    }
    if attempt.Crashed? {
      return None;
    }
    if attempt.ConnectionError? {
      result := result.(reasoning := result.reasoning + " | Attempt failed: " + attempt.message);
      result := result.(fallbackNeeded := true);
      return Some(result);
    }
    result := result.(solution := Some(attempt.value));
    if validation.Crashed? {
      return None;
    }
    if validation.ConnectionError? {
      result := result.(reasoning := result.reasoning + " | Validation failed: " + validation.message);
      result := result.(passedValidation := false);
      return Some(result);
    }
    result := result.(passedValidation := validation.value);
    if !validation.value {
      result := result.(reasoning := result.reasoning + " | Solution did not pass self-validation.");
    }
    return Some(result);
  }

  /**
   * The gate: a score below 7 falls back with no attempt; a validation that
   * passes needs an answered confidence of at least 7, a solution and a
   * `pass` of true, and then no fallback is needed.
   */
  lemma RouteGate(confidence: Call<Assessment>, attempt: Call<string>, validation: Call<bool>)
    requires Route(confidence, attempt, validation).Some?
    ensures var r := Route(confidence, attempt, validation).value;
            (confidence.Answered? && confidence.value.score < ConfidenceThreshold ==>
               r.fallbackNeeded && r.solution.None? && !r.passedValidation) &&
            (r.passedValidation <==>
               confidence.Answered? && confidence.value.score >= ConfidenceThreshold && attempt.Answered? &&
               validation == Answered(true)) &&
            (r.passedValidation ==> r.solution.Some? && !r.fallbackNeeded)
  {
  }

  /**
   * A fallback is needed exactly when the confidence call fails, the score is
   * under the threshold, or the attempt fails; a failed validation is not a
   * fallback.
   */
  lemma FallbackCauses(confidence: Call<Assessment>, attempt: Call<string>, validation: Call<bool>)
    requires Route(confidence, attempt, validation).Some?
    ensures Route(confidence, attempt, validation).value.fallbackNeeded <==>
              confidence.ConnectionError? ||
              (confidence.Answered? && confidence.value.score < ConfidenceThreshold) ||
              (confidence.Answered? && attempt.ConnectionError?)
    ensures validation.ConnectionError? && attempt.Answered? && confidence.Answered? &&
            confidence.value.score >= ConfidenceThreshold ==>
              !Route(confidence, attempt, validation).value.passedValidation &&
              !Route(confidence, attempt, validation).value.fallbackNeeded
  {
  }

  /** With an evaluated confidence, the recorded score lies between 1 and 10. */
  lemma RecordedScoreInRange(raw: string, reply: ConfidenceReply, attempt: Call<string>, validation: Call<bool>)
    requires EvaluateConfidence(raw, reply).Some?
    requires Route(Answered(EvaluateConfidence(raw, reply).value), attempt, validation).Some?
    ensures 1 <= Route(Answered(EvaluateConfidence(raw, reply).value), attempt, validation).value.confidenceScore <= 10
  {
  }
}
