/** Notification conditions (internal/conditions/conditions.go). */
module Conditions {
  import opened Common

  // The `value` of a condition is raw JSON: absent, null, a string, an integer
  // that fits a Go int, or anything else.
  datatype Json = Missing | Null | Text(text: string) | Number(number: int) | Other

  datatype Kind =
    | BodyContains
    | StatusCodeEquals
    | StatusCodeChanged
    | ResponseLengthChanged
    | UnknownKind

  datatype Condition = Condition(kind: Kind, value: Json, toleranceBytes: Option<int>)

  // `body` is the response body, one char per byte.
  datatype PingResult = PingResult(
    finishedAt: Time,
    statusCode: Option<int>,
    responseLength: Option<int>,
    truncated: bool,
    body: string)

  datatype Evaluation = Evaluation(
    matched: bool,
    baselineStatus: Option<int>,
    baselineLength: Option<int>)

  // Unmarshalling JSON null into a Go string or int leaves the zero value and reports no error.
  function StringValue(raw: Json): Option<string> {
    match raw
    case Text(text) => Some(text)
    case Null => Some("")
    case _ => None
  }

  function IntValue(raw: Json): Option<int> {
    match raw
    case Number(number) => Some(number)
    case Null => Some(0)
    case _ => None
  }

  predicate Validates(condition: Condition) {
    match condition.kind
    case BodyContains =>
      var value := StringValue(condition.value);
      value.Some? && value.value != ""
    case StatusCodeEquals =>
      var value := IntValue(condition.value);
      value.Some? && 100 <= value.value <= 599
    case StatusCodeChanged => true
    case ResponseLengthChanged =>
      condition.toleranceBytes.Some? ==> condition.toleranceBytes.value >= 0
    case UnknownKind => false
  }

  /** The baseline a result leaves behind: its status when it has one, its
      length when it has one that was not cut short. */
  function NextStatus(baseline: Option<int>, result: PingResult): Option<int> {
    if result.statusCode.Some? then result.statusCode else baseline
  }

  function NextLength(baseline: Option<int>, result: PingResult): Option<int> {
    if result.responseLength.Some? && !result.truncated then result.responseLength else baseline
  }

  function Distance(a: int, b: int): int {
    if a < b then b - a else a - b
  }

  /** What a condition means for one result; None when its value cannot be read. */
  function Matches(condition: Condition, baselineStatus: Option<int>, baselineLength: Option<int>,
                   result: PingResult): Option<bool>
  {
    match condition.kind
    case BodyContains =>
      var target := StringValue(condition.value);
      if target.None? then None
      else Some(target.value != "" && Contains(result.body, target.value))
    case StatusCodeEquals =>
      var target := IntValue(condition.value);
      if target.None? then None
      else Some(result.statusCode == Some(target.value))
    case StatusCodeChanged =>
      Some(baselineStatus.Some? && result.statusCode.Some? && baselineStatus != result.statusCode)
    case ResponseLengthChanged =>
      var tolerance := if condition.toleranceBytes.Some? then condition.toleranceBytes.value else 0;
      Some(baselineLength.Some? && result.responseLength.Some? && !result.truncated
           && Distance(baselineLength.value, result.responseLength.value) > tolerance)
    case UnknownKind => None
  }

  method Evaluate(condition: Condition, baselineStatus: Option<int>, baselineLength: Option<int>,
                  result: PingResult)
    returns (evaluation: Evaluation, ok: bool)
    ensures ok == Matches(condition, baselineStatus, baselineLength, result).Some?
    ensures ok ==> evaluation.matched == Matches(condition, baselineStatus, baselineLength, result).value
    ensures !ok ==> !evaluation.matched
    ensures evaluation.baselineStatus == NextStatus(baselineStatus, result)
    ensures evaluation.baselineLength == NextLength(baselineLength, result)
  {
    evaluation, ok := Evaluation(false, baselineStatus, baselineLength), true;
    if result.statusCode.Some? {
      evaluation := evaluation.(baselineStatus := result.statusCode);
    }
    if result.responseLength.Some? && !result.truncated {
      evaluation := evaluation.(baselineLength := result.responseLength);
    }
    match condition.kind {
      case BodyContains =>
        var target := StringValue(condition.value);
        if target.None? { ok := false; return; }
        evaluation := evaluation.(matched := target.value != "" && Contains(result.body, target.value));
      case StatusCodeEquals =>
        var target := IntValue(condition.value);
        if target.None? { ok := false; return; }
        evaluation := evaluation.(matched := result.statusCode.Some? && result.statusCode.value == target.value);
      case StatusCodeChanged =>
        if baselineStatus.Some? && result.statusCode.Some? {
          evaluation := evaluation.(matched := baselineStatus.value != result.statusCode.value);
        }
      case ResponseLengthChanged =>
        var tolerance := 0;
        if condition.toleranceBytes.Some? {
          tolerance := condition.toleranceBytes.value;
        }
        if baselineLength.Some? && result.responseLength.Some? && !result.truncated {
          var diff := baselineLength.value - result.responseLength.value;
          if diff < 0 {
            diff := -diff;
          }
          evaluation := evaluation.(matched := diff > tolerance);
        }
      case UnknownKind =>
        ok := false;
    }
  }

  /** body_contains matches exactly the bodies with the text somewhere in them. */
  lemma BodyMatches(condition: Condition, text: string, baselineStatus: Option<int>, baselineLength: Option<int>,
                    result: PingResult)
    requires condition.kind == BodyContains && condition.value == Text(text)
    ensures Matches(condition, baselineStatus, baselineLength, result) == Some(true) <==>
            text != "" && exists pre, post :: result.body == pre + text + post
  {
    ContainsMeans(result.body, text);
  }

  /** status_code_equals matches exactly the results with that status. */
  lemma StatusMatches(condition: Condition, code: int, baselineStatus: Option<int>, baselineLength: Option<int>,
                      result: PingResult)
    requires condition.kind == StatusCodeEquals && condition.value == Number(code)
    ensures Matches(condition, baselineStatus, baselineLength, result) == Some(true) <==> result.statusCode == Some(code)
  {
  }

  /** Only an unknown kind, or a value of another JSON type, cannot be read; null reads as the zero value. */
  lemma ReadableMeans(condition: Condition, baselineStatus: Option<int>, baselineLength: Option<int>, result: PingResult)
    ensures var verdict := Matches(condition, baselineStatus, baselineLength, result);
            && (verdict == None <==>
                || condition.kind == UnknownKind
                || (condition.kind == BodyContains && !condition.value.Text? && condition.value != Null)
                || (condition.kind == StatusCodeEquals && !condition.value.Number? && condition.value != Null))
            && (condition.value == Null && condition.kind == BodyContains ==> verdict == Some(false))
            && (condition.value == Null && condition.kind == StatusCodeEquals ==> verdict == Some(result.statusCode == Some(0)))
  {
  }

  /** The condition fires on some result with an HTTP status from 100 to 599. */
  ghost predicate CanFire(condition: Condition) {
    exists status: Option<int>, length: Option<int>, result: PingResult ::
      && result.statusCode.Some? && 100 <= result.statusCode.value <= 599
      && Matches(condition, status, length, result) == Some(true)
  }

  /** Validation accepts exactly the conditions that can be read, can fire on an HTTP
      response, and do not fire on a length that has not changed. */
  lemma ValidMeansUseful(condition: Condition)
    ensures Validates(condition) <==>
            && CanFire(condition)
            && (condition.kind == ResponseLengthChanged ==>
                forall status: Option<int>, length: int, result: PingResult :: result.responseLength == Some(length) ==>
                  Matches(condition, status, Some(length), result) == Some(false))
  {
    if Validates(condition) {
      ValidFires(condition);
    }
    var length := 0;
    var same := PingResult(0, Some(200), Some(length), false, "");
    assert condition.kind == ResponseLengthChanged && !Validates(condition) ==>
        Matches(condition, None, Some(length), same) == Some(true);
  }

  lemma ValidFires(condition: Condition)
    requires Validates(condition)
    ensures CanFire(condition)
  {
    match condition.kind {
      case BodyContains =>
        var text := StringValue(condition.value).value;
        var result := PingResult(0, Some(200), None, false, text);
        assert OccursAt(text, text, 0);
        assert Matches(condition, None, None, result) == Some(true);
      case StatusCodeEquals =>
        var result := PingResult(0, IntValue(condition.value), None, false, "");
        assert Matches(condition, None, None, result) == Some(true);
      case StatusCodeChanged =>
        assert Matches(condition, Some(500), None, PingResult(0, Some(200), None, false, "")) == Some(true);
      case ResponseLengthChanged =>
        var tolerance := if condition.toleranceBytes.Some? then condition.toleranceBytes.value else 0;
        assert Matches(condition, None, Some(0), PingResult(0, Some(200), Some(tolerance + 1), false, "")) == Some(true);
    }
  }

  /** A condition that passed validation is always readable at evaluation time. */
  lemma ValidatedConditionsEvaluate(condition: Condition, baselineStatus: Option<int>,
                                    baselineLength: Option<int>, result: PingResult)
    requires Validates(condition)
    ensures Matches(condition, baselineStatus, baselineLength, result).Some?
  {
  }
}
