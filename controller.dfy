/**
 * The base MVC controller of the web front end: its input state, CSRF token
 * check, input validation and the fixed order in which `run` calls the checks
 * and the action of a concrete controller.
 */
module Mvc {
  import opened Options
  import opened PhpValues

  /** Name of the request field that carries the CSRF token. */
  const CSRF_TOKEN_NAME: string := "_csrf_token"

  /** Action-name segments that are never used to check the CSRF token. */
  const CSRF_SKIPPED_SEGMENTS: set<string> := {"popup", "massupdate"}

  datatype ValidationResult = ValidationOk | ValidationError | ValidationFatalError

  /** A controller response: a data page, a redirect or a fatal redirect. */
  datatype Response =
    | Data(data: map<string, Value>)
    | Redirect(location: string)
    | FatalRedirect(location: string)

  /** What the input validator reports for the raw input under a controller's
      validation rules. */
  datatype ValidatorOutcome = ValidatorOutcome(isErrorFatal: bool, isError: bool, validInput: map<string, Value>)

  /** The validator for one set of validation rules, applied to the raw input. */
  type Validator = map<string, Value> -> ValidatorOutcome

  /** The CSRF token helper: whether a token is valid for an action segment. */
  type TokenCheck = (Value, string) -> bool

  /** Parts of `s` around each occurrence of `sep`, as PHP's `explode`. */
  function Explode(s: string, sep: char): (parts: seq<string>)
    ensures |parts| >= 1
    ensures forall i | 0 <= i < |parts| :: sep !in parts[i]
    ensures Implode(parts, sep) == s
    decreases |s|
  {
    if sep !in s then [s]
    else
      var i := IndexOf(s, sep);
      var rest := Explode(s[i + 1..], sep);
      assert ([s[..i]] + rest)[1..] == rest;
      assert s == s[..i] + [sep] + s[i + 1..];
      [s[..i]] + rest
  }

  /** The parts joined with `sep` between them, as PHP's `implode`. */
  function Implode(parts: seq<string>, sep: char): string
    requires |parts| >= 1
    decreases |parts|
  {
    if |parts| == 1 then parts[0] else parts[0] + [sep] + Implode(parts[1..], sep)
  }

  /** First position of `c` in `s`. */
  function IndexOf(s: string, c: char): (i: nat)
    requires c in s
    ensures i < |s| && s[i] == c && c !in s[..i]
  {
    if s[0] == c then 0 else
      var j := IndexOf(s[1..], c);
      assert s[..j + 1] == [s[0]] + s[1..][..j];
      j + 1
  }

  /** Splitting undoes joining, when no part holds the separator. */
  lemma {:induction false} ExplodeImplode(parts: seq<string>, sep: char)
    requires |parts| >= 1
    requires forall i | 0 <= i < |parts| :: sep !in parts[i]
    ensures Explode(Implode(parts, sep), sep) == parts
    decreases |parts|
  {
    if |parts| == 1 {
    } else {
      var s := Implode(parts, sep);
      var tail := Implode(parts[1..], sep);
      assert sep !in parts[0];
      assert s == parts[0] + [sep] + tail;
      assert s[|parts[0]|] == sep;
      assert s[..|parts[0]|] == parts[0];
      assert IndexOf(s, sep) == |parts[0]|;
      assert s[|parts[0]| + 1..] == tail;
      ExplodeImplode(parts[1..], sep);
      assert Explode(s, sep) == [parts[0]] + parts[1..];
    }
  }

  /** The first segment not in the skip list, if any. */
  function FirstCheckedSegment(segments: seq<string>): (r: Option<string>)
    ensures r.None? <==> forall i | 0 <= i < |segments| :: segments[i] in CSRF_SKIPPED_SEGMENTS
    ensures r.Some? ==> r.value !in CSRF_SKIPPED_SEGMENTS
    ensures r.Some? ==> exists i | 0 <= i < |segments| ::
              segments[i] == r.value && forall j | 0 <= j < i :: segments[j] in CSRF_SKIPPED_SEGMENTS
  {
    if segments == [] then None
    else if segments[0] !in CSRF_SKIPPED_SEGMENTS then
      Some(segments[0])
    else
      var r := FirstCheckedSegment(segments[1..]);
      if r.Some? then
        var k :| 0 <= k < |segments[1..]| && segments[1..][k] == r.value &&
                 forall j | 0 <= j < k :: segments[1..][j] in CSRF_SKIPPED_SEGMENTS;
        assert segments[k + 1] == r.value;
        assert forall j | 0 <= j < k + 1 :: segments[j] in CSRF_SKIPPED_SEGMENTS by {
          forall j | 0 <= j < k + 1 ensures segments[j] in CSRF_SKIPPED_SEGMENTS {
            if j > 0 { assert segments[j] == segments[1..][j - 1]; }
          }
        }
        r
      else
        assert forall i | 1 <= i < |segments| :: segments[i] == segments[1..][i - 1];
        r
  }

  /** Whether the request passes the CSRF check: the raw input is an array holding
      the token, and the token is valid for the first action segment that is not
      skipped. */
  predicate CsrfTokenValid(rawInput: Option<map<string, Value>>, action: string, tokenCheck: TokenCheck)
  {
    rawInput.Some? && CSRF_TOKEN_NAME in rawInput.value &&
    match FirstCheckedSegment(Explode(action, '.'))
    case None => false
    case Some(segment) => tokenCheck(rawInput.value[CSRF_TOKEN_NAME], segment)
  }

  /** The calls `run` makes, in the order it makes them. */
  datatype Step = CheckCsrf | CheckInput | CheckPermissions | DoAction

  function StepRank(s: Step): nat
  {
    match s
    case CheckCsrf => 0
    case CheckInput => 1
    case CheckPermissions => 2
    case DoAction => 3
  }

  /** What a concrete controller's hooks do on one request: the value of
      `checkInput()`, the response it leaves set (None: it sets none), the value of
      `checkPermissions()`, and the response `doAction()` sets. */
  datatype Hooks = Hooks(inputValid: bool, inputResponse: Option<Response>, permission: Value, actionResponse: Option<Response>)

  /** `run` either throws access-denied or returns the controller's response. */
  datatype RunOutcome = AccessDenied | Returned(response: Option<Response>)

  /** Whether the CSRF stage lets the request through. */
  predicate CsrfStagePasses(validateCsrf: bool, csrfValid: bool)
  {
    !validateCsrf || csrfValid
  }

  /** Whether `doAction` is reached. */
  predicate ActionRuns(validateCsrf: bool, csrfValid: bool, hooks: Hooks)
  {
    CsrfStagePasses(validateCsrf, csrfValid) && hooks.inputValid && hooks.permission == Bool(true)
  }

  /** The sequence of calls `run` makes. */
  function RunTrace(validateCsrf: bool, csrfValid: bool, hooks: Hooks): (trace: seq<Step>)
    ensures CheckCsrf in trace <==> validateCsrf
    ensures CheckInput in trace <==> CsrfStagePasses(validateCsrf, csrfValid)
    ensures CheckPermissions in trace <==> CsrfStagePasses(validateCsrf, csrfValid) && hooks.inputValid
    ensures DoAction in trace <==> ActionRuns(validateCsrf, csrfValid, hooks)
    ensures forall i, j | 0 <= i < j < |trace| :: StepRank(trace[i]) < StepRank(trace[j])
  {
    var afterCsrf :=
      if !CsrfStagePasses(validateCsrf, csrfValid) then []
      else if !hooks.inputValid then [CheckInput]
      else if hooks.permission != Bool(true) then [CheckInput, CheckPermissions]
      else [CheckInput, CheckPermissions, DoAction];
    (if validateCsrf then [CheckCsrf] else []) + afterCsrf
  }

  /** The response held after `run`, starting from `start`. */
  function ResponseAfterRun(start: Option<Response>, validateCsrf: bool, csrfValid: bool, hooks: Hooks): Option<Response>
  {
    var afterInput :=
      if CsrfStagePasses(validateCsrf, csrfValid) && hooks.inputResponse.Some? then hooks.inputResponse else start;
    if ActionRuns(validateCsrf, csrfValid, hooks) && hooks.actionResponse.Some? then hooks.actionResponse else afterInput
  }

  /** What `run` ends in: access denied when the CSRF check or the permission check
      fails, otherwise the response held at the end. */
  function RunResult(start: Option<Response>, validateCsrf: bool, csrfValid: bool, hooks: Hooks): (r: RunOutcome)
    ensures r.AccessDenied? <==>
              !CsrfStagePasses(validateCsrf, csrfValid) || (hooks.inputValid && hooks.permission != Bool(true))
  {
    if !CsrfStagePasses(validateCsrf, csrfValid) then AccessDenied
    else if hooks.inputValid && hooks.permission != Bool(true) then AccessDenied
    else Returned(ResponseAfterRun(start, validateCsrf, csrfValid, hooks))
  }

  /** A failed CSRF check ends the request before the input is looked at. */
  lemma CsrfFailureComesFirst(csrfValid: bool, hooks: Hooks, start: Option<Response>)
    requires !csrfValid
    ensures RunTrace(true, csrfValid, hooks) == [CheckCsrf]
    ensures RunResult(start, true, csrfValid, hooks) == AccessDenied
  {
  }

  /** A validation failure skips the permission check and the action and returns
      the response the input check left. */
  lemma InvalidInputSkipsAction(validateCsrf: bool, csrfValid: bool, hooks: Hooks, start: Option<Response>)
    requires CsrfStagePasses(validateCsrf, csrfValid) && !hooks.inputValid
    ensures CheckPermissions !in RunTrace(validateCsrf, csrfValid, hooks)
    ensures RunResult(start, validateCsrf, csrfValid, hooks) ==
              Returned(if hooks.inputResponse.Some? then hooks.inputResponse else start)
  {
  }

  /** With CSRF validation off the token is never checked and the token helper's
      verdict cannot change what `run` does. */
  lemma DisabledCsrfIgnoresToken(csrfValid: bool, csrfValid': bool, hooks: Hooks, start: Option<Response>)
    ensures CheckCsrf !in RunTrace(false, csrfValid, hooks)
    ensures RunTrace(false, csrfValid, hooks) == RunTrace(false, csrfValid', hooks)
    ensures RunResult(start, false, csrfValid, hooks) == RunResult(start, false, csrfValid', hooks)
  {
  }

  class Controller {
    /** The action name the controller runs for. */
    var action: string
    /** The request input before validation; None when the request's content type
        is not one the controller reads. */
    var rawInput: Option<map<string, Value>>
    /** The validated input. */
    var input: map<string, Value>
    var validationResult: Option<ValidationResult>
    var validateCsrfToken: bool
    var response: Option<Response>

    /** A controller for `action` over the raw input the request supplies. */
    constructor (action: string, rawInput: Option<map<string, Value>>)
      ensures this.action == action && this.rawInput == rawInput
      ensures input == map[] && validationResult == None && validateCsrfToken && response == None
    {
      this.action := action;
      this.rawInput := rawInput;
      input := map[];
      validationResult := None;
      validateCsrfToken := true;
      response := None;
    }

    method DisableCsrfValidation()
      modifies this`validateCsrfToken
      ensures !validateCsrfToken
    {
      validateCsrfToken := false;
    }

    method SetResponse(r: Response)
      modifies this`response
      ensures response == Some(r)
    {
      response := Some(r);
    }

    /** Validates the raw input with `validator`; true iff the result is OK. */
    method ValidateInput(validator: Validator) returns (ok: bool)
      modifies this`input, this`validationResult
      ensures rawInput.None? ==> validationResult == Some(ValidationFatalError) && input == old(input)
      ensures rawInput.Some? && validator(rawInput.value).isErrorFatal ==>
                validationResult == Some(ValidationFatalError) && input == old(input)
      ensures rawInput.Some? && !validator(rawInput.value).isErrorFatal ==>
                input == validator(rawInput.value).validInput &&
                validationResult == Some(if validator(rawInput.value).isError then ValidationError else ValidationOk)
      ensures ok <==> validationResult == Some(ValidationOk)
    {
      if rawInput.None? {
        validationResult := Some(ValidationFatalError);
        return false;
      }
      var outcome := validator(rawInput.value);
      if outcome.isErrorFatal {
        validationResult := Some(ValidationFatalError);
      } else {
        input := outcome.validInput;
        validationResult := Some(if outcome.isError then ValidationError else ValidationOk);
      }
      ok := validationResult == Some(ValidationOk);
    }

    /** Whether the validated input has the field, whatever its value (null included). */
    predicate HasInput(name: string): (r: bool)
      reads this
      ensures r <==> name in input
    {
      name in input
    }

    /** An input field, or `default` when it is absent; with a null default an
        absent field reads as null, so both branches of the source agree. */
    function GetInput(name: string, default: Value): (v: Value)
      reads this
      ensures name in input ==> v == input[name]
      ensures name !in input ==> v == default
    {
      if default == Null then
        if name in input then input[name] else Null
      else
        if name in input then input[name] else default
    }

    /** The whole validated input. */
    function GetInputAll(): (all: map<string, Value>)
      reads this
      ensures all.Keys == input.Keys && forall k | k in all :: all[k] == input[k]
    {
      input
    }

    /** `target` with every listed name that is present in the input copied over. */
    method GetInputs(target: map<string, Value>, names: seq<string>) returns (r: map<string, Value>)
      ensures r.Keys == target.Keys + (set n | n in names && n in input)
      ensures forall k | k in r :: r[k] == if k in names && k in input then input[k] else target[k]
    {
      r := target;
      var i := 0;
      while i < |names|
        invariant 0 <= i <= |names|
        invariant r.Keys == target.Keys + (set n | n in names[..i] && n in input)
        invariant forall k | k in r :: r[k] == if k in names[..i] && k in input then input[k] else target[k]
      {
        assert names[..i + 1] == names[..i] + [names[i]];
        if HasInput(names[i]) {
          r := r[names[i] := GetInput(names[i], Null)];
        }
        i := i + 1;
      }
      assert names[..i] == names;
    }

    /** Whether the request's CSRF token is valid for this controller's action. */
    method CheckCsrfToken(tokenCheck: TokenCheck) returns (ok: bool)
      ensures ok == CsrfTokenValid(rawInput, action, tokenCheck)
    {
      if rawInput.None? || CSRF_TOKEN_NAME !in rawInput.value {
        return false;
      }
      var segments := Explode(action, '.');
      var i := 0;
      while i < |segments|
        invariant 0 <= i <= |segments|
        invariant FirstCheckedSegment(segments) == FirstCheckedSegment(segments[i..])
      {
        assert segments[i..][1..] == segments[i + 1..];
        if segments[i] !in CSRF_SKIPPED_SEGMENTS {
          return tokenCheck(rawInput.value[CSRF_TOKEN_NAME], segments[i]);
        }
        i := i + 1;
      }
      return false;
    }

    /** Runs the controller: the CSRF check when enabled, then the input check,
        then the permission check and the action. */
    method Run(tokenCheck: TokenCheck, hooks: Hooks) returns (outcome: RunOutcome, trace: seq<Step>)
      modifies this`response
      ensures trace == RunTrace(validateCsrfToken, CsrfTokenValid(rawInput, action, tokenCheck), hooks)
      ensures outcome == RunResult(old(response), validateCsrfToken, CsrfTokenValid(rawInput, action, tokenCheck), hooks)
      ensures response == ResponseAfterRun(old(response), validateCsrfToken, CsrfTokenValid(rawInput, action, tokenCheck), hooks)
    {
      trace := [];
      if validateCsrfToken {
        trace := trace + [CheckCsrf];
        var csrfOk := CheckCsrfToken(tokenCheck);
        if !csrfOk {
          return AccessDenied, trace;
        }
      }
      trace := trace + [CheckInput];
      if hooks.inputResponse.Some? {
        response := hooks.inputResponse;
      }
      if hooks.inputValid {
        trace := trace + [CheckPermissions];
        if hooks.permission != Bool(true) {
          return AccessDenied, trace;
        }
        trace := trace + [DoAction];
        if hooks.actionResponse.Some? {
          response := hooks.actionResponse;
        }
      }
      outcome := Returned(response);
    }
  }
}
