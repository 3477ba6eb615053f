/**
 * The service-update controller: its extra validation of the propagation and
 * weight fields, and the service payload it builds from the validated input.
 */
module ServiceUpdate {
  import opened Options
  import opened PhpValues
  import opened Mvc
  import opened Numbers

  /** Status calculation algorithm "set status to OK": services using it carry no
      problem tags. */
  const ZBX_SERVICE_STATUS_CALC_SET_OK: int := 0

  /** Status propagation rules. */
  const ZBX_SERVICE_STATUS_PROPAGATION_AS_IS: int := 0
  const ZBX_SERVICE_STATUS_PROPAGATION_INCREASE: int := 1
  const ZBX_SERVICE_STATUS_PROPAGATION_DECREASE: int := 2
  const ZBX_SERVICE_STATUS_PROPAGATION_IGNORE: int := 3
  const ZBX_SERVICE_STATUS_PROPAGATION_FIXED: int := 4

  /** Number of trigger severities; an increase or decrease moves by 1 to 5 steps. */
  const TRIGGER_SEVERITY_COUNT: int := 6

  /** Keys of the service status names: OK (-1) and the six severities. */
  const STATUS_NAME_KEYS: set<int> := {-1, 0, 1, 2, 3, 4, 5}

  const SERVICE_SHOW_SLA_OFF: int := 0
  const SERVICE_SHOW_SLA_ON: int := 1

  /** Database defaults of the services table. */
  const DEFAULT_PROPAGATION_RULE: int := 0
  const DEFAULT_PROPAGATION_VALUE: int := 0
  const DEFAULT_WEIGHT: int := 0

  const MAX_WEIGHT: int := 1000000

  /** Input fields copied into the payload whenever present. */
  const COPIED_FIELDS: seq<string> := ["serviceid", "name", "algorithm", "sortorder", "goodsla"]

  /** An integer field within `lo..hi` that also passes the 32-bit integer rule. */
  predicate Int32Within(v: Value, lo: int, hi: int)
  {
    AsInt(v).Some? && INT32_MIN <= AsInt(v).value <= INT32_MAX && lo <= AsInt(v).value <= hi
  }

  predicate AdvancedConfiguration(input: map<string, Value>)
  {
    "advanced_configuration" in input
  }

  /** The second validation stage: the propagation rule is required, and a
      non-empty weight must be an integer in 0..1000000. */
  predicate AdvancedFieldsValid(input: map<string, Value>)
  {
    "propagation_rule" in input &&
    (Get(input, "weight", Str("")) != Str("") ==> Int32Within(input["weight"], 0, MAX_WEIGHT))
  }

  /** The value demanded by the propagation rule: a severity step for an increase
      or decrease, a status name for a fixed status, nothing otherwise. */
  predicate PropagationValueOk(input: map<string, Value>)
  {
    var rule := Get(input, "propagation_rule", Null);
    if LooseEqualsInt(rule, ZBX_SERVICE_STATUS_PROPAGATION_INCREASE)
       || LooseEqualsInt(rule, ZBX_SERVICE_STATUS_PROPAGATION_DECREASE) then
      "propagation_value_number" in input && AsInt(input["propagation_value_number"]).Some?
      && 1 <= AsInt(input["propagation_value_number"]).value < TRIGGER_SEVERITY_COUNT
    else if LooseEqualsInt(rule, ZBX_SERVICE_STATUS_PROPAGATION_FIXED) then
      "propagation_value_status" in input && LooseIn(input["propagation_value_status"], STATUS_NAME_KEYS)
    else true
  }

  /** Whether `checkInput` accepts a request whose first validation ended in
      `validation` with validated input `input`. */
  predicate InputAccepted(validation: Option<ValidationResult>, input: map<string, Value>)
  {
    validation == Some(ValidationOk) &&
    (AdvancedConfiguration(input) ==> AdvancedFieldsValid(input) && PropagationValueOk(input))
  }

  /** The response of a rejected request: the collected messages as errors. */
  function ErrorResponse(messages: string): Response
  {
    Data(map["main_block" := Rec(map["errors" := Str(messages)])])
  }

  /** With an increase or decrease rule, advanced input is accepted exactly when the
      step number is present and is 1 to 5. */
  lemma IncreaseDecreaseNeedStep(input: map<string, Value>)
    requires AdvancedConfiguration(input) && AdvancedFieldsValid(input)
    requires LooseEqualsInt(input["propagation_rule"], ZBX_SERVICE_STATUS_PROPAGATION_INCREASE)
          || LooseEqualsInt(input["propagation_rule"], ZBX_SERVICE_STATUS_PROPAGATION_DECREASE)
    ensures InputAccepted(Some(ValidationOk), input) <==>
              "propagation_value_number" in input && AsInt(input["propagation_value_number"]).Some?
              && 1 <= AsInt(input["propagation_value_number"]).value < TRIGGER_SEVERITY_COUNT
  {
  }

  /** With the fixed rule, advanced input is accepted exactly when the status is
      present and names a status; the other rules demand no value. */
  lemma FixedNeedsStatus(input: map<string, Value>)
    requires AdvancedConfiguration(input) && AdvancedFieldsValid(input)
    ensures LooseEqualsInt(input["propagation_rule"], ZBX_SERVICE_STATUS_PROPAGATION_FIXED) ==>
              (InputAccepted(Some(ValidationOk), input) <==>
                 "propagation_value_status" in input && LooseIn(input["propagation_value_status"], STATUS_NAME_KEYS))
    ensures LooseEqualsInt(input["propagation_rule"], ZBX_SERVICE_STATUS_PROPAGATION_AS_IS)
            || LooseEqualsInt(input["propagation_rule"], ZBX_SERVICE_STATUS_PROPAGATION_IGNORE) ==>
              InputAccepted(Some(ValidationOk), input)
  {
  }

  /** Without advanced configuration only the first validation matters. */
  lemma PlainInputNeedsOnlyValidation(validation: Option<ValidationResult>, input: map<string, Value>)
    requires !AdvancedConfiguration(input)
    ensures InputAccepted(validation, input) <==> validation == Some(ValidationOk)
  {
  }

  /** The input check of the service-update form; `validator` applies the form's
      field rules and `messages` is the text of the messages collected so far. */
  method CheckInput(c: Controller, validator: Validator, messages: string) returns (ok: bool)
    modifies c`input, c`validationResult, c`response
    ensures c.rawInput.Some? && !validator(c.rawInput.value).isErrorFatal ==>
              c.input == validator(c.rawInput.value).validInput
    ensures !(c.rawInput.Some? && !validator(c.rawInput.value).isErrorFatal) ==> c.input == old(c.input)
    ensures c.rawInput.None? || validator(c.rawInput.value).isErrorFatal ==>
              c.validationResult == Some(ValidationFatalError)
    ensures c.rawInput.Some? && !validator(c.rawInput.value).isErrorFatal ==>
              c.validationResult ==
                Some(if validator(c.rawInput.value).isError then ValidationError else ValidationOk)
    ensures ok <==> InputAccepted(c.validationResult, c.input)
    ensures !ok ==> c.response == Some(ErrorResponse(messages))
    ensures ok ==> c.response == old(c.response)
  {
    ok := c.ValidateInput(validator);
    if ok && c.HasInput("advanced_configuration") {
      var checkWeight := c.GetInput("weight", Str("")) != Str("");
      // the second validator sees only the fields it has rules for
      var fields := if checkWeight then {"propagation_rule", "weight"} else {"propagation_rule"};
      var all := c.GetInputAll();
      var checked := map k | k in all && k in fields :: all[k];
      ok := "propagation_rule" in checked && (checkWeight ==> "weight" in checked && Int32Within(checked["weight"], 0, MAX_WEIGHT));
    }
    if ok && c.HasInput("advanced_configuration") {
      var rule := c.GetInput("propagation_rule", Null);
      var propagationValueOk: bool;
      if LooseEqualsInt(rule, ZBX_SERVICE_STATUS_PROPAGATION_INCREASE)
         || LooseEqualsInt(rule, ZBX_SERVICE_STATUS_PROPAGATION_DECREASE) {
        propagationValueOk := c.HasInput("propagation_value_number")
          && AsInt(c.GetInput("propagation_value_number", Null)).Some?
          && 1 <= AsInt(c.GetInput("propagation_value_number", Null)).value
          && AsInt(c.GetInput("propagation_value_number", Null)).value < TRIGGER_SEVERITY_COUNT;
      } else if LooseEqualsInt(rule, ZBX_SERVICE_STATUS_PROPAGATION_FIXED) {
        propagationValueOk := c.HasInput("propagation_value_status")
          && LooseIn(c.GetInput("propagation_value_status", Null), STATUS_NAME_KEYS);
      } else {
        propagationValueOk := true;
      }
      if !propagationValueOk {
        ok := false;
      }
    }
    if !ok {
      c.SetResponse(ErrorResponse(messages));
    }
  }

  /** A tag whose name and value are both the empty string. */
  predicate BlankTag(tag: Value)
  {
    Field(tag, "tag") == Str("") && Field(tag, "value") == Str("")
  }

  /** The tags with the blank ones dropped. */
  function NonBlankTags(tags: seq<Value>): seq<Value>
    decreases |tags|
  {
    if tags == [] then []
    else
      var init := NonBlankTags(tags[..|tags| - 1]);
      if BlankTag(tags[|tags| - 1]) then init else init + [tags[|tags| - 1]]
  }

  /** Dropping blank tags works piecewise: it keeps the order of what it keeps,
      keeps every non-blank tag and drops every blank one. */
  lemma {:induction false} NonBlankTagsAppend(a: seq<Value>, b: seq<Value>)
    ensures NonBlankTags(a + b) == NonBlankTags(a) + NonBlankTags(b)
    decreases |b|
  {
    if b == [] {
      assert a + b == a;
    } else {
      var b' := b[..|b| - 1];
      assert (a + b)[..|a + b| - 1] == a + b';
      assert (a + b)[|a + b| - 1] == b[|b| - 1];
      NonBlankTagsAppend(a, b');
    }
  }

  lemma NonBlankTagsSingle(t: Value)
    ensures NonBlankTags([t]) == if BlankTag(t) then [] else [t]
  {
    assert [t][..0] == [];
  }

  /** Every kept tag is non-blank, and every non-blank tag is kept as often as it
      occurs. */
  lemma {:induction false} NonBlankTagsContents(tags: seq<Value>)
    ensures forall i | 0 <= i < |NonBlankTags(tags)| :: !BlankTag(NonBlankTags(tags)[i])
    ensures forall t | !BlankTag(t) :: multiset(NonBlankTags(tags))[t] == multiset(tags)[t]
    ensures forall t | BlankTag(t) :: multiset(NonBlankTags(tags))[t] == 0
    decreases |tags|
  {
    if tags != [] {
      var init := tags[..|tags| - 1];
      NonBlankTagsContents(init);
      assert tags == init + [tags[|tags| - 1]];
    }
  }

  /** Filtering twice is filtering once. */
  lemma {:induction false} NonBlankTagsIdempotent(tags: seq<Value>)
    ensures NonBlankTags(NonBlankTags(tags)) == NonBlankTags(tags)
    decreases |tags|
  {
    if tags != [] {
      var init := tags[..|tags| - 1];
      var last := tags[|tags| - 1];
      NonBlankTagsIdempotent(init);
      if !BlankTag(last) {
        NonBlankTagsAppend(NonBlankTags(init), [last]);
        NonBlankTagsSingle(last);
      }
    }
  }

  /** The tags of a tag list value with the blank ones dropped. */
  method FilterTags(tags: seq<Value>) returns (kept: seq<Value>)
    ensures kept == NonBlankTags(tags)
  {
    kept := [];
    var i := 0;
    while i < |tags|
      invariant 0 <= i <= |tags|
      invariant kept == NonBlankTags(tags[..i])
    {
      assert tags[..i + 1][..i] == tags[..i];
      if !BlankTag(tags[i]) {
        kept := kept + [tags[i]];
      }
      i := i + 1;
    }
    assert tags[..i] == tags;
  }

  /** `refs` names the services of `ids` one-to-one, in order. */
  predicate RefsTo(refs: Value, ids: seq<Value>)
  {
    refs.Arr? && |refs.items| == |ids| &&
    forall i | 0 <= i < |ids| :: refs.items[i] == Rec(map["serviceid" := ids[i]])
  }

  /** `{serviceid}` records for a list of service ids. */
  method ServiceRefs(ids: seq<Value>) returns (refs: seq<Value>)
    ensures RefsTo(Arr(refs), ids)
  {
    refs := [];
    var i := 0;
    while i < |ids|
      invariant 0 <= i <= |ids|
      invariant RefsTo(Arr(refs), ids[..i])
    {
      refs := refs + [Rec(map["serviceid" := ids[i]])];
      i := i + 1;
    }
    assert ids[..i] == ids;
  }

  /** The propagation value an advanced form sends: the step for an increase or
      decrease, the status for a fixed status, 0 otherwise. */
  function AdvancedPropagationValue(input: map<string, Value>): Value
  {
    var rule := Get(input, "propagation_rule", Int(DEFAULT_PROPAGATION_RULE));
    if LooseEqualsInt(rule, ZBX_SERVICE_STATUS_PROPAGATION_INCREASE)
       || LooseEqualsInt(rule, ZBX_SERVICE_STATUS_PROPAGATION_DECREASE) then
      Get(input, "propagation_value_number", Int(0))
    else if LooseEqualsInt(rule, ZBX_SERVICE_STATUS_PROPAGATION_FIXED) then
      Get(input, "propagation_value_status", Int(0))
    else Int(0)
  }

  /** The weight an advanced form sends: the input weight, or 0 when it is empty. */
  function AdvancedWeight(input: map<string, Value>): Value
  {
    if Get(input, "weight", Str("")) != Str("") then input["weight"] else Int(0)
  }

  /** The update payload `doAction` sends: one field per key it writes. `copied`
      holds the input fields of `COPIED_FIELDS` that are present; `propagationRule`
      is None when an advanced form lacks the rule. */
  datatype Service = Service(
    showsla: int,
    tags: seq<Value>,
    problemTags: seq<Value>,
    parents: seq<Value>,
    children: seq<Value>,
    times: Value,
    copied: map<string, Value>,
    statusRules: Value,
    propagationRule: Option<Value>,
    propagationValue: Value,
    weight: Value)

  /** Whether `service` is the update payload for the validated input `input`. */
  predicate ServicePayload(input: map<string, Value>, service: Service)
  {
    ListPayload(input, service) && ConfigurationPayload(input, service)
  }

  /** The payload fields that do not depend on advanced configuration. */
  predicate ListPayload(input: map<string, Value>, service: Service)
  {
    service.showsla == (if "showsla" in input then SERVICE_SHOW_SLA_ON else SERVICE_SHOW_SLA_OFF)
    && service.times == Get(input, "times", Arr([]))
    && service.copied.Keys == (set k | k in COPIED_FIELDS && k in input)
    && (forall k | k in service.copied :: service.copied[k] == input[k])
    && service.tags == NonBlankTags(Items(Get(input, "tags", Arr([]))))
    && service.problemTags ==
         (if LooseEqualsInt(Get(input, "algorithm", Null), ZBX_SERVICE_STATUS_CALC_SET_OK) then []
          else NonBlankTags(Items(Get(input, "problem_tags", Arr([])))))
    && RefsTo(Arr(service.parents), Items(Get(input, "parent_serviceids", Arr([]))))
    && RefsTo(Arr(service.children), Items(Get(input, "child_serviceids", Arr([]))))
  }

  /** The status rules, propagation and weight fields. */
  predicate ConfigurationPayload(input: map<string, Value>, service: Service)
  {
    var advanced := AdvancedConfiguration(input);
    service.statusRules == (if advanced then Get(input, "status_rules", Arr([])) else Arr([]))
    && service.propagationRule ==
         (if !advanced then Some(Int(DEFAULT_PROPAGATION_RULE))
          else if "propagation_rule" in input then Some(input["propagation_rule"]) else None)
    && service.propagationValue ==
         (if advanced then AdvancedPropagationValue(input) else Int(DEFAULT_PROPAGATION_VALUE))
    && service.weight == (if advanced then AdvancedWeight(input) else Int(DEFAULT_WEIGHT))
  }

  /** An accepted advanced form sends its propagation rule, a propagation value
      that fits the rule and a weight in 0..1000000. */
  lemma AcceptedPayloadFitsRule(input: map<string, Value>, service: Service)
    requires InputAccepted(Some(ValidationOk), input) && AdvancedConfiguration(input)
    requires ServicePayload(input, service)
    ensures service.propagationRule == Some(input["propagation_rule"])
    ensures var rule := input["propagation_rule"];
            LooseEqualsInt(rule, ZBX_SERVICE_STATUS_PROPAGATION_INCREASE)
            || LooseEqualsInt(rule, ZBX_SERVICE_STATUS_PROPAGATION_DECREASE) ==>
              AsInt(service.propagationValue).Some?
              && 1 <= AsInt(service.propagationValue).value < TRIGGER_SEVERITY_COUNT
    ensures var rule := input["propagation_rule"];
            !LooseEqualsInt(rule, ZBX_SERVICE_STATUS_PROPAGATION_INCREASE)
            && !LooseEqualsInt(rule, ZBX_SERVICE_STATUS_PROPAGATION_DECREASE)
            && LooseEqualsInt(rule, ZBX_SERVICE_STATUS_PROPAGATION_FIXED) ==>
              LooseIn(service.propagationValue, STATUS_NAME_KEYS)
    ensures service.weight == Int(0) || Int32Within(service.weight, 0, MAX_WEIGHT)
  {
  }

  /** A payload without advanced configuration carries the database defaults and
      no status rules. */
  lemma PlainPayloadUsesDefaults(input: map<string, Value>, service: Service)
    requires !AdvancedConfiguration(input) && ServicePayload(input, service)
    ensures service.propagationRule == Some(Int(DEFAULT_PROPAGATION_RULE))
    ensures service.propagationValue == Int(DEFAULT_PROPAGATION_VALUE)
    ensures service.weight == Int(DEFAULT_WEIGHT)
    ensures service.statusRules == Arr([])
  {
  }

  /** The problem tags of a service with status algorithm `algorithm`: none for
      the "set status to OK" algorithm, else the non-blank ones of `problemTags`. */
  method ProblemTags(algorithm: Value, problemTags: Value) returns (kept: seq<Value>)
    ensures kept == if LooseEqualsInt(algorithm, ZBX_SERVICE_STATUS_CALC_SET_OK) then [] else NonBlankTags(Items(problemTags))
  {
    kept := [];
    if !LooseEqualsInt(algorithm, ZBX_SERVICE_STATUS_CALC_SET_OK) {
      kept := FilterTags(Items(problemTags));
    }
  }

  /** The payload fields that do not depend on advanced configuration, with no
      status rules yet. */
  method ListPart(c: Controller) returns (service: Service)
    ensures ListPayload(c.input, service) && service.statusRules == Arr([])
  {
    service := Service(
      showsla := if c.HasInput("showsla") then SERVICE_SHOW_SLA_ON else SERVICE_SHOW_SLA_OFF,
      tags := [], problemTags := [], parents := [], children := [],
      times := c.GetInput("times", Arr([])),
      copied := map[],
      statusRules := Arr([]),
      propagationRule := None, propagationValue := Int(0), weight := Int(0));
    var copied := c.GetInputs(map[], COPIED_FIELDS);
    service := service.(copied := copied);

    var tags := FilterTags(Items(c.GetInput("tags", Arr([]))));
    service := service.(tags := tags);

    var problemTags := ProblemTags(Get(service.copied, "algorithm", Null), c.GetInput("problem_tags", Arr([])));
    service := service.(problemTags := problemTags);

    var parents := ServiceRefs(Items(c.GetInput("parent_serviceids", Arr([]))));
    service := service.(parents := parents);
    var children := ServiceRefs(Items(c.GetInput("child_serviceids", Arr([]))));
    service := service.(children := children);
  }

  /** `base` with the status rules, propagation and weight fields set. */
  method ConfigurationPart(c: Controller, base: Service) returns (service: Service)
    requires base.statusRules == Arr([])
    ensures ConfigurationPayload(c.input, service)
    ensures service == base.(statusRules := service.statusRules, propagationRule := service.propagationRule,
                             propagationValue := service.propagationValue, weight := service.weight)
  {
    service := base;
    if c.HasInput("advanced_configuration") {
      var configuration := c.GetInputs(map[], ["status_rules", "propagation_rule"]);
      service := service.(
        statusRules := Get(configuration, "status_rules", service.statusRules),
        propagationRule := if "propagation_rule" in configuration then Some(configuration["propagation_rule"]) else None);
      var rule := c.GetInput("propagation_rule", Int(DEFAULT_PROPAGATION_RULE));
      if LooseEqualsInt(rule, ZBX_SERVICE_STATUS_PROPAGATION_INCREASE)
         || LooseEqualsInt(rule, ZBX_SERVICE_STATUS_PROPAGATION_DECREASE) {
        service := service.(propagationValue := c.GetInput("propagation_value_number", Int(0)));
      } else if LooseEqualsInt(rule, ZBX_SERVICE_STATUS_PROPAGATION_FIXED) {
        service := service.(propagationValue := c.GetInput("propagation_value_status", Int(0)));
      } else {
        service := service.(propagationValue := Int(0));
      }
      service := service.(weight := if c.GetInput("weight", Str("")) != Str("") then c.GetInput("weight", Null) else Int(0));
    } else {
      service := service.(
        propagationRule := Some(Int(DEFAULT_PROPAGATION_RULE)),
        propagationValue := Int(DEFAULT_PROPAGATION_VALUE),
        weight := Int(DEFAULT_WEIGHT));
    }
  }

  /** The service payload `doAction` sends to the update call. */
  method BuildService(c: Controller) returns (service: Service)
    ensures ServicePayload(c.input, service)
  {
    var lists := ListPart(c);
    service := ConfigurationPart(c, lists);
  }

  /** The response after the update call: a title and any notices on success, the
      error box otherwise. */
  function UpdateResponse(updated: bool, notices: seq<string>, errorBox: string): Response
  {
    var output :=
      if updated then
        map["title" := Str("Service updated")]
        + (if notices == [] then map[] else map["messages" := Arr(seq(|notices|, i requires 0 <= i < |notices| => Str(notices[i])))])
      else map["errors" := Str(errorBox)];
    Data(map["main_block" := Rec(output)])
  }

  /** The action: build the payload, send it to `update` and answer with its
      outcome; `notices` and `errorBox` are the messages the call left. */
  method DoAction(c: Controller, update: Service -> bool, notices: seq<string>, errorBox: string)
    returns (service: Service)
    modifies c`response
    ensures ServicePayload(c.input, service)
    ensures c.response == Some(UpdateResponse(update(service), notices, errorBox))
  {
    service := BuildService(c);
    c.SetResponse(UpdateResponse(update(service), notices, errorBox));
  }
}
