/**
 * The request-body validator: every rule is checked in order and its error
 * messages are appended; validation never stops at the first failure. Any
 * error rejects the request with AppError 400 "Validation failed" whose
 * details list the messages; no error lets the request continue.
 */
module Validator {
  import opened Wrappers
  import opened Json
  import opened Http
  import Text

  /** The type names a rule may ask for. */
  datatype JsType = TypeString | TypeNumber | TypeBoolean | TypeObject | TypeArray {
    function Name(): string {
      match this
      case TypeString => "string"
      case TypeNumber => "number"
      case TypeBoolean => "boolean"
      case TypeObject => "object"
      case TypeArray => "array"
    }
  }

  /**
   * One field rule. An absent `required` is false; an absent or zero length
   * bound is not checked; `pattern` is the regular expression's test, supplied
   * as a predicate.
   */
  datatype ValidationRule = ValidationRule(
    field: string,
    required: bool,
    ruleType: Option<JsType>,
    minLength: Option<int>,
    maxLength: Option<int>,
    pattern: Option<string -> bool>)

  function RequiredMessage(field: string): string {
    "Field '" + field + "' is required"
  }

  function TypeMessage(field: string, t: JsType): string {
    "Field '" + field + "' must be of type " + t.Name()
  }

  function MinLengthMessage(field: string, n: int): string {
    "Field '" + field + "' must be at least " + Text.IntToString(n) + " characters"
  }

  function MaxLengthMessage(field: string, n: int): string {
    "Field '" + field + "' must be at most " + Text.IntToString(n) + " characters"
  }

  function FormatMessage(field: string): string {
    "Field '" + field + "' format is invalid"
  }

  /** The value is neither `undefined` nor `null`. */
  predicate IsPresent(v: Option<Json>) {
    v.Some? && v.value != JNull
  }

  /** The type test as written: `typeof value` compared with the rule's type name. */
  predicate TypeofMatches(t: JsType, v: Json) {
    TypeOf(v) == t.Name()
  }

  predicate TooShort(rule: ValidationRule, value: string) {
    rule.minLength.Some? && rule.minLength.value != 0 && |value| < rule.minLength.value
  }

  predicate TooLong(rule: ValidationRule, value: string) {
    rule.maxLength.Some? && rule.maxLength.value != 0 && |value| > rule.maxLength.value
  }

  predicate BadFormat(rule: ValidationRule, value: string) {
    rule.pattern.Some? && !rule.pattern.value(value)
  }

  /** The length and pattern checks of a string rule on a string value, in that order. */
  function StringErrors(rule: ValidationRule, value: string): (errs: seq<string>)
    ensures errs == [] <==> !TooShort(rule, value) && !TooLong(rule, value) && !BadFormat(rule, value)
    ensures |errs| == (if TooShort(rule, value) then 1 else 0) + (if TooLong(rule, value) then 1 else 0)
                      + (if BadFormat(rule, value) then 1 else 0)
    ensures TooShort(rule, value) ==> errs[0] == MinLengthMessage(rule.field, rule.minLength.value)
    ensures TooLong(rule, value) ==> errs[if TooShort(rule, value) then 1 else 0] == MaxLengthMessage(rule.field, rule.maxLength.value)
    ensures BadFormat(rule, value) ==> errs[|errs| - 1] == FormatMessage(rule.field)
  {
    (if TooShort(rule, value) then [MinLengthMessage(rule.field, rule.minLength.value)] else [])
    + (if TooLong(rule, value) then [MaxLengthMessage(rule.field, rule.maxLength.value)] else [])
    + (if BadFormat(rule, value) then [FormatMessage(rule.field)] else [])
  }

  /**
   * The messages one rule adds, given the type test `matches`. A missing
   * required field adds only the required message; a missing optional field
   * adds nothing; a present value may add a type message and, for a string
   * rule on a string value, the length and pattern messages.
   */
  function RuleErrorsWith(rule: ValidationRule, body: JsonObject, matches: (JsType, Json) -> bool): (errs: seq<string>)
    ensures var v := Field(body, rule.field);
            !IsPresent(v) ==> errs == (if rule.required then [RequiredMessage(rule.field)] else [])
    ensures var v := Field(body, rule.field);
            IsPresent(v) && rule.ruleType.Some? && !matches(rule.ruleType.value, v.value) ==>
              |errs| > 0 && errs[0] == TypeMessage(rule.field, rule.ruleType.value)
    ensures var v := Field(body, rule.field);
            IsPresent(v) && !(rule.ruleType == Some(TypeString) && v.value.JString?) ==>
              errs == (if rule.ruleType.Some? && !matches(rule.ruleType.value, v.value)
                       then [TypeMessage(rule.field, rule.ruleType.value)] else [])
    ensures var v := Field(body, rule.field);
            IsPresent(v) && rule.ruleType == Some(TypeString) && v.value.JString? ==>
              errs == (if !matches(TypeString, v.value) then [TypeMessage(rule.field, TypeString)] else [])
                      + StringErrors(rule, v.value.s)
  {
    var v := Field(body, rule.field);
    if !IsPresent(v) then
      (if rule.required then [RequiredMessage(rule.field)] else [])
    else
      var typeErrors :=
        if rule.ruleType.Some? && !matches(rule.ruleType.value, v.value)
        then [TypeMessage(rule.field, rule.ruleType.value)] else [];
      var stringErrors :=
        if rule.ruleType == Some(TypeString) && v.value.JString? then StringErrors(rule, v.value.s) else [];
      typeErrors + stringErrors
  }

  /** The messages each rule adds, one list per rule, in rule order. */
  function PerRuleErrors(rules: seq<ValidationRule>, body: JsonObject, matches: (JsType, Json) -> bool): (per: seq<seq<string>>)
    ensures |per| == |rules|
    ensures forall i | 0 <= i < |rules| :: per[i] == RuleErrorsWith(rules[i], body, matches)
  {
    seq(|rules|, i requires 0 <= i < |rules| => RuleErrorsWith(rules[i], body, matches))
  }

  /** The lists joined end to end: the `errors` array after the loop has pushed every rule's messages. */
  function Flatten(lists: seq<seq<string>>): seq<string> {
    if lists == [] then [] else lists[0] + Flatten(lists[1..])
  }

  lemma {:induction false} FlattenAppend(a: seq<seq<string>>, b: seq<seq<string>>)
    ensures Flatten(a + b) == Flatten(a) + Flatten(b)
    decreases |a|
  {
    if a == [] {
      assert a + b == b;
    } else {
      assert (a + b)[0] == a[0];
      assert (a + b)[1..] == a[1..] + b;
      FlattenAppend(a[1..], b);
    }
  }

  lemma {:induction false} FlattenEmpty(lists: seq<seq<string>>)
    ensures (Flatten(lists) == []) <==> (forall i | 0 <= i < |lists| :: lists[i] == [])
    decreases |lists|
  {
    if lists != [] {
      FlattenEmpty(lists[1..]);
      assert forall i | 1 <= i < |lists| :: lists[i] == lists[1..][i - 1];
    }
  }

  /** The messages of all rules, rule by rule, in order. */
  function CollectErrorsWith(rules: seq<ValidationRule>, body: JsonObject, matches: (JsType, Json) -> bool): seq<string> {
    Flatten(PerRuleErrors(rules, body, matches))
  }

  function RuleErrors(rule: ValidationRule, body: JsonObject): seq<string> {
    RuleErrorsWith(rule, body, TypeofMatches)
  }

  function CollectErrors(rules: seq<ValidationRule>, body: JsonObject): seq<string> {
    CollectErrorsWith(rules, body, TypeofMatches)
  }

  /**
   * Every rule's messages appear, as one block, after those of the rules before
   * it: a failing rule does not stop the rules after it from being checked.
   */
  lemma {:induction false} ErrorsInRuleOrder(rules: seq<ValidationRule>, body: JsonObject, i: nat)
    requires i < |rules|
    ensures CollectErrors(rules, body)
              == CollectErrors(rules[..i], body) + RuleErrors(rules[i], body) + CollectErrors(rules[i + 1..], body)
  {
    var before := PerRuleErrors(rules[..i], body, TypeofMatches);
    var here := [RuleErrors(rules[i], body)];
    var after := PerRuleErrors(rules[i + 1..], body, TypeofMatches);
    PerRuleErrorsSplit(rules, body, TypeofMatches, i);
    FlattenAppend(before + here, after);
    FlattenAppend(before, here);
    assert Flatten(here) == here[0] + Flatten([]);
  }

  /** The per-rule lists of a rule sequence split around any one rule. */
  lemma PerRuleErrorsSplit(rules: seq<ValidationRule>, body: JsonObject, matches: (JsType, Json) -> bool, i: nat)
    requires i < |rules|
    ensures PerRuleErrors(rules, body, matches)
              == PerRuleErrors(rules[..i], body, matches) + [RuleErrorsWith(rules[i], body, matches)]
                 + PerRuleErrors(rules[i + 1..], body, matches)
  {
    var whole := PerRuleErrors(rules, body, matches);
    var parts := PerRuleErrors(rules[..i], body, matches) + [RuleErrorsWith(rules[i], body, matches)]
                 + PerRuleErrors(rules[i + 1..], body, matches);
    assert |whole| == |parts|;
    forall j | 0 <= j < |whole|
      ensures whole[j] == parts[j]
    {
      if j < i {
        assert rules[..i][j] == rules[j];
      } else if j > i {
        assert rules[i + 1..][j - i - 1] == rules[j];
      }
    }
  }


  /** A single rule's list is its own messages. */
  lemma {:induction false} SingleRule(rule: ValidationRule, body: JsonObject)
    ensures CollectErrors([rule], body) == RuleErrors(rule, body)
  {
    var per := PerRuleErrors([rule], body, TypeofMatches);
    assert Flatten(per) == per[0] + Flatten([]);
  }

  /** No message is collected exactly when no rule produces one. */
  lemma NoErrorsIffEveryRulePasses(rules: seq<ValidationRule>, body: JsonObject, matches: (JsType, Json) -> bool)
    ensures (CollectErrorsWith(rules, body, matches) == [])
              <==> (forall i | 0 <= i < |rules| :: RuleErrorsWith(rules[i], body, matches) == [])
  {
    FlattenEmpty(PerRuleErrors(rules, body, matches));
  }

  /** The outcome of validation: continue to the handler, or reject. */
  datatype Validation = CallNext | Reject(error: AppError)

  /** The details object `{errors}` of a rejection. */
  function ErrorsDetail(errors: seq<string>): Json {
    JObject(map["errors" := JArray(seq(|errors|, i requires 0 <= i < |errors| => JString(errors[i])))])
  }

  /**
   * Continues exactly when every rule passes; otherwise rejects with status 400,
   * message "Validation failed", and every collected message, in order, as details.
   */
  function ValidateRequest(rules: seq<ValidationRule>, body: JsonObject): (v: Validation)
    ensures v.CallNext? <==> forall i | 0 <= i < |rules| :: RuleErrors(rules[i], body) == []
    ensures v.Reject? ==>
              && v.error.statusCode == 400 && v.error.message == "Validation failed"
              && v.error.details == Some(ErrorsDetail(CollectErrors(rules, body)))
              && CollectErrors(rules, body) != []
  {
    var errors := CollectErrors(rules, body);
    NoErrorsIffEveryRulePasses(rules, body, TypeofMatches);
    if |errors| > 0 then Reject(AppError(400, "Validation failed", Some(ErrorsDetail(errors))))
    else CallNext
  }

  /**
   * As written, a rule of type 'array' fails every present value: `typeof`
   * never yields "array", not even for an array.
   */
  lemma ArrayRuleRejectsEveryValue(rule: ValidationRule, body: JsonObject)
    requires rule.ruleType == Some(TypeArray) && IsPresent(Field(body, rule.field))
    ensures RuleErrors(rule, body) == [TypeMessage(rule.field, TypeArray)]
  {
  }

  /** The type test as evidently intended: an 'array' rule accepts exactly arrays (`Array.isArray`). */
  predicate IntendedTypeMatches(t: JsType, v: Json) {
    if t == TypeArray then v.JArray? else TypeOf(v) == t.Name()
  }

  /** With the intended type test, an 'array' rule accepts arrays and still rejects every other present value. */
  lemma IntendedArrayRule(rule: ValidationRule, body: JsonObject)
    requires rule.ruleType == Some(TypeArray) && IsPresent(Field(body, rule.field))
    ensures Field(body, rule.field).value.JArray? ==> RuleErrorsWith(rule, body, IntendedTypeMatches) == []
    ensures !Field(body, rule.field).value.JArray? ==>
              RuleErrorsWith(rule, body, IntendedTypeMatches) == [TypeMessage(rule.field, TypeArray)]
  {
  }
}
