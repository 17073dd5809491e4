/**
 * The fluent field validator `ValidatorRules`: `values(value, property)` binds
 * a value to a field name, and each rule either hands back the same validator,
 * so that the next rule can be chained, or throws a `ValidationError` whose
 * fixed message names the field. A chain stops at its first failing rule.
 */
module ValidatorRules {
  import opened Js

  function RequiredMessage(property: string): string {
    "The " + property + " is required"
  }

  function StringMessage(property: string): string {
    "The " + property + " must be a string"
  }

  function MaxLengthMessage(property: string, max: nat): string {
    "The " + property + " must be less or equal than " + NumberToString(max) + " characters"
  }

  function BooleanMessage(property: string): string {
    "The " + property + " must be a boolean"
  }

  /** A validator bound to one value and the name of the field it came from. */
  datatype Validator = Validator(value: Value, property: string) {

    /** `required()`: the value must be present and not the empty string. */
    function Required(): (r: Result<Validator>)
      ensures r.Ok? ==> r.value == this
      ensures r.Err? ==> r.error == ValidationError(RequiredMessage(property))
    {
      if IsAbsent(value) || value == Str("") then Err(ValidationError(RequiredMessage(property)))
      else Ok(this)
    }

    /** `string()`: a present value must be a string. */
    function String(): (r: Result<Validator>)
      ensures r.Ok? ==> r.value == this
      ensures r.Err? ==> r.error == ValidationError(StringMessage(property))
    {
      if !IsAbsent(value) && !value.Str? then Err(ValidationError(StringMessage(property)))
      else Ok(this)
    }

    /** `maxLength(max)`: a string may have at most `max` characters. */
    function MaxLength(max: nat): (r: Result<Validator>)
      ensures r.Ok? ==> r.value == this
      ensures r.Err? ==> r.error == ValidationError(MaxLengthMessage(property, max))
    {
      if value.Str? && |value.s| > max then Err(ValidationError(MaxLengthMessage(property, max)))
      else Ok(this)
    }

    /** `boolean()`: a present value must be `true` or `false`. */
    function Boolean(): (r: Result<Validator>)
      ensures r.Ok? ==> r.value == this
      ensures r.Err? ==> r.error == ValidationError(BooleanMessage(property))
    {
      if !IsAbsent(value) && !value.Bool? then Err(ValidationError(BooleanMessage(property)))
      else Ok(this)
    }
  }

  /** `ValidatorRules.values(value, property)`. */
  function Values(value: Value, property: string): (v: Validator)
    ensures v.value == value && v.property == property
  {
    Validator(value, property)
  }

  /** One link of a chain such as `required().string().maxLength(255)`. */
  datatype Rule = IsRequired | IsString | HasMaxLength(max: nat) | IsBoolean

  function Apply(v: Validator, rule: Rule): Result<Validator> {
    match rule
    case IsRequired => v.Required()
    case IsString => v.String()
    case HasMaxLength(max) => v.MaxLength(max)
    case IsBoolean => v.Boolean()
  }

  /**
   * Runs the rules left to right, each on the validator the previous one
   * returned, and stops at the first error.
   */
  function Chain(v: Validator, rules: seq<Rule>): (r: Result<Validator>)
    ensures r.Ok? ==> r.value == v
  {
    if rules == [] then Ok(v)
    else
      var w :- Apply(v, rules[0]);
      Chain(w, rules[1..])
  }

  // ---------------------------------------------------------------------------
  // The semantics of the single rules
  // ---------------------------------------------------------------------------

  /** `required` fails exactly for null, undefined and the empty string; `0` and `false` are present. */
  lemma RequiredFailsExactlyWhenMissing(v: Validator)
    ensures v.Required().Err? <==> v.value in {Null, Undefined, Str("")}
    ensures v.value in {Num(0), Bool(false)} ==> v.Required() == Ok(v)
  {
  }

  /**
   * The three type rules leave presence to `required`: on a missing value
   * every rule but `required` passes, whatever its parameter.
   */
  lemma {:induction false} AbsentPassesAllButRequired(v: Validator, rules: seq<Rule>)
    requires IsAbsent(v.value)
    requires forall i :: 0 <= i < |rules| ==> rules[i] != IsRequired
    ensures Chain(v, rules) == Ok(v)
  {
    if rules != [] {
      assert Apply(v, rules[0]) == Ok(v);
      AbsentPassesAllButRequired(v, rules[1..]);
    }
  }

  /** A present value passes at most one of `string` and `boolean`. */
  lemma StringAndBooleanExclusive(v: Validator)
    requires !IsAbsent(v.value)
    ensures !(v.String().Ok? && v.Boolean().Ok?)
    ensures v.String().Ok? <==> v.value.Str?
    ensures v.Boolean().Ok? <==> v.value.Bool?
  {
  }

  /** `maxLength(max)` fails exactly on strings longer than `max`. */
  lemma MaxLengthFailsExactlyOnLongStrings(v: Validator, max: nat)
    ensures v.MaxLength(max).Err? <==> exists s :: v.value == Str(s) && |s| > max
  {
    if v.MaxLength(max).Err? {
      assert v.value == Str(v.value.s);
    }
  }

  // ---------------------------------------------------------------------------
  // Chains
  // ---------------------------------------------------------------------------

  /** A chain passes, handing back the validator it started from, exactly when every rule passes. */
  lemma {:induction false} ChainPassesIffEveryRulePasses(v: Validator, rules: seq<Rule>)
    ensures Chain(v, rules).Ok? <==> forall i :: 0 <= i < |rules| ==> Apply(v, rules[i]).Ok?
  {
    if rules != [] {
      ChainPassesIffEveryRulePasses(v, rules[1..]);
      if Apply(v, rules[0]).Ok? {
        assert forall i :: 1 <= i < |rules| ==> rules[i] == rules[1..][i - 1];
      }
    }
  }

  /** A chain throws the error of its first failing rule. */
  lemma {:induction false} ChainThrowsFirstFailure(v: Validator, rules: seq<Rule>, k: nat)
    requires k < |rules|
    requires forall i :: 0 <= i < k ==> Apply(v, rules[i]).Ok?
    requires Apply(v, rules[k]).Err?
    ensures Chain(v, rules) == Apply(v, rules[k])
  {
    if k > 0 {
      assert Apply(v, rules[0]).Ok?;
      ChainThrowsFirstFailure(v, rules[1..], k - 1);
    }
  }

  /** Every error a chain throws comes from a rule that failed after all rules before it passed. */
  lemma {:induction false} ChainErrorIsFirstFailure(v: Validator, rules: seq<Rule>)
    requires Chain(v, rules).Err?
    ensures exists k :: 0 <= k < |rules| && Apply(v, rules[k]) == Chain(v, rules)
                        && forall i :: 0 <= i < k ==> Apply(v, rules[i]).Ok?
  {
    if Apply(v, rules[0]).Ok? {
      ChainErrorIsFirstFailure(v, rules[1..]);
      var k :| 0 <= k < |rules[1..]| && Apply(v, rules[1..][k]) == Chain(v, rules[1..])
               && forall i :: 0 <= i < k ==> Apply(v, rules[1..][i]).Ok?;
      assert Apply(v, rules[k + 1]) == Chain(v, rules);
      assert forall i :: 0 <= i < k + 1 ==> Apply(v, rules[i]).Ok? by {
        forall i | 0 < i < k + 1 ensures Apply(v, rules[i]).Ok? {
          assert rules[i] == rules[1..][i - 1];
        }
      }
    } else {
      assert Apply(v, rules[0]) == Chain(v, rules);
    }
  }

  /**
   * Rules after a failure are not reached: appending rules to a failing chain
   * does not change what it throws.
   */
  lemma {:induction false} ChainIgnoresRulesAfterFailure(v: Validator, rules: seq<Rule>, more: seq<Rule>)
    requires Chain(v, rules).Err?
    ensures Chain(v, rules + more) == Chain(v, rules)
  {
    assert rules != [];
    assert (rules + more)[0] == rules[0];
    if Apply(v, rules[0]).Ok? {
      assert (rules + more)[1..] == rules[1..] + more;
      ChainIgnoresRulesAfterFailure(v, rules[1..], more);
    }
  }

  /** The chain of a field's declaration, `required().string().maxLength(max)`. */
  function RequiredStringMaxLength(max: nat): seq<Rule> {
    [IsRequired, IsString, HasMaxLength(max)]
  }

  /**
   * `required().string().maxLength(max)` accepts exactly the non-empty strings
   * of at most `max` characters, and otherwise reports the first of "required",
   * "must be a string" and "less or equal than" that applies.
   */
  lemma RequiredStringMaxLengthOutcome(v: Validator, max: nat)
    ensures Chain(v, RequiredStringMaxLength(max)).Ok? <==> v.value.Str? && 1 <= |v.value.s| <= max
    ensures v.value in {Null, Undefined, Str("")} ==>
              Chain(v, RequiredStringMaxLength(max)) == Err(ValidationError(RequiredMessage(v.property)))
    ensures !v.value.Str? && !IsAbsent(v.value) ==>
              Chain(v, RequiredStringMaxLength(max)) == Err(ValidationError(StringMessage(v.property)))
    ensures v.value.Str? && |v.value.s| > max ==>
              Chain(v, RequiredStringMaxLength(max)) == Err(ValidationError(MaxLengthMessage(v.property, max)))
  {
    var rules := RequiredStringMaxLength(max);
    ChainPassesIffEveryRulePasses(v, rules);
    if v.Required().Err? {
      ChainThrowsFirstFailure(v, rules, 0);
    } else if v.String().Err? {
      ChainThrowsFirstFailure(v, rules, 1);
    } else if v.MaxLength(max).Err? {
      ChainThrowsFirstFailure(v, rules, 2);
    }
  }

  // ---------------------------------------------------------------------------
  // The cases of validator-rules.spec.ts
  // ---------------------------------------------------------------------------

  lemma ValuesBindsValueAndProperty()
    ensures Values(Str("some value"), "field").value == Str("some value")
    ensures Values(Str("some value"), "field").property == "field"
  {
  }

  lemma RequiredCases()
    ensures forall x :: x in {Null, Undefined, Str("")} ==>
              Values(x, "field").Required() == Err(ValidationError("The field is required"))
    ensures forall x :: x in {Str("testStr"), Num(5), Num(0), Bool(false)} ==> Values(x, "field").Required().Ok?
  {
  }

  lemma StringCases()
    ensures forall x :: x in {Num(5), Obj, Bool(false)} ==>
              Values(x, "field").String() == Err(ValidationError("The field must be a string"))
    ensures forall x :: x in {Null, Undefined, Str("test")} ==> Values(x, "field").String().Ok?
  {
  }

  lemma MaxLengthMessageOfFive()
    ensures MaxLengthMessage("field", 5) == "The field must be less or equal than 5 characters"
  {
    NumberToStringExamples();
    assert "The " + "field" == "The field";
    assert "The field" + " must be less or equal than " == "The field must be less or equal than ";
    assert "The field must be less or equal than " + "5" == "The field must be less or equal than 5";
    assert "The field must be less or equal than 5" + " characters" == "The field must be less or equal than 5 characters";
  }

  lemma MaxLengthCases()
    ensures Values(Str("fake_test"), "field").MaxLength(5)
            == Err(ValidationError("The field must be less or equal than 5 characters"))
    ensures forall x :: x in {Str("fake_test"), Null, Undefined} ==> Values(x, "field").MaxLength(10).Ok?
  {
    MaxLengthMessageOfFive();
  }

  lemma BooleanCases()
    ensures forall x :: x in {Num(5), Str("true"), Str("false")} ==>
              Values(x, "field").Boolean() == Err(ValidationError("The field must be a boolean"))
    ensures forall x :: x in {Undefined, Null, Bool(false), Bool(true)} ==> Values(x, "field").Boolean().Ok?
  {
  }

  lemma CombinedRulesNullRequiredStringMaxLength()
    ensures Chain(Values(Null, "field"), [IsRequired, IsString, HasMaxLength(5)])
            == Err(ValidationError("The field is required"))
  {
    RequiredStringMaxLengthOutcome(Values(Null, "field"), 5);
  }

  lemma CombinedRulesNumberRequiredString()
    ensures Chain(Values(Num(5), "field"), [IsRequired, IsString])
            == Err(ValidationError("The field must be a string"))
  {
    ChainThrowsFirstFailure(Values(Num(5), "field"), [IsRequired, IsString], 1);
  }

  lemma CombinedRulesLongRequiredStringMaxLength()
    ensures Chain(Values(Str("abcdef"), "field"), [IsRequired, IsString, HasMaxLength(5)])
            == Err(ValidationError("The field must be less or equal than 5 characters"))
  {
    MaxLengthMessageOfFive();
    RequiredStringMaxLengthOutcome(Values(Str("abcdef"), "field"), 5);
  }

  lemma CombinedRulesNullRequiredBoolean()
    ensures Chain(Values(Null, "field"), [IsRequired, IsBoolean])
            == Err(ValidationError("The field is required"))
  {
    var v, rules := Values(Null, "field"), [IsRequired, IsBoolean];
    assert Apply(v, rules[0]) == Err(ValidationError("The field is required"));
    ChainThrowsFirstFailure(v, rules, 0);
  }

  lemma CombinedRulesNumberRequiredBoolean()
    ensures Chain(Values(Num(55), "field"), [IsRequired, IsBoolean])
            == Err(ValidationError("The field must be a boolean"))
  {
    var v, rules := Values(Num(55), "field"), [IsRequired, IsBoolean];
    assert Apply(v, rules[0]).Ok?;
    assert Apply(v, rules[1]) == Err(ValidationError("The field must be a boolean"));
    ChainThrowsFirstFailure(v, rules, 1);
  }

  lemma CombinedRulesPassCases()
    ensures Chain(Values(Str("test"), "field"), [IsRequired, IsString]).Ok?
    ensures Chain(Values(Str("test"), "field"), RequiredStringMaxLength(5)).Ok?
    ensures Chain(Values(Bool(true), "field"), [IsRequired, IsBoolean]).Ok?
    ensures Chain(Values(Bool(false), "field"), [IsRequired, IsBoolean]).Ok?
  {
    RequiredStringMaxLengthOutcome(Values(Str("test"), "field"), 5);
    ChainPassesIffEveryRulePasses(Values(Str("test"), "field"), [IsRequired, IsString]);
    ChainPassesIffEveryRulePasses(Values(Bool(true), "field"), [IsRequired, IsBoolean]);
    ChainPassesIffEveryRulePasses(Values(Bool(false), "field"), [IsRequired, IsBoolean]);
  }
}
