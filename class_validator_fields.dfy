/**
 * `ClassValidatorFields`: a schema validator that runs the declared field
 * constraints of a data object (through `validateSync`, whose result is a
 * parameter here) and records, for every field that failed, the messages of
 * its violated constraints.
 */
module ValidatorFields {
  import opened Js

  /** One violated constraint: its name (the key in `constraints`) and its message. */
  datatype Constraint = Constraint(name: string, message: string)

  /** One entry of the list `validateSync` returns: a property and its violated constraints, in order. */
  datatype Violation = Violation(property: string, constraints: seq<Constraint>)

  /** `FieldsErrors`: field name to messages. */
  type FieldsErrors = map<string, seq<string>>

  /** `Object.values(error.constraints)`: the messages, in the constraints' order. */
  function Messages(constraints: seq<Constraint>): (ms: seq<string>)
    ensures |ms| == |constraints|
    ensures forall i :: 0 <= i < |ms| ==> ms[i] == constraints[i].message
  {
    if constraints == [] then []
    else Messages(constraints[..|constraints| - 1]) + [constraints[|constraints| - 1].message]
  }

  /**
   * The map after `errors[property] = Object.values(constraints)` has run for
   * each violation in order.
   */
  function Fill(errors: FieldsErrors, violations: seq<Violation>): FieldsErrors
  {
    if violations == [] then errors
    else
      var last := violations[|violations| - 1];
      Fill(errors, violations[..|violations| - 1])[last.property := Messages(last.constraints)]
  }

  /** The properties the violations report. */
  function Reported(violations: seq<Violation>): set<string> {
    set i | 0 <= i < |violations| :: violations[i].property
  }

  /** Filling adds exactly the reported properties to the keys. */
  lemma {:induction false} FillKeys(errors: FieldsErrors, violations: seq<Violation>)
    ensures Fill(errors, violations).Keys == errors.Keys + Reported(violations)
  {
    if violations != [] {
      var init := violations[..|violations| - 1];
      FillKeys(errors, init);
      assert Reported(violations) == Reported(init) + {violations[|violations| - 1].property} by {
        forall p | p in Reported(violations) ensures p in Reported(init) + {violations[|violations| - 1].property} {
          var i :| 0 <= i < |violations| && violations[i].property == p;
          if i < |violations| - 1 {
            assert init[i] == violations[i];
          }
        }
        forall p | p in Reported(init) ensures p in Reported(violations) {
          var i :| 0 <= i < |init| && init[i].property == p;
          assert violations[i] == init[i];
        }
      }
    }
  }

  /** A property reported several times keeps the messages of its last report. */
  lemma {:induction false} FillLastReportWins(errors: FieldsErrors, violations: seq<Violation>, j: nat)
    requires j < |violations|
    requires forall l :: j < l < |violations| ==> violations[l].property != violations[j].property
    ensures violations[j].property in Fill(errors, violations)
    ensures Fill(errors, violations)[violations[j].property] == Messages(violations[j].constraints)
  {
    if j < |violations| - 1 {
      var init := violations[..|violations| - 1];
      assert init[j] == violations[j];
      forall l | j < l < |init| ensures init[l].property != init[j].property {
        assert init[l] == violations[l];
      }
      FillLastReportWins(errors, init, j);
    }
  }

  /** A property no violation reports keeps what it had, or stays absent. */
  lemma {:induction false} FillKeepsUnreported(errors: FieldsErrors, violations: seq<Violation>, field: string)
    requires forall l :: 0 <= l < |violations| ==> violations[l].property != field
    ensures field in Fill(errors, violations) <==> field in errors
    ensures field in errors ==> Fill(errors, violations)[field] == errors[field]
  {
    if violations != [] {
      var init := violations[..|violations| - 1];
      forall l | 0 <= l < |init| ensures init[l].property != field {
        assert init[l] == violations[l];
      }
      FillKeepsUnreported(errors, init, field);
    }
  }

  /** `ClassValidatorFields<PropsValidated>`. */
  class ClassValidatorFields<PropsValidated> {
    /** `errors: FieldsErrors = null` */
    var errors: Option<FieldsErrors>
    /** `validatedData: PropsValidated = null` */
    var validatedData: Option<PropsValidated>

    constructor ()
      ensures errors == None && validatedData == None
    {
      errors := None;
      validatedData := None;
    }

    /** The evidently intended initial state, `errors: FieldsErrors = {}`: an empty map instead of `null`. */
    constructor Intended()
      ensures errors == Some(map[]) && validatedData == None
    {
      errors := Some(map[]);
      validatedData := None;
    }

    /**
     * `validate(data)`, with `violations` for `validateSync(data)`. Returns
     * whether there were no violations; on success keeps `data` as the
     * validated data, on failure fills in the errors map. While `errors` is
     * still `null`, the first assignment into it throws a `TypeError`.
     */
    method Validate(data: PropsValidated, violations: seq<Violation>) returns (r: Result<bool>)
      modifies this
      ensures violations == [] ==> r == Ok(true) && validatedData == Some(data) && errors == old(errors)
      ensures violations != [] && old(errors).None? ==>
                && r == Err(TypeError(violations[0].property))
                && errors == None && validatedData == old(validatedData)
      ensures violations != [] && old(errors).Some? ==>
                && r == Ok(false)
                && errors == Some(Fill(old(errors).value, violations))
                && validatedData == old(validatedData)
    {
      if |violations| > 0 {
        for i := 0 to |violations|
          invariant validatedData == old(validatedData)
          invariant old(errors).None? ==> errors == None && i == 0
          invariant old(errors).Some? ==> errors == Some(Fill(old(errors).value, violations[..i]))
        {
          var field := violations[i].property;
          if errors.None? {
            return Err(TypeError(field));
          }
          assert violations[..i + 1][..i] == violations[..i];
          errors := Some(errors.value[field := Messages(violations[i].constraints)]);
        }
        assert violations[..|violations|] == violations;
      } else {
        validatedData := Some(data);
      }
      r := Ok(|violations| == 0);
    }
  }

  /** As written, the first failing validation on a fresh validator throws instead of returning false. */
  method FreshValidatorThrowsOnFirstFailure() returns (r: Result<bool>)
    ensures r == Err(TypeError("name"))
  {
    var validator := new ClassValidatorFields<int>();
    r := validator.Validate(0, [Violation("name", [Constraint("isNotEmpty", "name should not be empty")])]);
  }

  /**
   * With the errors map created up front, validation on a fresh validator
   * returns whether there were no violations, and the map holds exactly the
   * reported properties, each with the messages of its last report.
   */
  method IntendedValidatorReportsFailures<PropsValidated>(data: PropsValidated, violations: seq<Violation>)
    returns (r: Result<bool>, errors: FieldsErrors)
    ensures r == Ok(violations == [])
    ensures errors == Fill(map[], violations)
    ensures errors.Keys == Reported(violations)
  {
    var validator := new ClassValidatorFields<PropsValidated>.Intended();
    r := validator.Validate(data, violations);
    errors := validator.errors.value;
    FillKeys(map[], violations);
  }
}
