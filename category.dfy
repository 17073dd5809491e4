/**
 * The Category entity: a name, an optional description, an active flag and a
 * creation time, validated field by field with the fluent rules when the
 * entity is constructed and again when `update(name, description)` changes it.
 */
module Categories {
  import opened Js
  import opened ValidatorRules

  /** A JavaScript `Date`; only its identity matters here. */
  class Date {
    constructor ()
    {
    }
  }

  /** The properties a Category is constructed from; an omitted one is `Undefined` (or `None`). */
  datatype CategoryProperties = CategoryProperties(
    name: Value,
    description: Value,
    is_active: Value,
    created_at: Option<Date>)

  /** name: `required().string().maxLength(255)` */
  function NameRules(): seq<Rule> {
    RequiredStringMaxLength(255)
  }

  /** description: `string()` */
  function DescriptionRules(): seq<Rule> {
    [IsString]
  }

  /** is_active: `boolean()` */
  function IsActiveRules(): seq<Rule> {
    [IsBoolean]
  }

  function NameCheck(name: Value): Result<Validator> {
    Chain(Values(name, "name"), NameRules())
  }

  function DescriptionCheck(description: Value): Result<Validator> {
    Chain(Values(description, "description"), DescriptionRules())
  }

  function IsActiveCheck(is_active: Value): Result<Validator> {
    Chain(Values(is_active, "is_active"), IsActiveRules())
  }

  /**
   * `Category.validate`: runs the three field chains and throws the first error.
   * The contract leaves open which field is reported when several are invalid.
   */
  function Validate(name: Value, description: Value, is_active: Value): (r: Result<()>)
    ensures r.Ok? <==> NameCheck(name).Ok? && DescriptionCheck(description).Ok? && IsActiveCheck(is_active).Ok?
    ensures r.Err? ==> Err(r.error) in {NameCheck(name), DescriptionCheck(description), IsActiveCheck(is_active)}
  {
    var _ :- NameCheck(name);
    var _ :- DescriptionCheck(description);
    var _ :- IsActiveCheck(is_active);
    Ok(())
  }

  /**
   * A Category is valid exactly when its name is a non-empty string of at
   * most 255 characters, its description is a string or missing, and its
   * active flag is a boolean or missing.
   */
  lemma ValidExactlyWhenFieldsConform(name: Value, description: Value, is_active: Value)
    ensures Validate(name, description, is_active).Ok? <==>
              && name.Str? && 1 <= |name.s| <= 255
              && (IsAbsent(description) || description.Str?)
              && (IsAbsent(is_active) || is_active.Bool?)
  {
    RequiredStringMaxLengthOutcome(Values(name, "name"), 255);
    ChainPassesIffEveryRulePasses(Values(description, "description"), DescriptionRules());
    ChainPassesIffEveryRulePasses(Values(is_active, "is_active"), IsActiveRules());
  }

  /** When exactly one field fails, its error is the one thrown. */
  lemma SoleFailureIsReported(name: Value, description: Value, is_active: Value, e: Error)
    ensures NameCheck(name) == Err(e) && DescriptionCheck(description).Ok? && IsActiveCheck(is_active).Ok? ==>
              Validate(name, description, is_active) == Err(e)
    ensures NameCheck(name).Ok? && DescriptionCheck(description) == Err(e) && IsActiveCheck(is_active).Ok? ==>
              Validate(name, description, is_active) == Err(e)
    ensures NameCheck(name).Ok? && DescriptionCheck(description).Ok? && IsActiveCheck(is_active) == Err(e) ==>
              Validate(name, description, is_active) == Err(e)
  {
  }

  /** The name chain's three messages. */
  lemma NameCheckErrors(name: Value)
    ensures name in {Null, Undefined, Str("")} ==>
              NameCheck(name) == Err(ValidationError("The name is required"))
    ensures !IsAbsent(name) && !name.Str? ==>
              NameCheck(name) == Err(ValidationError("The name must be a string"))
    ensures name.Str? && |name.s| > 255 ==>
              NameCheck(name) == Err(ValidationError("The name must be less or equal than 255 characters"))
  {
    var v := Values(name, "name");
    RequiredStringMaxLengthOutcome(v, 255);
    assert RequiredMessage("name") == "The name is required";
    assert StringMessage("name") == "The name must be a string";
    MaxLengthMessageOf255();
  }

  lemma DescriptionCheckError(description: Value)
    requires !IsAbsent(description) && !description.Str?
    ensures DescriptionCheck(description) == Err(ValidationError("The description must be a string"))
  {
    ChainThrowsFirstFailure(Values(description, "description"), DescriptionRules(), 0);
  }

  lemma IsActiveCheckError(is_active: Value)
    requires !IsAbsent(is_active) && !is_active.Bool?
    ensures IsActiveCheck(is_active) == Err(ValidationError("The is_active must be a boolean"))
  {
    ChainThrowsFirstFailure(Values(is_active, "is_active"), IsActiveRules(), 0);
  }

  /** With the other fields valid, an invalid name is reported with the name rule's message. */
  lemma NameErrors(name: Value, description: Value, is_active: Value)
    requires DescriptionCheck(description).Ok? && IsActiveCheck(is_active).Ok?
    ensures name in {Null, Undefined, Str("")} ==>
              Validate(name, description, is_active) == Err(ValidationError("The name is required"))
    ensures !IsAbsent(name) && !name.Str? ==>
              Validate(name, description, is_active) == Err(ValidationError("The name must be a string"))
    ensures name.Str? && |name.s| > 255 ==>
              Validate(name, description, is_active)
              == Err(ValidationError("The name must be less or equal than 255 characters"))
  {
    NameCheckErrors(name);
    if NameCheck(name).Err? {
      SoleFailureIsReported(name, description, is_active, NameCheck(name).error);
    }
  }

  /** With the other fields valid, a present non-string description is reported. */
  lemma DescriptionError(name: Value, description: Value, is_active: Value)
    requires NameCheck(name).Ok? && IsActiveCheck(is_active).Ok?
    requires !IsAbsent(description) && !description.Str?
    ensures Validate(name, description, is_active) == Err(ValidationError("The description must be a string"))
  {
    DescriptionCheckError(description);
    SoleFailureIsReported(name, description, is_active, ValidationError("The description must be a string"));
  }

  /** With the other fields valid, a present non-boolean active flag is reported. */
  lemma IsActiveError(name: Value, description: Value, is_active: Value)
    requires NameCheck(name).Ok? && DescriptionCheck(description).Ok?
    requires !IsAbsent(is_active) && !is_active.Bool?
    ensures Validate(name, description, is_active) == Err(ValidationError("The is_active must be a boolean"))
  {
    IsActiveCheckError(is_active);
    SoleFailureIsReported(name, description, is_active, ValidationError("The is_active must be a boolean"));
  }

  lemma MaxLengthMessageOf255()
    ensures MaxLengthMessage("name", 255) == "The name must be less or equal than 255 characters"
  {
    NumberToStringExamples();
    assert "The " + "name" == "The name";
    assert "The name" + " must be less or equal than " == "The name must be less or equal than ";
    assert "The name must be less or equal than " + "255" == "The name must be less or equal than 255";
    assert "The name must be less or equal than 255" + " characters"
        == "The name must be less or equal than 255 characters";
  }

  /** A Category entity. Its fields only ever hold properties that pass `Validate`. */
  class Category {
    var name: Value
    var description: Value
    var is_active: Value
    var created_at: Option<Date>

    ghost predicate Valid()
      reads this
    {
      Validate(name, description, is_active).Ok?
    }

    /** The properties the getters read back. */
    function Props(): CategoryProperties
      reads this
    {
      CategoryProperties(name, description, is_active, created_at)
    }

    /** Stores the properties unchanged once they have been validated. */
    constructor FromValid(props: CategoryProperties)
      requires Validate(props.name, props.description, props.is_active).Ok?
      ensures Valid() && Props() == props
    {
      name := props.name;
      description := props.description;
      is_active := props.is_active;
      created_at := props.created_at;
    }

    /**
     * `new Category(props)`: throws the validation error, or returns a new
     * entity that holds exactly the given properties, the `created_at` object
     * included.
     */
    static method Create(props: CategoryProperties) returns (r: Result<Category>)
      ensures r.Err? <==> Validate(props.name, props.description, props.is_active).Err?
      ensures r.Err? ==> Validate(props.name, props.description, props.is_active) == Err(r.error)
      ensures r.Ok? ==> fresh(r.value) && r.value.Valid() && r.value.Props() == props
    {
      var check := Validate(props.name, props.description, props.is_active);
      if check.Err? {
        return Err(check.error);
      }
      var c := new Category.FromValid(props);
      return Ok(c);
    }

    /**
     * `update(name, description)`: validates the new name and description
     * with the construction rules and, if they pass, stores both.
     */
    method Update(name: Value, description: Value) returns (r: Result<()>)
      requires Valid()
      modifies this`name, this`description
      ensures r == Validate(name, description, Undefined)
      ensures r.Ok? ==> this.name == name && this.description == description
      ensures r.Err? ==> this.name == old(this.name) && this.description == old(this.description)
      ensures Valid()
    {
      r := Validate(name, description, Undefined);
      if r.Ok? {
        ValidExactlyWhenFieldsConform(name, description, Undefined);
        ValidExactlyWhenFieldsConform(this.name, this.description, is_active);
        this.name := name;
        this.description := description;
        ValidExactlyWhenFieldsConform(this.name, this.description, is_active);
      }
    }
  }

  // ---------------------------------------------------------------------------
  // The cases of category.spec.ts and category.int.spec.ts
  // ---------------------------------------------------------------------------

  /** The constructor stores the properties and the getters read them back. */
  method ConstructorStoresProperties() returns (category: Category, createdAt: Date)
    ensures category.name == Str("Doc")
    ensures category.description == Str("Documentary")
    ensures category.is_active == Bool(true)
    ensures category.created_at == Some(createdAt)
  {
    createdAt := new Date();
    var props := CategoryProperties(Str("Doc"), Str("Documentary"), Bool(true), Some(createdAt));
    ValidExactlyWhenFieldsConform(props.name, props.description, props.is_active);
    var r := Category.Create(props);
    category := r.value;
  }

  function Repeat(c: char, n: nat): (s: string)
    ensures |s| == n && forall i :: 0 <= i < n ==> s[i] == c
  {
    seq(n, _ => c)
  }

  lemma CreateRejectsInvalidName()
    ensures Validate(Null, Undefined, Undefined) == Err(ValidationError("The name is required"))
    ensures Validate(Str(""), Undefined, Undefined) == Err(ValidationError("The name is required"))
    ensures Validate(Num(5), Undefined, Undefined) == Err(ValidationError("The name must be a string"))
    ensures Validate(Str(Repeat('t', 256)), Undefined, Undefined)
            == Err(ValidationError("The name must be less or equal than 255 characters"))
  {
    var d, a := Undefined, Undefined;
    ValidExactlyWhenFieldsConform(Str("x"), d, a);
    NameErrors(Null, d, a);
    NameErrors(Str(""), d, a);
    NameErrors(Num(5), d, a);
    NameErrors(Str(Repeat('t', 256)), d, a);
  }

  lemma CreateRejectsInvalidDescriptionAndIsActive()
    ensures Validate(Str("Movie"), Num(5), Undefined) == Err(ValidationError("The description must be a string"))
    ensures Validate(Str("fake"), Num(5), Undefined) == Err(ValidationError("The description must be a string"))
    ensures Validate(Str("fake"), Undefined, Str("5")) == Err(ValidationError("The is_active must be a boolean"))
  {
    ValidExactlyWhenFieldsConform(Str("Movie"), Undefined, Undefined);
    ValidExactlyWhenFieldsConform(Str("fake"), Undefined, Undefined);
    DescriptionError(Str("Movie"), Num(5), Undefined);
    DescriptionError(Str("fake"), Num(5), Undefined);
    IsActiveError(Str("fake"), Undefined, Str("5"));
  }

  lemma CreateAcceptsValidProperties()
    ensures Validate(Str("Movie"), Undefined, Undefined).Ok?
    ensures Validate(Str("Movie"), Str("some description"), Undefined).Ok?
    ensures Validate(Str("Movie"), Null, Undefined).Ok?
    ensures Validate(Str("Movie"), Str("some description"), Bool(false)).Ok?
    ensures Validate(Str("Movie"), Str("other description"), Bool(true)).Ok?
  {
    ValidExactlyWhenFieldsConform(Str("Movie"), Undefined, Undefined);
    ValidExactlyWhenFieldsConform(Str("Movie"), Str("some description"), Undefined);
    ValidExactlyWhenFieldsConform(Str("Movie"), Null, Undefined);
    ValidExactlyWhenFieldsConform(Str("Movie"), Str("some description"), Bool(false));
    ValidExactlyWhenFieldsConform(Str("Movie"), Str("other description"), Bool(true));
  }

  /** `update` rejects what construction rejects, with the same messages. */
  method UpdateRejectsInvalidArguments() returns (results: seq<Result<()>>)
    ensures results == [
      Err(ValidationError("The name is required")),
      Err(ValidationError("The name is required")),
      Err(ValidationError("The name must be a string")),
      Err(ValidationError("The name must be less or equal than 255 characters")),
      Err(ValidationError("The description must be a string"))]
  {
    ValidExactlyWhenFieldsConform(Str("Movie"), Undefined, Undefined);
    var created := Category.Create(CategoryProperties(Str("Movie"), Undefined, Undefined, None));
    var category := created.value;
    CreateRejectsInvalidName();
    var d := Null;
    ValidExactlyWhenFieldsConform(Str("x"), d, Undefined);
    NameErrors(Null, d, Undefined);
    NameErrors(Str(""), d, Undefined);
    NameErrors(Num(5), d, Undefined);
    NameErrors(Str(Repeat('t', 256)), d, Undefined);
    var r1 := category.Update(Null, d);
    var r2 := category.Update(Str(""), d);
    var r3 := category.Update(Num(5), d);
    var r4 := category.Update(Str(Repeat('t', 256)), d);
    ValidExactlyWhenFieldsConform(Str("test"), Undefined, Undefined);
    DescriptionError(Str("test"), Num(5), Undefined);
    var r5 := category.Update(Str("test"), Num(5));
    results := [r1, r2, r3, r4, r5];
  }

  /** `update` with a valid name and a null or string description stores both. */
  method UpdateValidCategory() returns (category: Category, r1: Result<()>, descriptionAfterFirst: Value, r2: Result<()>)
    ensures r1 == Ok(()) && descriptionAfterFirst == Null
    ensures r2 == Ok(())
    ensures category.name == Str("name changed")
    ensures category.description == Str("update description")
  {
    ValidExactlyWhenFieldsConform(Str("Movie"), Undefined, Undefined);
    var created := Category.Create(CategoryProperties(Str("Movie"), Undefined, Undefined, None));
    category := created.value;
    ValidExactlyWhenFieldsConform(Str("name changed"), Null, Undefined);
    r1 := category.Update(Str("name changed"), Null);
    descriptionAfterFirst := category.description;
    ValidExactlyWhenFieldsConform(Str("name changed"), Str("update description"), Undefined);
    r2 := category.Update(Str("name changed"), Str("update description"));
  }
}
