# Domain-layer validation of the catalog back end, in Dafny

This project models the validation core of a catalog administration back end
(entities built from validated property bags):

- **`ValidatorRules`** (`validator_rules.dfy`): the fluent field validator.
  `values(value, property)` binds a value to a field name. The rules
  `required()`, `string()`, `maxLength(n)` and `boolean()` each either return
  the same validator or throw a `ValidationError` with a fixed message that
  names the field. A chain such as `required().string().maxLength(255)` is a
  fold over a list of rules that stops at the first error. JavaScript values
  are the datatype `Js.Value` (`Null | Undefined | Str | Num | Bool | Obj`).
  Thrown errors are the `Err` case of `Js.Result`.
- **Category** (`category.dfy`): the per-field chains of the Category entity.
  `name` uses `required().string().maxLength(255)`, `description` uses
  `string()` and `is_active` uses `boolean()`. `Category` is a class.
  `Create` returns the validation error or a new entity holding exactly the
  given properties. `Update(name, description)` re-validates and then changes
  the two fields in place.
- **`UniqueEntityId`** (`unique_entity_id.dfy`): the identifier value object.
  The base class receives `id || uuidv4()`. `validate()` then checks
  `this.id` against the UUID string syntax of section 3 of RFC 4122
  (8-4-4-4-12 hexadecimal digits). Version-4 generation follows section 4.4
  of RFC 4122, with its 16 random bytes passed in as a parameter. The module
  proves that formatted bytes always have the UUID syntax, that parsing them
  gives the bytes back, and that a generated id has version nibble `4` and
  variant `8`, `9`, `a` or `b`.
- **`ClassValidatorFields`** (`class_validator_fields.dfy`): the schema
  validator. `validate(data)` takes the result of `validateSync(data)` as a
  list of `(property, constraints)` records. Its loop writes each property's
  messages into the `errors` map. On an empty list it stores `data` as
  `validatedData`. It returns whether the list was empty.

The implementations of `validator-rules.ts` and `category.ts` are not part of
this model. Their behaviour is taken from their tests,
`validator-rules.spec.ts`, `category.spec.ts` and `category.int.spec.ts`.
Every asserted test case is a lemma or a client method here.

Two places where the code as written does not do what it evidently means to do:

- `UniqueEntityId` validates `this.id`. That is the raw constructor argument,
  a parameter property assigned after `super(...)`, not the value given to
  the base. So construction without an argument, or with `""`, always throws
  `InvalidUuidError`, even though
  src/@seedwork/domain/unique-entity-id.vo.spec.ts:25-30 expects a generated
  id to be accepted. The model follows the code (`New`) and records the
  difference under Findings, with the intended construction beside it (`NewIntended`).
- `ClassValidatorFields.errors` starts as `null`, and `validate` writes into
  it without creating a map. On an object whose `errors` is still `null`, the
  first violation therefore raises JavaScript's `TypeError` instead of
  returning `false`. The model keeps this as an outcome:
  `Err(TypeError(property))`, with the state unchanged, and records the
  difference under Findings, with an intended constructor that starts from an
  empty map (`ClassValidatorFields.Intended`).

## Model

| member | source | states |
|---|---|---|
| `ValidatorRules.Values` | src/@seedwork/validators/validator-rules.spec.ts:42-47 | the validator holds exactly the given value and the given property name |
| `ValidatorRules.ValuesBindsValueAndProperty` | src/@seedwork/validators/validator-rules.spec.ts:42-47 | the test's case: `values("some value", "field")` holds "some value" and "field" |
| `ValidatorRules.Validator.Required` | src/@seedwork/validators/validator-rules.spec.ts:49-82 | on success it returns the same validator; on failure the error is "The <field> is required" |
| `ValidatorRules.RequiredFailsExactlyWhenMissing` | src/@seedwork/validators/validator-rules.spec.ts:49-82 | `required` fails if and only if the value is null, undefined or ""; `0` and `false` pass |
| `ValidatorRules.RequiredCases` | src/@seedwork/validators/validator-rules.spec.ts:49-82 | the test's cases: null, undefined and "" throw the exact message; "testStr", 5, 0 and false pass |
| `ValidatorRules.Validator.String` | src/@seedwork/validators/validator-rules.spec.ts:84-116 | on success it returns the same validator; on failure the error is "The <field> must be a string" |
| `ValidatorRules.StringCases` | src/@seedwork/validators/validator-rules.spec.ts:84-116 | 5, {} and false throw the exact message; null, undefined and "test" pass |
| `ValidatorRules.StringAndBooleanExclusive` | src/@seedwork/validators/validator-rules.spec.ts:84-183 | a present value passes `string` if and only if it is a string, and `boolean` if and only if it is a boolean, never both |
| `ValidatorRules.Validator.MaxLength` | src/@seedwork/validators/validator-rules.spec.ts:118-148 | on success it returns the same validator; on failure the error is "The <field> must be less or equal than <n> characters" |
| `ValidatorRules.MaxLengthFailsExactlyOnLongStrings` | src/@seedwork/validators/validator-rules.spec.ts:118-148 | `maxLength(n)` fails if and only if the value is a string longer than n |
| `ValidatorRules.MaxLengthCases` | src/@seedwork/validators/validator-rules.spec.ts:118-148 | "fake_test" with 5 throws "The field must be less or equal than 5 characters"; "fake_test", null and undefined pass with 10 |
| `ValidatorRules.MaxLengthMessageOfFive` | src/@seedwork/validators/validator-rules.spec.ts:123 | the interpolated message for the bound 5 is exactly the test's text |
| `Js.NumberToString` | src/@seedwork/validators/validator-rules.spec.ts:123 | the bound interpolated into the length message is a non-empty string of decimal digits without a leading zero |
| `ValidatorRules.Validator.Boolean` | src/@seedwork/validators/validator-rules.spec.ts:151-183 | on success it returns the same validator; on failure the error is "The <field> must be a boolean" |
| `ValidatorRules.BooleanCases` | src/@seedwork/validators/validator-rules.spec.ts:151-183 | 5, "true" and "false" throw the exact message; undefined, null, false and true pass |
| `ValidatorRules.AbsentPassesAllButRequired` | src/@seedwork/validators/validator-rules.spec.ts:84-183 | on null or undefined, any chain without `required` passes and returns the same validator |
| `ValidatorRules.Chain` | src/@seedwork/validators/validator-rules.spec.ts:212-219 | a passing chain hands back the validator it started from |
| `ValidatorRules.ChainPassesIffEveryRulePasses` | src/@seedwork/validators/validator-rules.spec.ts:212-219 | a chain passes if and only if every one of its rules passes on the bound value |
| `ValidatorRules.ChainThrowsFirstFailure` | src/@seedwork/validators/validator-rules.spec.ts:185-210 | when rules 0..k-1 pass and rule k fails, the chain throws rule k's error |
| `ValidatorRules.ChainErrorIsFirstFailure` | src/@seedwork/validators/validator-rules.spec.ts:185-210 | every error a chain throws is the error of a failing rule all of whose predecessors pass |
| `ValidatorRules.ChainIgnoresRulesAfterFailure` | src/@seedwork/validators/validator-rules.spec.ts:185-189 | rules appended after a failing chain are never reached: the error is unchanged |
| `ValidatorRules.RequiredStringMaxLengthOutcome` | src/@seedwork/validators/validator-rules.spec.ts:185-199 | `required().string().maxLength(n)` passes exactly on non-empty strings of at most n characters, and otherwise throws the required, string or length message, in that priority |
| `ValidatorRules.CombinedRulesNullRequiredStringMaxLength` | src/@seedwork/validators/validator-rules.spec.ts:186-189 | null in `required().string().maxLength(5)` throws only "The field is required" |
| `ValidatorRules.CombinedRulesNumberRequiredString` | src/@seedwork/validators/validator-rules.spec.ts:191-194 | 5 in `required().string()` throws "The field must be a string" |
| `ValidatorRules.CombinedRulesLongRequiredStringMaxLength` | src/@seedwork/validators/validator-rules.spec.ts:196-199 | "abcdef" in `required().string().maxLength(5)` throws the length message for 5 |
| `ValidatorRules.CombinedRulesNullRequiredBoolean` | src/@seedwork/validators/validator-rules.spec.ts:201-204 | null in `required().boolean()` throws "The field is required" |
| `ValidatorRules.CombinedRulesNumberRequiredBoolean` | src/@seedwork/validators/validator-rules.spec.ts:206-209 | 55 in `required().boolean()` throws "The field must be a boolean" |
| `ValidatorRules.CombinedRulesPassCases` | src/@seedwork/validators/validator-rules.spec.ts:212-219 | the test's passing chains pass |
| `Js.DecimalValueOfNumberToString` | src/@seedwork/validators/validator-rules.spec.ts:123 | the bound interpolated into the length message reads back as the bound itself |
| `Js.NumberToStringInjective` | src/@seedwork/validators/validator-rules.spec.ts:123 | different bounds give different message texts for the bound |
| `Categories.NameRules` | src/category/domain/entities/category.int.spec.ts:8-19 | the name's chain: `required().string().maxLength(255)` |
| `Categories.DescriptionRules` | src/category/domain/entities/category.int.spec.ts:22-32 | the description's chain: `string()` |
| `Categories.IsActiveRules` | src/category/domain/entities/category.int.spec.ts:34-38 | the is_active chain: `boolean()` |
| `Categories.NameCheck` | src/category/domain/entities/category.int.spec.ts:8-19 | the name's chain run on the name, bound to the field name "name" |
| `Categories.DescriptionCheck` | src/category/domain/entities/category.int.spec.ts:22-32 | the description's chain run on the description, bound to "description" |
| `Categories.IsActiveCheck` | src/category/domain/entities/category.int.spec.ts:34-38 | the is_active chain run on is_active, bound to "is_active" |
| `Categories.Validate` | src/category/domain/entities/category.int.spec.ts:8-38 | validation passes if and only if all three field chains pass; otherwise it throws the error of one of the failing chains |
| `Categories.ValidExactlyWhenFieldsConform` | src/category/domain/entities/category.int.spec.ts:8-56 | properties are accepted exactly when the name is a string of 1 to 255 characters, the description is a string or missing, and is_active is a boolean or missing |
| `Categories.SoleFailureIsReported` | src/category/domain/entities/category.int.spec.ts:8-38 | when only one field's chain fails, its error is the one thrown |
| `Categories.NameCheckErrors` | src/category/domain/entities/category.int.spec.ts:8-19 | the name chain throws "The name is required" for null, undefined and "", "The name must be a string" for other non-strings, and the 255-character message for longer strings |
| `Categories.NameErrors` | src/category/domain/entities/category.int.spec.ts:8-19 | with valid other fields, construction reports those three name messages |
| `Categories.DescriptionCheckError` | src/category/domain/entities/category.int.spec.ts:22-32 | a present non-string description fails with "The description must be a string" |
| `Categories.DescriptionError` | src/category/domain/entities/category.int.spec.ts:22-32 | with valid other fields, construction reports that description message |
| `Categories.IsActiveCheckError` | src/category/domain/entities/category.int.spec.ts:34-38 | a present non-boolean is_active fails with "The is_active must be a boolean" |
| `Categories.IsActiveError` | src/category/domain/entities/category.int.spec.ts:34-38 | with valid other fields, construction reports that is_active message |
| `Categories.MaxLengthMessageOf255` | src/category/domain/entities/category.int.spec.ts:17-19 | the name's length message is exactly "The name must be less or equal than 255 characters" |
| `Categories.CreateRejectsInvalidName` | src/category/domain/entities/category.int.spec.ts:8-19 | name null, "", 5 and 256 't's give the test's exact messages |
| `Categories.CreateRejectsInvalidDescriptionAndIsActive` | src/category/domain/entities/category.int.spec.ts:22-38 | description 5 and is_active "5" give the test's exact messages |
| `Categories.CreateAcceptsValidProperties` | src/category/domain/entities/category.int.spec.ts:40-56 | an omitted, string or null description and an omitted, true or false is_active are accepted |
| `Categories.Category.Create` | src/category/domain/entities/category.spec.ts:8-22 | construction throws exactly the validation error, or returns a new valid entity whose properties are the given ones, the same `created_at` object included |
| `Categories.Category.FromValid` | src/category/domain/entities/category.spec.ts:16-22 | an entity built from validated properties holds them unchanged and is valid |
| `Categories.ConstructorStoresProperties` | src/category/domain/entities/category.spec.ts:4-23 | after construction from the test's properties, name, description, is_active and created_at read back as supplied |
| `Categories.Category.Update` | src/category/domain/entities/category.int.spec.ts:59-92 | the outcome is the construction validation of the new name and description; on success both are stored, on failure neither changes, and the entity stays valid |
| `Categories.UpdateRejectsInvalidArguments` | src/category/domain/entities/category.int.spec.ts:60-84 | update with null, "", 5 or 256 't's as name, or 5 as description, throws the test's exact messages |
| `Categories.UpdateValidCategory` | src/category/domain/entities/category.int.spec.ts:87-92 | both updates succeed: the first, with a null description, leaves the description null; the second stores the new name and the string description |
| `UniqueEntityIds.IsUuid` | src/@seedwork/domain/value-objects/unique-entity-id.vo.ts:13 | the UUID string syntax: 36 characters, hyphens at positions 8, 13, 18 and 23, hexadecimal digits of either case elsewhere |
| `UniqueEntityIds.UuidValidate` | src/@seedwork/domain/value-objects/unique-entity-id.vo.ts:13 | `uuidValidate(x)` holds only for a supplied string with the UUID syntax; a missing argument fails |
| `UniqueEntityIds.BaseValue` | src/@seedwork/domain/value-objects/unique-entity-id.vo.ts:8 | the base receives the argument when it is a non-empty string, otherwise the generated UUID, also for "" |
| `UniqueEntityIds.New` | src/@seedwork/domain/value-objects/unique-entity-id.vo.ts:7-17 | construction succeeds exactly when the raw argument is a UUID string; it then keeps the argument as `id` and as the value; otherwise it throws `InvalidUuidError` |
| `UniqueEntityIds.NoArgumentIsRejected` | src/@seedwork/domain/value-objects/unique-entity-id.vo.ts:7-13 | without an argument, or with "", construction throws even though the generated UUID is well formed |
| `UniqueEntityIds.GenerateV4` | src/@seedwork/domain/value-objects/unique-entity-id.vo.ts:8 | a generated id has the UUID syntax, version 4, variant 8/9/a/b, and denotes the random bytes with version and variant bits set |
| `UniqueEntityIds.V4Bytes` | src/@seedwork/domain/value-objects/unique-entity-id.vo.ts:8 | the bytes of a version-4 UUID: version nibble 4, variant bits 10, the other random bits kept |
| `UniqueEntityIds.FormatIsUuid` | src/@seedwork/domain/value-objects/unique-entity-id.vo.ts:13 | any 16 bytes in string form pass the UUID syntax check |
| `UniqueEntityIds.ParseFormat` | src/@seedwork/domain/value-objects/unique-entity-id.vo.ts:13 | parsing the string form of 16 bytes gives the same bytes back |
| `UniqueEntityIds.NewIntended` | src/@seedwork/domain/unique-entity-id.vo.spec.ts:25-30 | the intended construction validates the value given to the base and stores it as `id` |
| `UniqueEntityIds.GeneratedIdIsAccepted` | src/@seedwork/domain/unique-entity-id.vo.spec.ts:25-30 | intended construction without an argument succeeds and its `id` passes UUID validation |
| `UniqueEntityIds.IntendedAgreesOnSuppliedIds` | src/@seedwork/domain/value-objects/unique-entity-id.vo.ts:7-9 | for a supplied non-empty argument, the intended construction gives the same result as the code as written |
| `UniqueEntityIds.FakeIdIsRejected` | src/@seedwork/domain/unique-entity-id.vo.spec.ts:11-15 | "Fake id" throws `InvalidUuidError` |
| `UniqueEntityIds.ValidUuidIsAccepted` | src/@seedwork/domain/unique-entity-id.vo.spec.ts:17-23 | "d8bb2696-a2e3-49a2-8e33-6782fc142855" is accepted and `id` is exactly that string |
| `ValidatorFields.Messages` | src/@seedwork/validators/class-validator-fields.ts:13 | the messages of a violation are its constraints' messages, in order |
| `ValidatorFields.Fill` | src/@seedwork/validators/class-validator-fields.ts:11-14 | the map after writing each violation's messages under its property, in order; the reference the loop of `Validate` is proved against |
| `ValidatorFields.FillKeys` | src/@seedwork/validators/class-validator-fields.ts:11-14 | after the loop, the keys are the previous keys plus exactly the reported properties |
| `ValidatorFields.FillLastReportWins` | src/@seedwork/validators/class-validator-fields.ts:13 | a property reported several times maps to the messages of its last report |
| `ValidatorFields.FillKeepsUnreported` | src/@seedwork/validators/class-validator-fields.ts:13 | a key no violation reports keeps its entry, or stays absent |
| `ValidatorFields.ClassValidatorFields.constructor` | src/@seedwork/validators/class-validator-fields.ts:6-7 | `errors` and `validatedData` start as null |
| `ValidatorFields.ClassValidatorFields.Intended` | src/@seedwork/validators/class-validator-fields.ts:6 | the intended initial state: `errors` an empty map, `validatedData` null |
| `ValidatorFields.ClassValidatorFields.Validate` | src/@seedwork/validators/class-validator-fields.ts:8-19 | returns true exactly when there are no violations; then `validatedData` is the data and `errors` is untouched; otherwise `validatedData` is kept and `errors` is the old map filled per violation, or, with `errors` null, a `TypeError` is raised |
| `ValidatorFields.IntendedValidatorReportsFailures` | src/@seedwork/validators/class-validator-fields.ts:6-18 | with the map created up front, validation of a fresh validator returns whether there were no violations, its map is the filled empty map, and its keys are exactly the reported properties |
| `ValidatorFields.FreshValidatorThrowsOnFirstFailure` | src/@seedwork/validators/class-validator-fields.ts:6-13 | on a fresh validator, a failing validation raises `TypeError` for the first reported property |

## Left out

- The implementations of `ValidatorRules` and `Category` are not part of this model. Their rules, messages and chains are taken from the tests.
- `Validator.MaxLength`: the bound is a natural number. Negative or fractional bounds are not modelled.
- `Validator.MaxLength`: only strings can fail. A non-string value with its own `length` property, such as an array, is not modelled.
- `Validator.MaxLength`: length counts Dafny characters. JavaScript counts UTF-16 code units, which differ for characters outside the Basic Multilingual Plane.
- JavaScript numbers are integers here. Fractions, `NaN` and the infinities are not modelled.
- `Categories.Validate`: when several fields are invalid, the contract does not say which error is thrown. No test pins the order (the function checks name, then description, then is_active).
- `Categories.Category.Update`: the contract says a failed update changes nothing. The model gets this by validating before assigning. Neither category.int.spec.ts nor category.spec.ts asserts it.
- Category defaults: description `null`, is_active `true`, created_at "now". `category.ts` is not modelled, and neither Category test asserts a default. Construction stores the given properties unchanged.
- `activate`/`deactivate`, the Category's own id, entity equality by id, and the `ValueObject` base with its by-value equality: these live in `category.ts`, the entity base and `value-object.ts`, which are not modelled.
- The clock: `created_at` is an opaque `Date` object. Only its identity matters.
- `uuidv4` randomness: the 16 random bytes are a parameter. The generated string is also passed to `New` when a non-empty argument is supplied. That matches `||` not calling `uuidv4` when a non-empty argument is supplied, because the string is then not used. For the argument `""`, `uuidv4` is called and its result goes to the base, as `BaseValue` states.
- `UniqueEntityIds.IsUuid`: it checks only the section 3 syntax of RFC 4122. The `uuid` library's own `validate` is not part of this model, and it may also restrict the version and variant digits.
- The `InvalidUuidError` message and the text of JavaScript's `TypeError` message: the error classes are not part of this model. The model records only which error is raised, and for `TypeError` which property was being set.
- The constraints of a `Violation` are an ordered list that is always present, and `Constraint.name` (the key) is never read. `class-validator` gives `constraints` as an object, so its keys are distinct. An error with only `children` has no `constraints`, and `Object.values(undefined)` then throws `TypeError`. Neither case is modelled.
- `validateSync` and the `class-validator` decorators: a foreign library. Its result is the `violations` parameter.
- The Jest spies that check `validate` was called: `New` evaluates the check on every path, so no construction skips it. The spies themselves are not modelled.

## Findings

| source | as written | input that shows it | evidently intended | confidence | as-written member | corrected member |
|---|---|---|---|---|---|---|
| src/@seedwork/domain/value-objects/unique-entity-id.vo.ts:7-13 | `validate()` checks `this.id`, the raw argument, not the value passed to the base | `new UniqueEntityId()` or `new UniqueEntityId("")`: throws `InvalidUuidError` whatever UUID is generated | validate the value given to the base and expose it as `id`, so a generated id is accepted (as src/@seedwork/domain/unique-entity-id.vo.spec.ts:25-30 expects; that test imports the sibling src/@seedwork/domain/unique-entity-id.vo.ts, not this file, so the intent is read from it by analogy) | not executed; high | `UniqueEntityIds.NoArgumentIsRejected` | `UniqueEntityIds.NewIntended` |
| src/@seedwork/validators/class-validator-fields.ts:6-13 | `errors` starts as `null` and the loop assigns `this.errors[field]` without creating a map | a fresh validator given data with one violation: setting a property of `null` throws `TypeError` instead of returning `false` | `errors` starts as an empty map, so a failing validation returns `false` and the map holds each reported property's messages. The corrected contract covers only a fresh validator. Resetting `this.errors = {}` at the start of each failing `validate` is an equally plausible fix. The two differ on a reused validator: this model keeps the earlier keys, and a per-call reset would clear them | not executed; high | `ValidatorFields.FreshValidatorThrowsOnFirstFailure` | `ValidatorFields.IntendedValidatorReportsFailures` |
