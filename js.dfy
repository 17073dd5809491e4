/**
 * The JavaScript values, errors and conversions that the domain layer's
 * validators observe. Everything a validator can tell apart about a value is
 * here: whether it is null, undefined, a string, a number, a boolean or some
 * other object.
 */
module Js {

  /** A JavaScript value as the validation rules see it. Numbers are integers. */
  datatype Value = Null | Undefined | Str(s: string) | Num(n: int) | Bool(b: bool) | Obj

  /** `value === null || value === undefined`: the value is missing. */
  predicate IsAbsent(v: Value) {
    v.Null? || v.Undefined?
  }

  datatype Option<+T> = None | Some(value: T)

  /**
   * The errors the domain layer throws: `ValidationError` with its message,
   * `InvalidUuidError`, and the `TypeError` JavaScript raises when a property
   * is assigned on `null` (it names the property being set).
   */
  datatype Error =
    | ValidationError(message: string)
    | InvalidUuidError
    | TypeError(property: string)

  /** A call that either returns a value or throws an error. */
  datatype Result<+T> = Ok(value: T) | Err(error: Error) {
    predicate IsFailure() {
      Err?
    }

    function PropagateFailure<U>(): Result<U>
      requires Err?
    {
      Err(error)
    }

    function Extract(): T
      requires Ok?
    {
      value
    }
  }

  predicate IsDigit(c: char) {
    '0' <= c <= '9'
  }

  function DigitChar(d: nat): (c: char)
    requires d < 10
    ensures IsDigit(c) && c as int - '0' as int == d
  {
    ('0' as int + d) as char
  }

  /** The decimal text of a non-negative integer, as `${n}` in a template literal gives it. */
  function NumberToString(n: nat): (r: string)
    ensures |r| >= 1
    ensures forall i :: 0 <= i < |r| ==> IsDigit(r[i])
    ensures n >= 10 ==> r[0] != '0'
    decreases n
  {
    if n < 10 then [DigitChar(n)] else NumberToString(n / 10) + [DigitChar(n % 10)]
  }

  /** The number a string of decimal digits denotes. */
  function DecimalValue(s: string): nat
    requires forall i :: 0 <= i < |s| ==> IsDigit(s[i])
  {
    if s == [] then 0
    else
      assert IsDigit(s[|s| - 1]);
      DecimalValue(s[..|s| - 1]) * 10 + (s[|s| - 1] as int - '0' as int)
  }

  /** Reading back the decimal text gives the number: the conversion loses nothing. */
  lemma {:induction false} DecimalValueOfNumberToString(n: nat)
    ensures DecimalValue(NumberToString(n)) == n
    decreases n
  {
    var r := NumberToString(n);
    if n >= 10 {
      DecimalValueOfNumberToString(n / 10);
      assert r[..|r| - 1] == NumberToString(n / 10);
    }
  }

  /** Different numbers have different decimal texts. */
  lemma NumberToStringInjective(m: nat, n: nat)
    requires NumberToString(m) == NumberToString(n)
    ensures m == n
  {
    DecimalValueOfNumberToString(m);
    DecimalValueOfNumberToString(n);
  }

  /** The decimal texts of the bounds that appear in the messages. */
  lemma NumberToStringExamples()
    ensures NumberToString(5) == "5"
    ensures NumberToString(255) == "255"
  {
    assert DigitChar(5) == '5';
    assert NumberToString(2) == "2";
    assert NumberToString(25) == "25";
  }
}
