/**
 * The form-validation rules the sign-in and registration forms declare: `required` and
 * `minLength`. Each field reports the message of its first failing rule.
 */
module FormRules {
  import opened Wrappers
  import JsText
  import Session

  /** A form field: None when it was never filled in. */
  type Input = Option<string>

  /** `required`: a missing or empty value fails. */
  predicate Filled(value: Input) {
    Session.Present(value)
  }

  /** `minLength`: measured in UTF-16 code units, as JavaScript's `length` is. */
  predicate LongEnough(value: string, min: nat) {
    JsText.Utf16Length(value) >= min
  }

  /** The message of a field that has only the `required` rule. */
  function RequiredError(value: Input, message: string): (e: Option<string>)
    ensures e.None? <==> Filled(value)
    ensures e.Some? ==> e.value == message
  {
    if Filled(value) then None else Some(message)
  }

  /** The messages shown, in field order. */
  function Messages(errors: seq<Option<string>>): (r: seq<string>)
    ensures r == [] <==> forall i :: 0 <= i < |errors| ==> errors[i].None?
    ensures |r| <= |errors|
  {
    if errors == [] then []
    else (if errors[0].Some? then [errors[0].value] else []) + Messages(errors[1..])
  }
}
