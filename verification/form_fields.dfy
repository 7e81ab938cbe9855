/** What the customer and vendor dialogs share: how an optional value is
    turned into field text, how it is printed into a template string, when
    a field counts as empty, and the validation rules both schemas apply to
    name and email. */
module FormFields {
  import opened Wrappers

  /** `value || ''` for an optional string. */
  function OrBlank(value: Option<string>): (r: Option<string>)
    ensures r.Some?
    ensures value.Some? ==> r == value
    ensures value.None? ==> r == Some("")
  {
    Some(value.GetOr(""))
  }

  /** `${value}` in a template literal: `undefined` for an unset field. */
  function Show(value: Option<string>): string {
    match value
    case None => "undefined"
    case Some(s) => s
  }

  /** A form field that counts as false: unset or empty. */
  predicate Empty(value: Option<string>) {
    value.None? || value == Some("")
  }

  /** A per-field validation failure. */
  datatype FieldError = NameTooShort | InvalidEmail

  /** `z.string().min(2)` on the name. */
  const MinNameLength: nat := 2

  /** The schema's checks on name and email: the failing fields, in form
      order. */
  function Validate(name: string, email: string, isEmail: string -> bool): (r: seq<FieldError>)
    ensures NameTooShort in r <==> |name| < MinNameLength
    ensures InvalidEmail in r <==> !isEmail(email)
    ensures |r| <= 2
  {
    (if |name| < MinNameLength then [NameTooShort] else [])
    + (if isEmail(email) then [] else [InvalidEmail])
  }
}
