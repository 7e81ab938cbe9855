/** The customer dialog: the values it is pre-filled with, the validation
    rules, what a submission turns into, the guard on the suggestion
    request, and adding a suggestion to one of the related-entity fields. */
module CustomerForm {
  import opened Wrappers
  import opened Entities
  import opened RelatedList
  import opened FormFields

  /** The form's fields; list fields hold comma-separated text. */
  datatype Values = Values(
    name: string,
    email: string,
    phone: Option<string>,
    address: Option<string>,
    notes: Option<string>,
    relatedOrganizations: Option<string>,
    relatedPeople: Option<string>,
    relatedVendors: Option<string>)

  /** The form plus the suggestions currently on show. */
  datatype Dialog = Dialog(values: Values, suggestions: Option<Suggestions>)

  /** The fields of a form with no customer: every one the empty string. */
  const Blank := Values("", "", Some(""), Some(""), Some(""), Some(""), Some(""), Some(""))

  /** `defaultValues`: blank for a new customer; for an existing one its
      scalar fields, an unset optional one as empty text, and its lists
      joined with ", ". */
  function DefaultValues(customer: Option<Customer>): (v: Values)
    ensures customer.None? ==> v == Blank
    ensures customer.Some? ==>
              var c := customer.value;
              && v.name == c.name && v.email == c.email
              && v.phone == OrBlank(c.phone) && v.address == OrBlank(c.address) && v.notes == OrBlank(c.notes)
              && v.relatedOrganizations.Some? && v.relatedPeople.Some? && v.relatedVendors.Some?
  {
    match customer
    case None => Blank
    case Some(c) =>
      Values(c.name, c.email, OrBlank(c.phone), OrBlank(c.address), OrBlank(c.notes),
             Some(JoinField(c.relatedOrganizations)), Some(JoinField(c.relatedPeople)),
             Some(JoinField(c.relatedVendors)))
  }

  /** `customer?.id || crypto.randomUUID()`: the edited customer's id when it
      has a non-empty one, otherwise the fresh id. */
  function ChooseId(customer: Option<Customer>, freshId: string): (r: string)
    ensures customer.Some? && customer.value.id != "" ==> r == customer.value.id
    ensures customer.None? || customer.value.id == "" ==> r == freshId
  {
    if customer.Some? && customer.value.id != "" then customer.value.id else freshId
  }

  /** `onSubmit`: the record handed to the page. The id is kept on edit and
      fresh on create; the scalar fields are the form's; every list is set
      and holds only clean items, and an empty list field gives an empty
      list. */
  function Submit(values: Values, customer: Option<Customer>, freshId: string): (r: Customer)
    ensures customer.Some? && customer.value.id != "" ==> r.id == customer.value.id
    ensures customer.None? || customer.value.id == "" ==> r.id == freshId
    ensures r.name == values.name && r.email == values.email
    ensures r.phone == values.phone && r.address == values.address && r.notes == values.notes
    ensures r.relatedOrganizations.Some? && AllClean(r.relatedOrganizations.value)
    ensures r.relatedPeople.Some? && AllClean(r.relatedPeople.value)
    ensures r.relatedVendors.Some? && AllClean(r.relatedVendors.value)
    ensures values.relatedOrganizations.None? || values.relatedOrganizations == Some("") ==>
              r.relatedOrganizations == Some([])
    ensures values.relatedPeople.None? || values.relatedPeople == Some("") ==>
              r.relatedPeople == Some([])
    ensures values.relatedVendors.None? || values.relatedVendors == Some("") ==>
              r.relatedVendors == Some([])
  {
    Customer(
      ChooseId(customer, freshId),
      values.name, values.email, values.phone, values.address, values.notes,
      Some(ParseField(values.relatedOrganizations)),
      Some(ParseField(values.relatedPeople)),
      Some(ParseField(values.relatedVendors)))
  }

  /** `form.handleSubmit(onSubmit)`: a record reaches the page exactly when
      validation passes, and then its name has at least two characters and
      its email is accepted; otherwise the failing fields are reported. */
  function HandleSubmit(values: Values, customer: Option<Customer>, freshId: string, isEmail: string -> bool)
    : (r: Result<Customer, seq<FieldError>>)
    ensures r.Success? <==> |values.name| >= MinNameLength && isEmail(values.email)
    ensures r.Success? ==> |r.value.name| >= MinNameLength && isEmail(r.value.email)
    ensures r.Success? ==> r.value == Submit(values, customer, freshId)
    ensures r.Failure? ==> r.error != [] && r.error == Validate(values.name, values.email, isEmail)
  {
    var errors := Validate(values.name, values.email, isEmail);
    if errors == [] then Success(Submit(values, customer, freshId)) else Failure(errors)
  }

  /** The text sent to the suggestion service, or `None` when both name and
      notes are empty, in which case no request is made. */
  function SuggestionRequest(values: Values): (r: Option<string>)
    ensures r.None? <==> values.name == "" && Empty(values.notes)
    ensures r.Some? ==> "Name: " + values.name <= r.value
  {
    if values.name == "" && Empty(values.notes) then None
    else
      var prompt := "Name: " + values.name + ", Email: " + values.email
                    + ", Address: " + Show(values.address) + ", Notes: " + Show(values.notes);
      assert prompt == ("Name: " + values.name) + (", Email: " + values.email
                    + ", Address: " + Show(values.address) + ", Notes: " + Show(values.notes));
      Some(prompt)
  }

  /** `handleGetAiSuggestions` with the service's answer `outcome` (`None`
      when the call throws). The form values are never touched; a blocked
      request changes nothing; otherwise the panel shows the answer, or
      nothing after a failure. */
  function GetSuggestions(d: Dialog, outcome: Option<Suggestions>): (r: Dialog)
    ensures r.values == d.values
    ensures SuggestionRequest(d.values).None? ==> r == d
    ensures SuggestionRequest(d.values).Some? ==> r.suggestions == outcome
  {
    if SuggestionRequest(d.values).None? then d else d.(suggestions := outcome)
  }

  /** The list field a suggestion kind feeds. */
  function RelatedField(v: Values, kind: SuggestionKind): Option<string> {
    match kind
    case Organizations => v.relatedOrganizations
    case People => v.relatedPeople
    case Vendors => v.relatedVendors
  }

  /** `addSuggestionToField` as wired to the suggestion panel: the field of
      that kind gets the suggestion appended; every other field is kept. */
  function AddSuggestion(v: Values, kind: SuggestionKind, suggestion: string): (r: Values)
    ensures RelatedField(r, kind) == Some(AppendSuggestion(RelatedField(v, kind), suggestion))
    ensures forall k :: k != kind ==> RelatedField(r, k) == RelatedField(v, k)
    ensures r.name == v.name && r.email == v.email && r.phone == v.phone
    ensures r.address == v.address && r.notes == v.notes
  {
    var text := Some(AppendSuggestion(RelatedField(v, kind), suggestion));
    match kind
    case Organizations => v.(relatedOrganizations := text)
    case People => v.(relatedPeople := text)
    case Vendors => v.(relatedVendors := text)
  }

  /** The list a submission stores for one suggestion kind. */
  function SubmittedList(c: Customer, kind: SuggestionKind): Option<seq<string>> {
    match kind
    case Organizations => c.relatedOrganizations
    case People => c.relatedPeople
    case Vendors => c.relatedVendors
  }

  /** Adding a clean suggestion and submitting stores the field's previous
      items followed by the suggestion, and the other lists as before. */
  lemma AddThenSubmit(v: Values, kind: SuggestionKind, suggestion: string,
                      customer: Option<Customer>, freshId: string)
    requires CleanItem(suggestion)
    ensures SubmittedList(Submit(AddSuggestion(v, kind, suggestion), customer, freshId), kind)
            == Some(ParseField(RelatedField(v, kind)) + [suggestion])
    ensures forall k :: k != kind ==>
              SubmittedList(Submit(AddSuggestion(v, kind, suggestion), customer, freshId), k)
              == SubmittedList(Submit(v, customer, freshId), k)
  {
    AppendParses(RelatedField(v, kind), suggestion);
  }

  /** The record an untouched edit dialog saves: the same customer, with an
      unset optional field turned into empty text and an unset list into
      the empty list. */
  function Normalised(c: Customer): Customer {
    c.(phone := OrBlank(c.phone), address := OrBlank(c.address), notes := OrBlank(c.notes),
       relatedOrganizations := Some(c.relatedOrganizations.GetOr([])),
       relatedPeople := Some(c.relatedPeople.GetOr([])),
       relatedVendors := Some(c.relatedVendors.GetOr([])))
  }

  /** Opening a customer for edit and submitting without changes saves the
      same customer (up to unset fields becoming empty), provided its id is
      non-empty and its list items are clean. */
  lemma EditRoundTrip(c: Customer, freshId: string)
    requires c.id != ""
    requires AllClean(c.relatedOrganizations.GetOr([]))
    requires AllClean(c.relatedPeople.GetOr([]))
    requires AllClean(c.relatedVendors.GetOr([]))
    ensures Submit(DefaultValues(Some(c)), Some(c), freshId) == Normalised(c)
  {
    FieldRoundTrip(c.relatedOrganizations);
    FieldRoundTrip(c.relatedPeople);
    FieldRoundTrip(c.relatedVendors);
  }
}
