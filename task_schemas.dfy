/** The request and response schemas of the task API (pydantic models with
    declarative field constraints). The Flask back-end without a database
    declares the same create and update schemas as a fallback, so both
    servers validate with these predicates. */
module TaskSchemas {
  import opened Text

  const TitleMinLength: nat := 1
  const TitleMaxLength: nat := 100
  const DescriptionMaxLength: nat := 500

  /** One key of a JSON request body: left out, sent as `null`, or sent
      with a value. Pydantic tells the three apart (`exclude_unset`). */
  datatype Field<+T> = Absent | Null | Given(value: T)

  datatype FieldName = Title | Description | Completed

  datatype Violation =
    | Missing     // a required key is absent
    | NotAString  // a string field received `null`
    | TooShort    // below `min_length`
    | TooLong     // above `max_length`

  /** One entry of the `details` list of a 400 answer. */
  datatype FieldError = FieldError(field: FieldName, violation: Violation)

  /** The key the error reports as its location (`loc`). */
  function FieldKey(f: FieldName): (k: string)
    ensures k != []
  {
    match f
    case Title => "title"
    case Description => "description"
    case Completed => "completed"
  }

  /** Different fields are reported under different keys. */
  lemma FieldKeyInjective(f: FieldName, g: FieldName)
    ensures FieldKey(f) == FieldKey(g) ==> f == g
  {
    if f != g {
      assert FieldKey(f)[0] != FieldKey(g)[0];
    }
  }

  datatype CreatePayload = CreatePayload(title: Field<string>, description: Field<string>)

  datatype UpdatePayload = UpdatePayload(title: Field<string>, description: Field<string>, completed: Field<bool>)

  /** A string value within `[min, max]` characters. */
  predicate InBounds(s: string, min: nat, max: nat) {
    min <= |s| <= max
  }

  /** The errors pydantic reports for one string field with the given
      length bounds; `required` fields reject an absent key and `null`,
      optional ones default to `None` and accept `null`. */
  function StringFieldErrors(name: FieldName, f: Field<string>, required: bool, min: nat, max: nat): (r: seq<FieldError>)
    ensures |r| <= 1
    ensures forall e :: e in r ==> e.field == name
    ensures r == [] <==> (if f.Given? then InBounds(f.value, min, max) else !required)
  {
    match f
    case Absent => if required then [FieldError(name, Missing)] else []
    case Null => if required then [FieldError(name, NotAString)] else []
    case Given(s) =>
      if |s| < min then [FieldError(name, TooShort)]
      else if |s| > max then [FieldError(name, TooLong)]
      else []
  }

  /** `TaskCreate`: a required title of 1..100 characters and an optional
      description of at most 500. Errors come in field order. */
  function ValidateCreate(p: CreatePayload): (r: seq<FieldError>)
    ensures r == [] <==>
      p.title.Given? && TitleMinLength <= |p.title.value| <= TitleMaxLength &&
      (p.description.Given? ==> |p.description.value| <= DescriptionMaxLength)
    ensures (exists e :: e in r && e.field == Title) <==>
      !(p.title.Given? && InBounds(p.title.value, TitleMinLength, TitleMaxLength))
    ensures forall e :: e in r ==> e.field != Completed
    ensures |r| <= 2
  {
    StringFieldErrors(Title, p.title, true, TitleMinLength, TitleMaxLength)
      + StringFieldErrors(Description, p.description, false, 0, DescriptionMaxLength)
  }

  /** `TaskUpdate`: every field optional, strings bounded as in `TaskCreate`
      whenever a value is sent. */
  function ValidateUpdate(p: UpdatePayload): (r: seq<FieldError>)
    ensures r == [] <==>
      (p.title.Given? ==> TitleMinLength <= |p.title.value| <= TitleMaxLength) &&
      (p.description.Given? ==> |p.description.value| <= DescriptionMaxLength)
    ensures forall e :: e in r ==> e.violation == TooShort || e.violation == TooLong
    ensures forall e :: e in r ==> e.field != Completed
  {
    StringFieldErrors(Title, p.title, false, TitleMinLength, TitleMaxLength)
      + StringFieldErrors(Description, p.description, false, 0, DescriptionMaxLength)
  }

  /** Every update whose keys are all absent or null is valid. */
  lemma EmptyUpdateValid(p: UpdatePayload)
    requires !p.title.Given? && !p.description.Given?
    ensures ValidateUpdate(p) == []
  {
  }

  datatype ResponsePayload = ResponsePayload(
    id: Field<int>, title: Field<string>, description: Field<string>, completed: Field<bool>,
    createdAt: Field<string>, updatedAt: Field<string>)

  datatype TaskResponse = TaskResponse(
    id: int, title: string, description: string, completed: bool,
    createdAt: Option<string>, updatedAt: Option<string>)

  /** `TaskResponse`: the four task fields are required; the timestamps are
      optional and become `None` when absent or null. */
  function ParseResponse(p: ResponsePayload): (r: Option<TaskResponse>)
    ensures r.Some? <==> p.id.Given? && p.title.Given? && p.description.Given? && p.completed.Given?
    ensures r.Some? ==>
      r.value.id == p.id.value && r.value.title == p.title.value &&
      r.value.description == p.description.value && r.value.completed == p.completed.value
    ensures r.Some? ==> (r.value.createdAt.Some? <==> p.createdAt.Given?)
    ensures r.Some? ==> (r.value.updatedAt.Some? <==> p.updatedAt.Given?)
    ensures r.Some? && p.createdAt.Given? ==> r.value.createdAt.value == p.createdAt.value
    ensures r.Some? && p.updatedAt.Given? ==> r.value.updatedAt.value == p.updatedAt.value
  {
    if p.id.Given? && p.title.Given? && p.description.Given? && p.completed.Given? then
      Some(TaskResponse(p.id.value, p.title.value, p.description.value, p.completed.value,
        OptionalText(p.createdAt), OptionalText(p.updatedAt)))
    else
      None
  }

  function OptionalText(f: Field<string>): Option<string> {
    if f.Given? then Some(f.value) else None
  }
}
