/** The add-task and edit-task form logic the two Flask front-ends share
    word for word: the trimmed pre-checks, the POST body, the routing of
    the server's field errors, and the PUT body of an edit. */
module TaskForm {
  import opened Text
  import opened TaskSchemas

  /** The first failed pre-check, each shown under its own input. */
  datatype FormError = TitleRequired | TitleTooLong | DescriptionTooLong

  const TitleRequiredMessage: string := "Название задачи обязательно"
  const TitleTooLongMessage: string := "Максимальная длина названия - 100 символов"
  const DescriptionTooLongMessage: string := "Максимальная длина описания - 500 символов"
  const UnknownError: string := "Неизвестная ошибка"

  function Message(e: FormError): (m: string)
    ensures m != []
  {
    match e
    case TitleRequired => TitleRequiredMessage
    case TitleTooLong => TitleTooLongMessage
    case DescriptionTooLong => DescriptionTooLongMessage
  }

  /** The pre-checks of `addTask` on the trimmed inputs, in order; only the
      first failure is reported, and any failure means no request. */
  function CheckDraft(title: string, description: string): (r: Option<FormError>)
    ensures r == Some(TitleRequired) <==> IsBlank(title)
    ensures r == Some(TitleTooLong) <==> !IsBlank(title) && |Trim(title)| > TitleMaxLength
    ensures r == Some(DescriptionTooLong) <==>
      !IsBlank(title) && |Trim(title)| <= TitleMaxLength && |Trim(description)| > DescriptionMaxLength
    ensures r == None <==>
      !IsBlank(title) && |Trim(title)| <= TitleMaxLength && |Trim(description)| <= DescriptionMaxLength
  {
    TrimEmptyIffBlank(title);
    var t := Trim(title);
    var d := Trim(description);
    if t == [] then Some(TitleRequired)
    else if |t| > TitleMaxLength then Some(TitleTooLong)
    else if |d| > DescriptionMaxLength then Some(DescriptionTooLong)
    else None
  }

  /** `{title, description: description || undefined}` on the trimmed
      inputs: an empty description is left out of the JSON. */
  function PostBody(title: string, description: string): (p: CreatePayload)
    ensures p.title == Given(Trim(title))
    ensures p.description.Absent? <==> IsBlank(description)
    ensures p.description.Given? ==> p.description.value == Trim(description)
  {
    TrimEmptyIffBlank(description);
    var d := Trim(description);
    CreatePayload(Given(Trim(title)), if d == [] then Absent else Given(d))
  }

  /** Whatever the form lets through, the server schema accepts. */
  lemma AcceptedDraftPassesServer(title: string, description: string)
    requires CheckDraft(title, description) == None
    ensures ValidateCreate(PostBody(title, description)) == []
  {
    TrimEmptyIffBlank(title);
  }

  /** The two checks disagree on blank titles: the form refuses one, the
      schema, which does not strip, accepts it. */
  lemma BlankTitleOnlyClientRejects(title: string, description: string)
    requires IsBlank(title) && 1 <= |title| <= TitleMaxLength
    ensures CheckDraft(title, description) == Some(TitleRequired)
    ensures ValidateCreate(CreatePayload(Given(title), Absent)) == []
  {
  }

  /** One entry of the `details` list of a 400 answer, as the page reads it. */
  datatype Detail = Detail(field: string, message: string)

  /** The JSON of a rejected request: `details` when it is an array. */
  datatype ErrorBody = ErrorBody(details: Option<seq<Detail>>, error: Option<string>)

  /** What the page shows after a rejection. */
  datatype Feedback =
    | Inline(titleError: Option<string>, descriptionError: Option<string>)
    | Alert(text: string)

  /** Entry `i` is the last one naming `field`. */
  predicate LastFor(details: seq<Detail>, field: string, i: int)
    requires 0 <= i < |details|
  {
    details[i].field == field && forall j :: i < j < |details| ==> details[j].field != field
  }

  /** The message of the last entry for `field`, if any: every entry
      overwrites the one before it. */
  function LastMessage(details: seq<Detail>, field: string): (m: Option<string>)
    ensures m.Some? <==> exists i :: 0 <= i < |details| && details[i].field == field
    ensures m.Some? ==> exists i :: 0 <= i < |details| && LastFor(details, field, i) && details[i].message == m.value
  {
    if details == [] then None
    else
      var last := details[|details| - 1];
      var init := details[..|details| - 1];
      if last.field == field then
        assert LastFor(details, field, |details| - 1);
        Some(last.message)
      else
        var m := LastMessage(init, field);
        assert forall i :: 0 <= i < |init| ==> init[i] == details[i];
        assert m.Some? ==> exists i :: 0 <= i < |details| && LastFor(details, field, i) && details[i].message == m.value by {
          if m.Some? {
            var i :| 0 <= i < |init| && LastFor(init, field, i) && init[i].message == m.value;
            assert LastFor(details, field, i);
          }
        }
        m
  }

  /** The `forEach` over `details`: `title` entries go under the title
      input, `description` entries under the description input, any other
      entry is dropped. */
  method RouteFieldErrors(details: seq<Detail>) returns (titleError: Option<string>, descriptionError: Option<string>)
    ensures titleError == LastMessage(details, "title")
    ensures descriptionError == LastMessage(details, "description")
  {
    titleError := None;
    descriptionError := None;
    var i := 0;
    while i < |details|
      invariant 0 <= i <= |details|
      invariant titleError == LastMessage(details[..i], "title")
      invariant descriptionError == LastMessage(details[..i], "description")
    {
      assert details[..i + 1][..i] == details[..i];
      if details[i].field == "title" {
        titleError := Some(details[i].message);
      } else if details[i].field == "description" {
        descriptionError := Some(details[i].message);
      }
      i := i + 1;
    }
    assert details[..i] == details;
  }

  /** A rejected POST: inline messages when `details` is an array (an empty
      one shows nothing), else one alert with `error` or a default. */
  method ShowRejection(body: ErrorBody) returns (f: Feedback)
    ensures body.details.Some? ==>
      f == Inline(LastMessage(body.details.value, "title"), LastMessage(body.details.value, "description"))
    ensures body.details.None? && body.error.Some? && body.error.value != [] ==>
      f == Alert("Ошибка: " + body.error.value)
    ensures body.details.None? && (body.error.None? || body.error.value == []) ==>
      f == Alert("Ошибка: " + UnknownError)
  {
    if body.details.Some? {
      var t, d := RouteFieldErrors(body.details.value);
      f := Inline(t, d);
    } else {
      var text := if body.error.Some? && body.error.value != [] then body.error.value else UnknownError;
      f := Alert("Ошибка: " + text);
    }
  }

  /** The PUT body of `editTask`: nothing when the fetch failed or either
      prompt was cancelled; otherwise the new title as typed, the new
      description unless empty, and the fetched `completed` unchanged. */
  function EditRequest(fetchedCompleted: Option<bool>, newTitle: Option<string>, newDescription: Option<string>): (r: Option<UpdatePayload>)
    ensures r.None? <==> fetchedCompleted.None? || newTitle.None? || newDescription.None?
    ensures r.Some? ==> r.value.title == Given(newTitle.value)
    ensures r.Some? ==> r.value.completed == Given(fetchedCompleted.value)
    ensures r.Some? ==> (r.value.description.Absent? <==> newDescription.value == [])
    ensures r.Some? && newDescription.value != [] ==> r.value.description == Given(newDescription.value)
  {
    if fetchedCompleted.None? || newTitle.None? || newDescription.None? then None
    else
      Some(UpdatePayload(Given(newTitle.value),
        if newDescription.value == [] then Absent else Given(newDescription.value),
        Given(fetchedCompleted.value)))
  }

  /** The edit prompt is not checked on the page: an emptied title reaches
      the server and is refused there. */
  lemma EmptyEditedTitleRefused(completed: bool, newDescription: string)
    ensures EditRequest(Some(completed), Some([]), Some(newDescription)).Some?
    ensures ValidateUpdate(EditRequest(Some(completed), Some([]), Some(newDescription)).value) != []
  {
  }
}
