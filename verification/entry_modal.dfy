/**
 * The add/edit entry dialog: the form it opens with, the hour stepper, the
 * field checks, and the payload it hands to its `onSubmit` callback.
 */
module EntryModal {
  import opened Common
  import opened Text
  import opened Entries

  /** The choices of the type-of-work dropdown. */
  const WorkTypes: seq<string> := ["Development", "Bug fixes", "Testing", "Documentation", "Meetings", "Other"]

  /** The four controlled fields of the form. */
  datatype Form = Form(projectId: string, workType: string, description: string, hours: int)

  /** `FormErrors`: one optional message per field. */
  datatype Errors = Errors(
    projectId: Option<string>,
    workType: Option<string>,
    description: Option<string>,
    hours: Option<string>)

  const NoErrors: Errors := Errors(None, None, None, None)

  const DescriptionRequired: string := "Description is required"
  const DescriptionTooShort: string := "Description must be at least 3 characters"

  // ---------------------------------------------------------------------------
  // Opening
  // ---------------------------------------------------------------------------

  /** The form and its errors while the dialog is open. */
  datatype Modal = Modal(form: Form, errors: Errors)

  /** The effect run when the dialog opens: copy the entry being edited, or start a blank form. */
  function Open(entry: Option<Entry>): (m: Modal)
    ensures m.errors == NoErrors
    ensures entry.Some? ==> m.form == Form(entry.value.projectId, entry.value.workType, entry.value.description, entry.value.hours)
    ensures entry.None? ==> m.form == Form("", "Bug fixes", "", 4)
  {
    match entry
    case Some(e) => Modal(Form(e.projectId, e.workType, e.description, e.hours), NoErrors)
    case None => Modal(Form("", "Bug fixes", "", 4), NoErrors)
  }

  // ---------------------------------------------------------------------------
  // Validation
  // ---------------------------------------------------------------------------

  /** `validateForm`'s error map; lengths are JavaScript's, in UTF-16 code units. */
  function Validate(f: Form): (e: Errors)
    ensures e.projectId.Some? <==> f.projectId == ""
    ensures e.workType.Some? <==> f.workType == ""
    ensures e.description == Some(DescriptionRequired) <==> AllWhitespace(f.description)
    ensures e.description == Some(DescriptionTooShort) <==> !AllWhitespace(f.description) && JsLength(Trim(f.description)) < 3
    ensures e.description.None? <==> JsLength(Trim(f.description)) >= 3
    ensures e.hours.Some? <==> f.hours < 1 || f.hours > 24
  {
    var description := Trim(f.description);
    Errors(
      if f.projectId == "" then Some("Please select a project") else None,
      if f.workType == "" then Some("Please select a type of work") else None,
      if description == "" then Some(DescriptionRequired)
      else if JsLength(description) < 3 then Some(DescriptionTooShort)
      else None,
      if f.hours < 1 || f.hours > 24 then Some("Hours must be between 1 and 24") else None)
  }

  /** The form passes exactly when every field meets its rule. */
  lemma ValidIffFieldsMeetRules(f: Form)
    ensures Validate(f) == NoErrors <==>
      && f.projectId != ""
      && f.workType != ""
      && JsLength(Trim(f.description)) >= 3
      && 1 <= f.hours <= 24
  {
  }

  /** Two emoji make a description of four UTF-16 units, long enough for the dialog. */
  lemma AstralDescriptionIsLongEnough()
    ensures Validate(Form("proj-1", "Development", "\U{1F600}\U{1F600}", 4)) == NoErrors
  {
    var smile := "\U{1F600}";
    var text := smile + smile;
    assert text == "\U{1F600}\U{1F600}";
    assert !IsWhitespace(text[0]) && !IsWhitespace(text[1]);
    assert TrimStart(text) == text;
    assert TrimEnd(text) == text;
    assert JsLength(smile) == 2 by { assert smile[..0] == []; }
    JsLengthConcat(smile, smile);
  }

  /** A blank dialog asks for a project and a description and nothing else; a stored entry's hours pass. */
  lemma OpenedFormErrors(e: Entry)
    ensures Validate(Open(None).form) == Errors(Some("Please select a project"), None, Some(DescriptionRequired), None)
    ensures Open(None).form.workType in WorkTypes
    ensures 1 <= e.hours <= 24 ==> Validate(Open(Some(e)).form).hours.None?
  {
    assert AllWhitespace("");
  }

  // ---------------------------------------------------------------------------
  // The hour stepper
  // ---------------------------------------------------------------------------

  datatype Click = Up | Down

  /** `incrementHours` and `decrementHours`: a step that would leave 1..24 does nothing. */
  function Step(f: Form, c: Click): (r: Form)
    ensures r.(hours := f.hours) == f
    ensures c == Up ==> r.hours == if f.hours < 24 then f.hours + 1 else f.hours
    ensures c == Down ==> r.hours == if f.hours > 1 then f.hours - 1 else f.hours
  {
    match c
    case Up => if f.hours < 24 then f.(hours := f.hours + 1) else f
    case Down => if f.hours > 1 then f.(hours := f.hours - 1) else f
  }

  function Steps(f: Form, clicks: seq<Click>): Form
    decreases |clicks|
  {
    if |clicks| == 0 then f else Steps(Step(f, clicks[0]), clicks[1..])
  }

  /** Any run of stepper clicks from hours in 1..24 stays in 1..24 and touches no other field. */
  lemma {:induction false} StepsStayInRange(f: Form, clicks: seq<Click>)
    requires 1 <= f.hours <= 24
    ensures 1 <= Steps(f, clicks).hours <= 24
    ensures Steps(f, clicks).(hours := f.hours) == f
    ensures Validate(Steps(f, clicks)).hours.None?
    decreases |clicks|
  {
    if |clicks| > 0 {
      StepsStayInRange(Step(f, clicks[0]), clicks[1..]);
    }
  }

  // ---------------------------------------------------------------------------
  // Submitting
  // ---------------------------------------------------------------------------

  /** `TimesheetEntryFormData`, the object passed to `onSubmit`. */
  datatype Payload = Payload(projectId: string, workType: string, description: string, hours: int, date: string)

  /** `entry?.date || date || today`, where `today` is the date part of the clock's ISO time. */
  function PayloadDate(entry: Option<Entry>, date: Option<string>, today: string): string {
    if entry.Some? && entry.value.date != "" then entry.value.date
    else if Truthy(date) then date.value
    else today
  }

  /** What a submit leaves behind: the payload handed over (if any), the errors shown, and whether the dialog closed. */
  datatype SubmitResult = SubmitResult(sent: Option<Payload>, errors: Errors, closed: bool)

  const SaveFailed: Errors := Errors(None, None, Some("Failed to save entry. Please try again."), None)

  /**
   * `handleSubmit`: nothing is sent unless the form passes; otherwise the
   * trimmed payload goes to `onSubmit`, whose outcome `saved` decides between
   * closing the dialog and showing the save error.
   */
  function Submit(f: Form, entry: Option<Entry>, date: Option<string>, today: string, saved: bool): (r: SubmitResult)
    ensures r.sent.Some? <==> Validate(f) == NoErrors
    ensures r.sent.None? ==> r.errors == Validate(f) && !r.closed
    ensures r.sent.Some? ==>
      && r.sent.value == Payload(f.projectId, f.workType, Trim(f.description), f.hours, PayloadDate(entry, date, today))
      && (r.closed <==> saved)
      && r.errors == (if saved then NoErrors else SaveFailed)
  {
    var errors := Validate(f);
    if errors != NoErrors then SubmitResult(None, errors, false)
    else
      var payload := Payload(f.projectId, f.workType, Trim(f.description), f.hours, PayloadDate(entry, date, today));
      if saved then SubmitResult(Some(payload), NoErrors, true)
      else SubmitResult(Some(payload), SaveFailed, false)
  }

  /** The body a payload becomes when it is posted to the entries route. */
  function AsRequest(p: Payload): NewEntry {
    NewEntry(Some(p.projectId), Some(p.workType), Some(p.description), Some(p.hours), Some(p.date))
  }

  /** Whatever the dialog sends, the entries route accepts and stores, provided the clock's date is not empty. */
  lemma SubmittedPayloadIsAccepted(f: Form, entry: Option<Entry>, date: Option<string>, today: string, saved: bool,
                                   store: Store, clock: Clock)
    requires today != ""
    requires Submit(f, entry, date, today, saved).sent.Some?
    ensures
      var p := Submit(f, entry, date, today, saved).sent.value;
      var r := Post(store, AsRequest(p), clock);
      && r.reply.Ok?
      && r.store == store + [r.reply.data]
      && r.reply.data.description == Trim(f.description)
      && r.reply.data.hours == f.hours
  {
    var p := Submit(f, entry, date, today, saved).sent.value;
    assert JsLength(p.description) >= 3;
    assert AllGiven(AsRequest(p));
    var r := Post(store, AsRequest(p), clock);
    assert r.store == r.store[..|store|] + [r.store[|store|]];
  }
}
