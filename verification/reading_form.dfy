/** The reading form: validation of the numeric fields, the record built on
    submit, and the reset after an add.  Parsing of the text fields by
    `Number` is outside the model: the form holds what parsing yields. */
module ReadingForm {
  import opened Wrappers
  import opened Strings
  import opened Readings

  /** A systolic or diastolic field: left empty, a whole number, or anything
      else `Number` can give (a fraction or not-a-number). */
  datatype NumberInput = Blank | Whole(n: int) | NotWhole

  /** The pulse field: empty, or the number it holds. */
  datatype PulseInput = NoPulse | PulseNumber(n: int)

  datatype FormErrors = FormErrors(systolic: Option<string>, diastolic: Option<string>)

  const NoFormErrors := FormErrors(None, None)

  const SystolicMessage := "Systolic must be a positive whole number"
  const DiastolicMessage := "Diastolic must be a positive whole number"

  /** A field value that passes validation. */
  predicate Accepts(input: NumberInput)
  {
    input.Whole? && input.n > 0
  }

  /** The three failing cases of one field, in the order the source checks them:
      empty, not above zero, not an integer. */
  function FieldError(input: NumberInput, message: string): Option<string>
  {
    if input.Blank? || (input.Whole? && input.n <= 0) || input.NotWhole? then Some(message)
    else None
  }

  /** `validateForm`: an error for each field that is not a positive whole
      number; the pulse is not checked. */
  function Validate(systolic: NumberInput, diastolic: NumberInput): (e: FormErrors)
    ensures e.systolic.Some? <==> !Accepts(systolic)
    ensures e.diastolic.Some? <==> !Accepts(diastolic)
    ensures e.systolic.Some? ==> e.systolic.value == SystolicMessage
    ensures e.diastolic.Some? ==> e.diastolic.value == DiastolicMessage
  {
    FormErrors(FieldError(systolic, SystolicMessage), FieldError(diastolic, DiastolicMessage))
  }

  datatype FormState = FormState(
    date: string,
    time: string,
    systolic: NumberInput,
    diastolic: NumberInput,
    pulse: PulseInput,
    position: Position,
    note: string,
    errors: FormErrors)

  /** The three date operations the form relies on: the date text
      (`toISOString().split("T")[0]`) and the time text
      (`toTimeString().slice(0, 5)`) of an instant, and the instant that
      `new Date(date + "T" + time)` denotes, or `None` for an invalid date.
      They depend on the runtime's time zone, so they are parameters here. */
  datatype Calendar = Calendar(
    dateText: int -> string,
    timeText: int -> string,
    instantOf: (string, string) -> Option<int>)

  /** `clearForm`: the date and time of `now`, empty fields, seated, no errors. */
  function ClearForm(now: int, cal: Calendar): (f: FormState)
    ensures f.date == cal.dateText(now) && f.time == cal.timeText(now)
    ensures f.systolic == Blank && f.diastolic == Blank && f.pulse == NoPulse
    ensures f.position == Seated && f.note == "" && f.errors == NoFormErrors
  {
    FormState(cal.dateText(now), cal.timeText(now), Blank, Blank, NoPulse, Seated, "", NoFormErrors)
  }

  /** The effect that fills the form from the reading being edited. */
  function LoadReading(f: FormState, r: Reading, cal: Calendar): (g: FormState)
    ensures g.date == cal.dateText(r.timestamp) && g.time == cal.timeText(r.timestamp)
    ensures Accepts(g.systolic) <==> r.systolic > 0
    ensures Accepts(g.diastolic) <==> r.diastolic > 0
    ensures g.pulse == NoPulse <==> r.pulse.None? || r.pulse == Some(0)
    ensures g.position == r.position && g.errors == f.errors
    ensures r.note.Some? ==> g.note == r.note.value
  {
    FormState(
      cal.dateText(r.timestamp), cal.timeText(r.timestamp), Whole(r.systolic), Whole(r.diastolic),
      if HasPulse(r) then PulseNumber(r.pulse.value) else NoPulse,
      r.position, r.note.GetOr(""), f.errors)
  }

  /** A blank note (after trimming) is stored as no note. */
  function NoteOf(text: string): (note: Option<string>)
    ensures note.None? <==> Trim(text) == ""
    ensures note.Some? ==> note.value == Trim(text)
  {
    var trimmed := Trim(text);
    if trimmed == "" then None else Some(trimmed)
  }

  datatype SubmitResult = SubmitResult(reading: Option<Reading>, form: FormState)

  /** `handleSubmit`: the reading passed to `onSubmit`, if any, and the form
      afterwards.  `freshId` is what `generateId` returns and `now` the
      instant a cleared form shows.  A date and time that do not denote an
      instant make `toISOString` throw: nothing is submitted and the form
      keeps its fields, with the errors already cleared by validation. */
  function Submit(f: FormState, editing: Option<Reading>, freshId: string, now: int, cal: Calendar)
    : (res: SubmitResult)
    ensures res.reading.Some? <==>
      Accepts(f.systolic) && Accepts(f.diastolic) && cal.instantOf(f.date, f.time).Some?
    ensures res.reading.Some? ==> res.reading.value.timestamp == cal.instantOf(f.date, f.time).value
  {
    var errors := Validate(f.systolic, f.diastolic);
    var validated := f.(errors := errors);
    if errors != NoFormErrors then SubmitResult(None, validated)
    else match cal.instantOf(f.date, f.time)
      case None => SubmitResult(None, validated)
      case Some(timestamp) =>
        var id := if editing.Some? && editing.value.id != "" then editing.value.id else freshId;
        var r := Reading(
          id, f.systolic.n, f.diastolic.n,
          if f.pulse.PulseNumber? then Some(f.pulse.n) else None,
          f.position, NoteOf(f.note), timestamp);
        SubmitResult(Some(r), if editing.None? then ClearForm(now, cal) else validated)
  }

  // ---------------------------------------------------------------------
  // Properties

  /** An invalid form submits nothing and keeps every field, showing the
      errors. */
  lemma InvalidSubmitsNothing(f: FormState, editing: Option<Reading>, freshId: string, now: int, cal: Calendar)
    requires !Accepts(f.systolic) || !Accepts(f.diastolic)
    ensures var res := Submit(f, editing, freshId, now, cal);
      res.reading.None? && res.form == f.(errors := Validate(f.systolic, f.diastolic))
      && res.form.errors != NoFormErrors
  {
  }

  /** Valid numbers with a date and time that denote no instant submit
      nothing; the form keeps its fields and shows no error. */
  lemma BadDateSubmitsNothing(f: FormState, editing: Option<Reading>, freshId: string, now: int, cal: Calendar)
    requires Accepts(f.systolic) && Accepts(f.diastolic)
    requires cal.instantOf(f.date, f.time).None?
    ensures var res := Submit(f, editing, freshId, now, cal);
      res.reading.None? && res.form == f.(errors := NoFormErrors)
  {
  }

  /** The built reading: the entered values, the entered pulse or none, the
      trimmed note or none, the instant of the date and time, and the edited
      reading's id when it has one (a fresh id otherwise). */
  lemma SubmittedReading(f: FormState, editing: Option<Reading>, freshId: string, now: int, cal: Calendar)
    requires Accepts(f.systolic) && Accepts(f.diastolic)
    requires cal.instantOf(f.date, f.time).Some?
    ensures var r := Submit(f, editing, freshId, now, cal).reading.value;
      && r.systolic == f.systolic.n > 0 && r.diastolic == f.diastolic.n > 0
      && (r.pulse.None? <==> f.pulse == NoPulse)
      && (f.pulse.PulseNumber? ==> r.pulse == Some(f.pulse.n))
      && r.position == f.position
      && r.timestamp == cal.instantOf(f.date, f.time).value
      && r.note == NoteOf(f.note)
      && (r.note.None? <==> Trim(f.note) == "")
      && (r.note.Some? ==> !IsTrimmable(r.note.value[0]) && !IsTrimmable(r.note.value[|r.note.value| - 1]))
      && (editing.Some? && editing.value.id != "" ==> r.id == editing.value.id)
      && (editing.None? || editing.value.id == "" ==> r.id == freshId)
  {
  }

  /** After an add the form is reset; after an edit it keeps its fields. */
  lemma FormAfterSubmit(f: FormState, editing: Option<Reading>, freshId: string, now: int, cal: Calendar)
    requires Accepts(f.systolic) && Accepts(f.diastolic)
    requires cal.instantOf(f.date, f.time).Some?
    ensures var after := Submit(f, editing, freshId, now, cal).form;
      && (editing.None? ==> after == ClearForm(now, cal))
      && (editing.Some? ==> after == f.(errors := NoFormErrors))
  {
  }

  /** A stored reading survives the trip through the form's fields: a
      positive systolic and diastolic value, a pulse that is absent or
      non-zero, a note that is absent or already trimmed and non-blank, and
      a non-empty id. */
  predicate FieldsRoundTrip(r: Reading)
  {
    && r.systolic > 0 && r.diastolic > 0 && r.id != ""
    && r.pulse != Some(0)
    && (r.note.Some? ==> r.note.value != "" && Trim(r.note.value) == r.note.value)
  }

  /** Opening a stored reading in the form and submitting it unchanged gives
      back the same reading in every field except the timestamp, which is
      whatever instant the loaded date and time texts denote; nothing is
      submitted when they denote none. */
  lemma EditRoundTrip(f: FormState, r: Reading, freshId: string, now: int, cal: Calendar)
    requires FieldsRoundTrip(r)
    ensures var reloaded := cal.instantOf(cal.dateText(r.timestamp), cal.timeText(r.timestamp));
      Submit(LoadReading(f, r, cal), Some(r), freshId, now, cal).reading
        == if reloaded.Some? then Some(r.(timestamp := reloaded.value)) else None
  {
    var g := LoadReading(f, r, cal);
    if cal.instantOf(g.date, g.time).Some? {
      SubmittedReading(g, Some(r), freshId, now, cal);
      if r.note.None? {
        TrimEmpty();
      }
      assert NoteOf(g.note) == r.note;
    }
  }

  lemma TrimEmpty()
    ensures Trim("") == ""
  {
  }
}
