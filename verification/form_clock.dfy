/** The reading form's date operations for a runtime whose local time is a
    fixed number of minutes east of UTC.  Instants are milliseconds since
    the epoch; days and minutes are counted with floor division, as the
    ECMAScript date algorithms do.  How a day number and a minute of the day
    are written as text is a parameter (`Notation`). */
module FormClock {
  import opened Wrappers
  import opened Readings
  import opened ReadingForm

  const MinuteMs := 60000
  const DayMs := 86400000
  const MinutesPerDay := 1440

  /** The day of an instant in UTC: the day `toISOString` shows. */
  function UtcDay(t: int): int
  {
    t / DayMs
  }

  /** The day of an instant on a wall clock `offset` minutes east of UTC. */
  function LocalDay(t: int, offset: int): int
  {
    (t + offset * MinuteMs) / DayMs
  }

  /** The minute of the day on that wall clock: the `HH:MM` that
      `toTimeString` shows. */
  function LocalMinute(t: int, offset: int): (m: int)
    ensures 0 <= m < MinutesPerDay
  {
    ((t + offset * MinuteMs) % DayMs) / MinuteMs
  }

  /** The instant a local day and minute denote: how `new Date("…T…")`
      reads a date and time without a zone. */
  function LocalInstant(day: int, minute: int, offset: int): int
  {
    day * DayMs + minute * MinuteMs - offset * MinuteMs
  }

  /** How day numbers and minutes of the day are written in the form's two
      fields, and how the two texts are read back (`None` for an invalid
      date). */
  datatype Notation = Notation(
    dayText: int -> string,
    minuteText: int -> string,
    read: (string, string) -> Option<(int, int)>)

  /** Reading back what was written gives the same day and minute. */
  ghost predicate Faithful(n: Notation)
  {
    forall d: int, m: int :: 0 <= m < MinutesPerDay ==> n.read(n.dayText(d), n.minuteText(m)) == Some((d, m))
  }

  /** The instant the form's two texts denote, read as local time. */
  function ReadLocal(n: Notation, offset: int, date: string, time: string): Option<int>
  {
    var dm := n.read(date, time);
    if dm.None? then None else Some(LocalInstant(dm.value.0, dm.value.1, offset))
  }

  /** The form as written: the UTC day next to the local time, read back as
      local time. */
  function SourceCalendar(n: Notation, offset: int): Calendar
  {
    Calendar(
      t => n.dayText(UtcDay(t)),
      t => n.minuteText(LocalMinute(t, offset)),
      (date: string, time: string) => ReadLocal(n, offset, date, time))
  }

  /** The evidently intended form: the local day next to the local time. */
  function LocalCalendar(n: Notation, offset: int): Calendar
  {
    Calendar(
      t => n.dayText(LocalDay(t, offset)),
      t => n.minuteText(LocalMinute(t, offset)),
      (date: string, time: string) => ReadLocal(n, offset, date, time))
  }

  /** The instant an unchanged edit saves under the source calendar. */
  function AsWrittenReload(t: int, offset: int): int
  {
    LocalInstant(UtcDay(t), LocalMinute(t, offset), offset)
  }

  /** The instant an unchanged edit saves under the local calendar. */
  function CorrectedReload(t: int, offset: int): int
  {
    LocalInstant(LocalDay(t, offset), LocalMinute(t, offset), offset)
  }

  // ---------------------------------------------------------------------
  // Properties

  /** Under the local calendar the saved instant is the original one cut
      down to its minute: it is unchanged exactly when it has no seconds or
      milliseconds. */
  lemma CorrectedReloadTruncates(t: int, offset: int)
    ensures CorrectedReload(t, offset) == t - t % MinuteMs
    ensures CorrectedReload(t, offset) <= t < CorrectedReload(t, offset) + MinuteMs
    ensures CorrectedReload(t, offset) == t <==> t % MinuteMs == 0
  {
    var u := t + offset * MinuteMs;
    var rest := u % DayMs;
    assert u == LocalDay(t, offset) * DayMs + rest;
    assert rest == LocalMinute(t, offset) * MinuteMs + rest % MinuteMs;
    DayRemainderMinutes(u);
    ShiftedMinuteRemainder(t, offset);
  }

  lemma DayRemainderMinutes(u: int)
    ensures (u % DayMs) % MinuteMs == u % MinuteMs
  {
    var q := u / DayMs;
    assert u == q * DayMs + u % DayMs;
    assert q * DayMs == (q * MinutesPerDay) * MinuteMs;
    ModShift(u % DayMs, q * MinutesPerDay);
  }

  lemma ShiftedMinuteRemainder(t: int, offset: int)
    ensures (t + offset * MinuteMs) % MinuteMs == t % MinuteMs
  {
    ModShift(t, offset);
  }

  /** Adding whole minutes leaves the remainder by a minute unchanged. */
  lemma {:induction false} ModShift(x: int, k: int)
    ensures (x + k * MinuteMs) % MinuteMs == x % MinuteMs
    decreases if k < 0 then -k else k
  {
    if k > 0 {
      ModShift(x, k - 1);
      assert x + k * MinuteMs == (x + (k - 1) * MinuteMs) + MinuteMs;
    } else if k < 0 {
      ModShift(x, k + 1);
      assert x + k * MinuteMs == (x + (k + 1) * MinuteMs) - MinuteMs;
    }
  }

  /** Under the source calendar the saved instant is off by the difference
      between the UTC day and the local day, whole days; for offsets between
      UTC-12:00 and UTC+14:00 that is at most one day, backwards east of UTC
      and forwards west of it, and there is no shift exactly when both days
      agree. */
  lemma AsWrittenReloadShift(t: int, offset: int)
    requires -720 <= offset <= 840
    ensures AsWrittenReload(t, offset) == t - t % MinuteMs + (UtcDay(t) - LocalDay(t, offset)) * DayMs
    ensures offset >= 0 ==> -1 <= UtcDay(t) - LocalDay(t, offset) <= 0
    ensures offset <= 0 ==> 0 <= UtcDay(t) - LocalDay(t, offset) <= 1
    ensures AsWrittenReload(t, offset) == t - t % MinuteMs <==> UtcDay(t) == LocalDay(t, offset)
  {
    CorrectedReloadTruncates(t, offset);
    assert AsWrittenReload(t, offset) == CorrectedReload(t, offset) + (UtcDay(t) - LocalDay(t, offset)) * DayMs;
    DayStep(t, offset * MinuteMs);
  }

  /** Moving an instant by less than a day moves its day by at most one. */
  lemma DayStep(t: int, shift: int)
    requires -DayMs < shift < DayMs
    ensures shift >= 0 ==> t / DayMs <= (t + shift) / DayMs <= t / DayMs + 1
    ensures shift <= 0 ==> t / DayMs - 1 <= (t + shift) / DayMs <= t / DayMs
  {
    var q, q' := t / DayMs, (t + shift) / DayMs;
    assert t == q * DayMs + t % DayMs;
    assert t + shift == q' * DayMs + (t + shift) % DayMs;
    if shift >= 0 {
      assert (q' - q) * DayMs < 2 * DayMs;
      assert (q' - q) * DayMs > -DayMs;
    } else {
      assert (q' - q) * DayMs > -2 * DayMs;
      assert (q' - q) * DayMs < DayMs;
    }
  }

  /** The date and time texts of an instant, under either calendar, read
      back as the local day and minute written there. */
  lemma ReadsBack(n: Notation, offset: int, t: int)
    requires Faithful(n)
    ensures var cal := SourceCalendar(n, offset);
      cal.instantOf(cal.dateText(t), cal.timeText(t)) == Some(AsWrittenReload(t, offset))
    ensures var cal := LocalCalendar(n, offset);
      cal.instantOf(cal.dateText(t), cal.timeText(t)) == Some(CorrectedReload(t, offset))
  {
    var m := LocalMinute(t, offset);
    assert n.read(n.dayText(UtcDay(t)), n.minuteText(m)) == Some((UtcDay(t), m));
    assert n.read(n.dayText(LocalDay(t, offset)), n.minuteText(m)) == Some((LocalDay(t, offset), m));
  }

  /** Editing a reading and saving it unchanged, as written: every field
      survives but the timestamp becomes `AsWrittenReload`. */
  lemma SourceEditReload(n: Notation, offset: int, f: FormState, r: Reading, freshId: string, now: int)
    requires Faithful(n) && FieldsRoundTrip(r)
    ensures var cal := SourceCalendar(n, offset);
      Submit(LoadReading(f, r, cal), Some(r), freshId, now, cal).reading
        == Some(r.(timestamp := AsWrittenReload(r.timestamp, offset)))
  {
    EditRoundTrip(f, r, freshId, now, SourceCalendar(n, offset));
    ReadsBack(n, offset, r.timestamp);
  }

  /** Editing a reading and saving it unchanged with the local calendar
      keeps every field and the timestamp's minute; a timestamp on a whole
      minute comes back exactly. */
  lemma LocalEditReload(n: Notation, offset: int, f: FormState, r: Reading, freshId: string, now: int)
    requires Faithful(n) && FieldsRoundTrip(r)
    ensures var cal := LocalCalendar(n, offset);
      Submit(LoadReading(f, r, cal), Some(r), freshId, now, cal).reading
        == Some(r.(timestamp := r.timestamp - r.timestamp % MinuteMs))
    ensures var cal := LocalCalendar(n, offset);
      r.timestamp % MinuteMs == 0 ==> Submit(LoadReading(f, r, cal), Some(r), freshId, now, cal).reading == Some(r)
  {
    LocalEditReloadsTo(n, offset, f, r, freshId, now);
    CorrectedReloadTruncates(r.timestamp, offset);
  }

  lemma LocalEditReloadsTo(n: Notation, offset: int, f: FormState, r: Reading, freshId: string, now: int)
    requires Faithful(n) && FieldsRoundTrip(r)
    ensures var cal := LocalCalendar(n, offset);
      Submit(LoadReading(f, r, cal), Some(r), freshId, now, cal).reading
        == Some(r.(timestamp := CorrectedReload(r.timestamp, offset)))
  {
    EditRoundTrip(f, r, freshId, now, LocalCalendar(n, offset));
    ReadsBack(n, offset, r.timestamp);
  }

  /** A cleared form submitted as it stands denotes `now` cut to its minute
      under the local calendar, and the same day shift under the source
      calendar. */
  lemma ClearedFormInstant(n: Notation, offset: int, now: int)
    requires Faithful(n)
    ensures var cal := SourceCalendar(n, offset);
      var f := ClearForm(now, cal);
      cal.instantOf(f.date, f.time) == Some(AsWrittenReload(now, offset))
    ensures var cal := LocalCalendar(n, offset);
      var f := ClearForm(now, cal);
      cal.instantOf(f.date, f.time) == Some(now - now % MinuteMs)
  {
    ReadsBack(n, offset, now);
    CorrectedReloadTruncates(now, offset);
  }

  /** Five and a half hours east of UTC, a reading taken at 00:10 on
      2 January 1970 (18:40 UTC on 1 January) is saved a day earlier by an
      unchanged edit. */
  lemma EditShiftsDayBack(n: Notation, f: FormState, r: Reading, freshId: string, now: int)
    requires Faithful(n) && FieldsRoundTrip(r)
    requires r.timestamp == DayMs - 320 * MinuteMs
    ensures var cal := SourceCalendar(n, 330);
      Submit(LoadReading(f, r, cal), Some(r), freshId, now, cal).reading
        == Some(r.(timestamp := r.timestamp - DayMs))
  {
    SourceEditReload(n, 330, f, r, freshId, now);
    EastReload();
  }

  lemma EastReload()
    ensures AsWrittenReload(DayMs - 320 * MinuteMs, 330) == -320 * MinuteMs
  {
    assert UtcDay(DayMs - 320 * MinuteMs) == 0;
    assert LocalMinute(DayMs - 320 * MinuteMs, 330) == 10;
  }
}
