/** The pure part of the CSV export: the inclusive date-range filter, the
    oldest-first order, the eight-column rows, the document and its file
    name.  The local calendar-date key and the clock time of a timestamp
    (`toLocaleDateString("en-CA")`, `toLocaleTimeString`) are parameters. */
module Export {
  import opened Wrappers
  import opened Seqs
  import opened Strings
  import opened Readings
  import opened Csv
  import opened TimeOrder
  import opened FullDates

  /** The range test for one date key: not before `start` and not after
      `end`, compared as strings, where "" stands for a missing bound. */
  predicate InRange(date: string, start: string, end: string)
  {
    && (start == "" || !LexLess(date, start))
    && (end == "" || !LexLess(end, date))
  }

  /** The readings whose date key is in range; all of them when neither bound
      is given. */
  function FilterByRange(rs: seq<Reading>, dateOf: int -> string, start: string, end: string): (r: seq<Reading>)
    ensures |r| <= |rs|
    ensures start == "" && end == "" ==> r == rs
    ensures forall i :: 0 <= i < |r| ==> r[i] in rs && InRange(dateOf(r[i].timestamp), start, end)
    ensures forall i :: 0 <= i < |rs| && InRange(dateOf(rs[i].timestamp), start, end) ==> rs[i] in r
    ensures forall x ::
      multiset(r)[x] == if (start == "" && end == "") || InRange(dateOf(x.timestamp), start, end) then multiset(rs)[x] else 0
  {
    if start != "" || end != "" then
      var kept := Filter(rs, (r: Reading) => InRange(dateOf(r.timestamp), start, end));
      RangeCounts(rs, dateOf, start, end);
      kept
    else
      rs
  }

  /** Filtering by a range keeps every in-range reading as often as it
      occurred and no other reading. */
  lemma RangeCounts(rs: seq<Reading>, dateOf: int -> string, start: string, end: string)
    ensures forall x ::
      multiset(Filter(rs, (r: Reading) => InRange(dateOf(r.timestamp), start, end)))[x] ==
        if InRange(dateOf(x.timestamp), start, end) then multiset(rs)[x] else 0
  {
    forall x
      ensures multiset(Filter(rs, (r: Reading) => InRange(dateOf(r.timestamp), start, end)))[x] ==
        if InRange(dateOf(x.timestamp), start, end) then multiset(rs)[x] else 0
    {
      FilterMultiset(rs, (r: Reading) => InRange(dateOf(r.timestamp), start, end), x);
    }
  }

  /** The filter keeps the input's order: filtering a concatenation is
      filtering each part and concatenating. */
  lemma FilterByRangeAppend(a: seq<Reading>, b: seq<Reading>, dateOf: int -> string, start: string, end: string)
    ensures FilterByRange(a + b, dateOf, start, end) ==
      FilterByRange(a, dateOf, start, end) + FilterByRange(b, dateOf, start, end)
  {
    if start != "" || end != "" {
      FilterAppend(a, b, (r: Reading) => InRange(dateOf(r.timestamp), start, end));
    }
  }

  /** A range whose end lies before its start admits no date. */
  lemma NotInReversedRange(date: string, start: string, end: string)
    requires start != "" && end != "" && LexLess(end, start)
    ensures !InRange(date, start, end)
  {
    LexLessTrichotomy(date, start);
    if LexLess(start, date) {
      LexLessTransitive(end, start, date);
    }
  }

  /** So filtering by a reversed range keeps nothing. */
  lemma ReversedRangeKeepsNothing(rs: seq<Reading>, dateOf: int -> string, start: string, end: string)
    requires start != "" && end != "" && LexLess(end, start)
    ensures FilterByRange(rs, dateOf, start, end) == []
  {
    forall i | 0 <= i < |rs|
      ensures !InRange(dateOf(rs[i].timestamp), start, end)
    {
      NotInReversedRange(dateOf(rs[i].timestamp), start, end);
    }
    FilterNone(rs, (r: Reading) => InRange(dateOf(r.timestamp), start, end));
  }

  /** A range from a date to itself keeps exactly that day. */
  lemma SingleDayRange(date: string, day: string)
    requires day != ""
    ensures InRange(date, day, day) <==> date == day
  {
    LexLessTrichotomy(date, day);
  }

  /** On `YYYY-MM-DD` keys the string comparison is the calendar order: the
      filter keeps the days from `start` through `end`. */
  lemma RangeIsChronological(date: string, start: string, end: string)
    requires IsFullDate(date) && IsFullDate(start) && IsFullDate(end)
    ensures InRange(date, start, end) <==> !EarlierDay(date, start) && !EarlierDay(end, date)
  {
    StringOrderIsChronological(date, start);
    StringOrderIsChronological(end, date);
  }

  // ---------------------------------------------------------------------
  // Rows and document

  const Headers: seq<string> :=
    ["id", "date", "time", "systolic", "diastolic", "pulse", "body_position", "note"]

  /** The eight values of one reading's row, before escaping. */
  function Row(r: Reading, dateOf: int -> string, timeOf: int -> string): (row: seq<CsvValue>)
    ensures |row| == |Headers|
    ensures row[3] == Number(r.systolic) && row[4] == Number(r.diastolic)
    ensures row[5] == Text("") <==> !HasPulse(r)
    ensures r.note.None? ==> row[7] == Text("")
  {
    [ Text(r.id),
      Text(dateOf(r.timestamp)),
      Text(timeOf(r.timestamp)),
      Number(r.systolic),
      Number(r.diastolic),
      if HasPulse(r) then Number(r.pulse.value) else Text(""),
      Text(PositionName(r.position)),
      Text(r.note.GetOr("")) ]
  }

  /** The readings in the order they are written: exactly the filtered ones,
      oldest first, with same-instant readings in their input order. */
  function ExportOrder(rs: seq<Reading>, dateOf: int -> string, start: string, end: string): (out: seq<Reading>)
    ensures multiset(out) == multiset(FilterByRange(rs, dateOf, start, end))
    ensures SortedByTime(out)
    ensures SameOrderPerTime(out, FilterByRange(rs, dateOf, start, end))
  {
    SortByTime(FilterByRange(rs, dateOf, start, end))
  }

  function ExportRows(rs: seq<Reading>, dateOf: int -> string, timeOf: int -> string,
                      start: string, end: string): seq<seq<CsvValue>>
  {
    Map(ExportOrder(rs, dateOf, start, end), (r: Reading) => Row(r, dateOf, timeOf))
  }

  /** The file content: the header line, then one escaped line per reading,
      joined by line feeds.  An empty range gives the header alone. */
  function ExportCsv(rs: seq<Reading>, dateOf: int -> string, timeOf: int -> string,
                     start: string, end: string): (out: string)
    ensures StartsWith(out, Join(Headers, ","))
    ensures FilterByRange(rs, dateOf, start, end) == [] ==> out == Join(Headers, ",")
  {
    var lines := [Join(Headers, ",")] + Map(ExportRows(rs, dateOf, timeOf, start, end), Line);
    JoinStartsWithFirst(lines, "\n");
    if FilterByRange(rs, dateOf, start, end) == [] then
      assert |ExportOrder(rs, dateOf, start, end)| == 0;
      assert lines == [Join(Headers, ",")];
      Join(lines, "\n")
    else
      Join(lines, "\n")
  }

  /** A joined list starts with its first part. */
  lemma JoinStartsWithFirst(parts: seq<string>, sep: string)
    requires |parts| > 0
    ensures StartsWith(Join(parts, sep), parts[0])
  {
    if |parts| > 1 {
      assert Join(parts, sep) == parts[0] + (sep + Join(parts[1..], sep));
    }
  }

  const HeaderValues: seq<CsvValue> := Map(Headers, TextValue)

  lemma HeadersPlain()
    ensures forall i :: 0 <= i < |Headers| ==> !NeedsQuoting(Headers[i])
  {
    forall i | 0 <= i < |Headers|
      ensures !NeedsQuoting(Headers[i])
    {
      assert Lowercase(Headers[i]);
    }
  }

  /** Lower-case letters and underscores only. */
  predicate Lowercase(s: string)
  {
    forall i :: 0 <= i < |s| ==> 'a' <= s[i] <= 'z' || s[i] == '_'
  }

  /** The header names need no quoting, so the header line written with a
      plain `join` is also their escaped line. */
  lemma HeaderLine()
    ensures Line(HeaderValues) == Join(Headers, ",")
    ensures FieldTexts(HeaderValues) == Headers
  {
    HeadersPlain();
    PlainTexts(Headers);
  }

  /** Reading the exported file back gives the header, then, for each written
      reading in order, the text of its eight values. */
  lemma ExportRoundTrip(rs: seq<Reading>, dateOf: int -> string, timeOf: int -> string,
                        start: string, end: string)
    ensures var rows := ExportRows(rs, dateOf, timeOf, start, end);
      ParseCsv(ExportCsv(rs, dateOf, timeOf, start, end))
        == Some([Headers] + Map(rows, FieldTexts))
  {
    var rows := ExportRows(rs, dateOf, timeOf, start, end);
    var all := [HeaderValues] + rows;
    HeaderLine();
    MapAppend([HeaderValues], rows, Line);
    MapAppend([HeaderValues], rows, FieldTexts);
    assert Map(all, Line) == [Join(Headers, ",")] + Map(rows, Line);
    assert Map(all, FieldTexts) == [Headers] + Map(rows, FieldTexts);
    RowsFull(rs, dateOf, timeOf, start, end);
    forall i | 0 <= i < |all|
      ensures |all[i]| > 0
    {
      if i > 0 {
        assert all[i] == rows[i - 1];
      }
    }
    ReadDocument(all);
  }

  lemma RowsFull(rs: seq<Reading>, dateOf: int -> string, timeOf: int -> string, start: string, end: string)
    ensures var rows := ExportRows(rs, dateOf, timeOf, start, end);
      forall i :: 0 <= i < |rows| ==> |rows[i]| == |Headers|
  {
  }

  /** The file has one record more than there are readings in range, and
      every record has eight fields. */
  lemma ExportShape(rs: seq<Reading>, dateOf: int -> string, timeOf: int -> string,
                    start: string, end: string)
    ensures var records := [Headers] + Map(ExportRows(rs, dateOf, timeOf, start, end), FieldTexts);
      && |records| == 1 + |FilterByRange(rs, dateOf, start, end)|
      && forall i :: 0 <= i < |records| ==> |records[i]| == 8
  {
    var order := ExportOrder(rs, dateOf, start, end);
    assert |multiset(order)| == |multiset(FilterByRange(rs, dateOf, start, end))|;
    RecordsShape(order, dateOf, timeOf);
  }

  lemma RecordsShape(order: seq<Reading>, dateOf: int -> string, timeOf: int -> string)
    ensures var records := [Headers] + Map(Map(order, (r: Reading) => Row(r, dateOf, timeOf)), FieldTexts);
      && |records| == 1 + |order|
      && forall i :: 0 <= i < |records| ==> |records[i]| == 8
  {
    var rows := Map(order, (r: Reading) => Row(r, dateOf, timeOf));
    forall i | 0 <= i < |rows|
      ensures |FieldTexts(rows[i])| == 8
    {
      assert rows[i] == Row(order[i], dateOf, timeOf);
    }
  }

  /** What the pulse and note columns read as: empty for a missing or zero
      pulse, and empty for a missing note. */
  lemma RowFields(r: Reading, dateOf: int -> string, timeOf: int -> string)
    ensures var texts := FieldTexts(Row(r, dateOf, timeOf));
      && texts[0] == r.id
      && (texts[5] == "" <==> !HasPulse(r))
      && (HasPulse(r) ==> ParseInt(texts[5]) == Some(r.pulse.value))
      && texts[6] == PositionName(r.position)
      && (r.note.None? ==> texts[7] == "")
      && (r.note.Some? ==> texts[7] == r.note.value)
  {
    if HasPulse(r) {
      IntToStringRoundTrip(r.pulse.value);
    }
  }

  // ---------------------------------------------------------------------
  // File name

  /** `_<start>_to_<end>` with the words "start" and "end" for a missing
      bound, or nothing when neither bound is given. */
  function RangeSuffix(start: string, end: string): string
  {
    if start != "" || end != "" then
      "_" + (if start != "" then start else "start") + "_to_" + (if end != "" then end else "end")
    else ""
  }

  function Filename(today: string, start: string, end: string): (name: string)
    ensures StartsWith(name, "bp-readings-" + today)
    ensures EndsWith(name, ".csv")
  {
    var name := "bp-readings-" + today + RangeSuffix(start, end) + ".csv";
    assert name[..|"bp-readings-" + today|] == "bp-readings-" + today;
    assert name[|name| - 4..] == ".csv";
    name
  }

  /** The name always starts with the prefix and the day of export and ends in
      ".csv"; it carries a range part exactly when a bound is given. */
  lemma FilenameShape(today: string, start: string, end: string)
    ensures StartsWith(Filename(today, start, end), "bp-readings-" + today)
    ensures EndsWith(Filename(today, start, end), ".csv")
    ensures |Filename(today, start, end)| == |today| + 16 <==> start == "" && end == ""
  {
  }

  /** The whole name for each combination of bounds: the day alone without
      bounds, `_<start>_to_<end>` after it with both, and the word "start" or
      "end" for a single missing bound. */
  lemma FilenameDefaults(today: string, start: string, end: string)
    ensures start == "" && end == "" ==> Filename(today, start, end) == "bp-readings-" + today + ".csv"
    ensures start != "" && end != "" ==>
      Filename(today, start, end) == "bp-readings-" + today + "_" + start + "_to_" + end + ".csv"
    ensures start == "" && end != "" ==> RangeSuffix(start, end) == "_start_to_" + end
    ensures start != "" && end == "" ==> RangeSuffix(start, end) == "_" + start + "_to_end"
  {
    var prefix := "bp-readings-" + today;
    if start != "" && end != "" {
      var range := "_" + start + "_to_" + end;
      assert RangeSuffix(start, end) == range;
      assert prefix + range + ".csv" == "bp-readings-" + today + "_" + start + "_to_" + end + ".csv";
    } else if start == "" && end == "" {
      assert RangeSuffix(start, end) == "";
      assert prefix + "" + ".csv" == "bp-readings-" + today + ".csv";
    }
  }
}
