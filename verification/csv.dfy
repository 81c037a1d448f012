/** CSV text as the export writes it: `escapeCSV` on every field, fields
    joined by "," and records by "\n".  The reader below uses the quoting
    rule of RFC 4180 (a field holding a comma, a double quote or a line feed
    is enclosed in double quotes, and a double quote inside it is doubled),
    with a bare "\n" ending each record where RFC 4180 has CRLF.  A carriage
    return is not among the characters `escapeCSV` quotes; the reader takes it
    as an ordinary character of an unquoted field.  The reader is the one the
    round-trip lemmas check the writer against. */
module Csv {
  import opened Wrappers
  import opened Seqs
  import opened Strings

  /** The argument type of `escapeCSV`: `string | number | undefined`. */
  datatype CsvValue = Missing | Text(s: string) | Number(n: int)

  /** `String(value)`, with `undefined` read as the empty field. */
  function FieldText(v: CsvValue): string
  {
    match v
    case Missing => ""
    case Text(s) => s
    case Number(n) => IntToString(n)
  }

  /** The characters that force quoting in `escapeCSV`. */
  predicate NeedsQuoting(s: string)
  {
    ',' in s || '"' in s || '\n' in s
  }

  /** `s.replace(/"/g, '""')`. */
  function DoubleQuotes(s: string): (r: string)
    ensures |r| >= |s|
  {
    if |s| == 0 then ""
    else (if s[0] == '"' then "\"\"" else [s[0]]) + DoubleQuotes(s[1..])
  }

  /** `escapeCSV`: empty for `undefined` and "", the text itself when it holds
      no comma, quote or line feed, and otherwise the text in quotes with every
      quote doubled. */
  function EscapeCsv(v: CsvValue): (r: string)
    ensures v == Missing || v == Text("") ==> r == ""
    ensures !NeedsQuoting(FieldText(v)) ==> r == FieldText(v)
    ensures NeedsQuoting(FieldText(v)) ==>
      |r| >= 2 + |FieldText(v)| && r[0] == '"' && r[|r| - 1] == '"'
  {
    if v == Missing || v == Text("") then ""
    else
      var str := FieldText(v);
      if NeedsQuoting(str) then "\"" + DoubleQuotes(str) + "\"" else str
  }

  /** `parts.join(sep)`. */
  function Join(parts: seq<string>, sep: string): string
  {
    if |parts| == 0 then ""
    else if |parts| == 1 then parts[0]
    else parts[0] + sep + Join(parts[1..], sep)
  }

  // ---------------------------------------------------------------------
  // Reading CSV back

  /** Reads the inside of a quoted field, just after its opening quote, up to
      the closing quote; a doubled quote stands for one quote.  Returns the
      field's text and what follows the closing quote. */
  function ReadQuoted(s: string): (r: Option<(string, string)>)
    ensures r.Some? ==> |r.value.1| < |s|
  {
    if |s| == 0 then None
    else if s[0] == '"' then
      if |s| > 1 && s[1] == '"' then
        match ReadQuoted(s[2..])
        case None => None
        case Some(p) => Some(("\"" + p.0, p.1))
      else Some(("", s[1..]))
    else
      match ReadQuoted(s[1..])
      case None => None
      case Some(p) => Some(([s[0]] + p.0, p.1))
  }

  /** Reads an unquoted field up to the next comma or line feed. */
  function ReadPlain(s: string): (r: (string, string))
    ensures |r.1| <= |s|
  {
    if |s| == 0 || s[0] == ',' || s[0] == '\n' then ("", s)
    else
      var p := ReadPlain(s[1..]);
      ([s[0]] + p.0, p.1)
  }

  function ReadField(s: string): (r: Option<(string, string)>)
    ensures r.Some? ==> |r.value.1| <= |s|
  {
    if |s| > 0 && s[0] == '"' then ReadQuoted(s[1..]) else Some(ReadPlain(s))
  }

  /** What may follow a field: the end, or a field or record separator. */
  predicate FieldEnd(rest: string)
  {
    |rest| == 0 || rest[0] == ',' || rest[0] == '\n'
  }

  /** What may follow a record: the end, or a record separator. */
  predicate RecordEnd(rest: string)
  {
    |rest| == 0 || rest[0] == '\n'
  }

  /** Reads the comma-separated fields of one record, stopping before the
      line feed that ends it. */
  function ReadRecord(s: string): (r: Option<(seq<string>, string)>)
    ensures r.Some? ==> |r.value.1| <= |s| && RecordEnd(r.value.1)
    decreases |s|
  {
    match ReadField(s)
    case None => None
    case Some(p) =>
      var (f, rest) := p;
      if RecordEnd(rest) then Some(([f], rest))
      else if rest[0] == ',' then
        match ReadRecord(rest[1..])
        case None => None
        case Some(q) => Some(([f] + q.0, q.1))
      else None
  }

  /** Reads a whole CSV text into its records. */
  function ParseCsv(s: string): Option<seq<seq<string>>>
    decreases |s|
  {
    match ReadRecord(s)
    case None => None
    case Some(p) =>
      if |p.1| == 0 then Some([p.0])
      else
        match ParseCsv(p.1[1..])
        case None => None
        case Some(records) => Some([p.0] + records)
  }

  // ---------------------------------------------------------------------
  // Round trips

  lemma {:induction false} ReadQuotedDoubled(v: string, rest: string)
    requires FieldEnd(rest)
    ensures ReadQuoted(DoubleQuotes(v) + "\"" + rest) == Some((v, rest))
  {
    var s := DoubleQuotes(v) + "\"" + rest;
    if |v| == 0 {
      assert s == "\"" + rest;
      assert s[1..] == rest;
    } else if v[0] == '"' {
      assert s == "\"\"" + (DoubleQuotes(v[1..]) + "\"" + rest);
      assert s[2..] == DoubleQuotes(v[1..]) + "\"" + rest;
      ReadQuotedDoubled(v[1..], rest);
      assert v == "\"" + v[1..];
    } else {
      assert s == [v[0]] + (DoubleQuotes(v[1..]) + "\"" + rest);
      assert s[1..] == DoubleQuotes(v[1..]) + "\"" + rest;
      ReadQuotedDoubled(v[1..], rest);
      assert v == [v[0]] + v[1..];
    }
  }

  lemma {:induction false} ReadPlainText(v: string, rest: string)
    requires ',' !in v && '\n' !in v
    requires FieldEnd(rest)
    ensures ReadPlain(v + rest) == (v, rest)
  {
    if |v| == 0 {
      assert v + rest == rest;
    } else {
      assert (v + rest)[1..] == v[1..] + rest;
      ReadPlainText(v[1..], rest);
      assert v == [v[0]] + v[1..];
    }
  }

  /** Reading an escaped field gives back the value's text, and stops at the
      separator that follows it. */
  lemma ReadEscapedField(v: CsvValue, rest: string)
    requires FieldEnd(rest)
    ensures ReadField(EscapeCsv(v) + rest) == Some((FieldText(v), rest))
  {
    var str := FieldText(v);
    if v == Missing || v == Text("") {
      assert EscapeCsv(v) + rest == rest;
      ReadPlainText("", rest);
    } else if NeedsQuoting(str) {
      var s := EscapeCsv(v) + rest;
      assert s == "\"" + (DoubleQuotes(str) + "\"" + rest);
      assert s[1..] == DoubleQuotes(str) + "\"" + rest;
      ReadQuotedDoubled(str, rest);
    } else {
      ReadPlainText(str, rest);
      if |str| > 0 {
        assert str[0] != '"';
      }
    }
  }

  function TextValue(s: string): CsvValue
  {
    Text(s)
  }

  /** Texts that need no quoting are written as they are. */
  lemma PlainTexts(texts: seq<string>)
    requires forall i :: 0 <= i < |texts| ==> !NeedsQuoting(texts[i])
    ensures Map(Map(texts, TextValue), EscapeCsv) == texts
    ensures Map(Map(texts, TextValue), FieldText) == texts
  {
  }

  /** One CSV line: the escaped values joined by commas. */
  function Line(values: seq<CsvValue>): string
  {
    Join(Map(values, EscapeCsv), ",")
  }

  /** Reading a written line gives back the text of every value. */
  lemma {:induction false} ReadLine(values: seq<CsvValue>, rest: string)
    requires |values| > 0
    requires RecordEnd(rest)
    ensures ReadRecord(Line(values) + rest) == Some((Map(values, FieldText), rest))
    decreases |values|
  {
    if |values| == 1 {
      assert Line(values) == EscapeCsv(values[0]);
      ReadEscapedField(values[0], rest);
      assert Map(values, FieldText) == [FieldText(values[0])];
    } else {
      var others := Line(values[1..]) + rest;
      var after := "," + others;
      assert Line(values) + rest == EscapeCsv(values[0]) + after by {
        LineCons(values);
      }
      ReadEscapedField(values[0], after);
      ReadRecordNext(Line(values) + rest, FieldText(values[0]), others);
      ReadLine(values[1..], rest);
      assert Map(values, FieldText) == [FieldText(values[0])] + Map(values[1..], FieldText);
    }
  }

  /** A field followed by a comma: the record is that field and the record
      read after the comma. */
  lemma ReadRecordNext(s: string, f: string, others: string)
    requires ReadField(s) == Some((f, "," + others))
    ensures ReadRecord(s) ==
      match ReadRecord(others)
      case None => None
      case Some(q) => Some(([f] + q.0, q.1))
  {
    assert ("," + others)[1..] == others;
  }

  /** A line of two or more values is the first escaped value, a comma and
      the line of the others. */
  lemma LineCons(values: seq<CsvValue>)
    requires |values| > 1
    ensures Line(values) == EscapeCsv(values[0]) + "," + Line(values[1..])
  {
    assert Map(values, EscapeCsv)[1..] == Map(values[1..], EscapeCsv);
  }

  /** The texts of a row's values, as a reader sees them. */
  function FieldTexts(row: seq<CsvValue>): seq<string>
  {
    Map(row, FieldText)
  }

  /** Reading a written document gives back every record and every field. */
  lemma {:induction false} ReadDocument(rows: seq<seq<CsvValue>>)
    requires |rows| > 0
    requires forall i :: 0 <= i < |rows| ==> |rows[i]| > 0
    ensures ParseCsv(Join(Map(rows, Line), "\n"))
         == Some(Map(rows, FieldTexts))
    decreases |rows|
  {
    if |rows| == 1 {
      assert Join(Map(rows, Line), "\n") == Line(rows[0]);
      ReadLine(rows[0], "");
      assert Line(rows[0]) + "" == Line(rows[0]);
      assert Map(rows, FieldTexts) == [FieldTexts(rows[0])];
    } else {
      var tail := Join(Map(rows[1..], Line), "\n");
      assert Map(rows, Line)[1..] == Map(rows[1..], Line);
      assert Join(Map(rows, Line), "\n") == Line(rows[0]) + ("\n" + tail);
      ReadLine(rows[0], "\n" + tail);
      assert ("\n" + tail)[1..] == tail;
      ReadDocument(rows[1..]);
      assert Map(rows, FieldTexts) == [FieldTexts(rows[0])] + Map(rows[1..], FieldTexts);
    }
  }
}
