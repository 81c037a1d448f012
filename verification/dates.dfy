/** Calendar-date keys `YYYY-MM-DD` (the `full-date` of section 5.6 of
    RFC 3339), as `toLocaleDateString("en-CA")` produces them.  Section 5.1 of
    RFC 3339 notes that such strings sort chronologically when compared as
    strings; the export range filter relies on it. */
module FullDates {
  import opened Strings

  predicate IsFullDate(s: string)
  {
    && |s| == 10
    && AllDigits(s[..4]) && s[4] == '-'
    && AllDigits(s[5..7]) && s[7] == '-'
    && AllDigits(s[8..])
  }

  function Year(s: string): nat
    requires IsFullDate(s)
  {
    DigitsValue(s[..4])
  }

  function Month(s: string): nat
    requires IsFullDate(s)
  {
    DigitsValue(s[5..7])
  }

  function Day(s: string): nat
    requires IsFullDate(s)
  {
    DigitsValue(s[8..])
  }

  /** `a` names an earlier calendar day than `b`. */
  predicate EarlierDay(a: string, b: string)
    requires IsFullDate(a) && IsFullDate(b)
  {
    || Year(a) < Year(b)
    || (Year(a) == Year(b) && Month(a) < Month(b))
    || (Year(a) == Year(b) && Month(a) == Month(b) && Day(a) < Day(b))
  }

  /** Two strings that agree on their first character compare as their tails do. */
  lemma LexLessSameHead(a: string, b: string)
    requires |a| > 0 && |b| > 0 && a[0] == b[0]
    ensures LexLess(a, b) <==> LexLess(a[1..], b[1..])
  {
  }

  /** Comparing full-dates as strings is comparing them as calendar days. */
  lemma StringOrderIsChronological(a: string, b: string)
    requires IsFullDate(a) && IsFullDate(b)
    ensures LexLess(a, b) <==> EarlierDay(a, b)
  {
    assert a == a[..4] + a[4..];
    assert b == b[..4] + b[4..];
    LexLessConcat(a[..4], a[4..], b[..4], b[4..]);
    DigitsOrder(a[..4], b[..4]);
    LexLessSameHead(a[4..], b[4..]);
    assert a[4..][1..] == a[5..] && b[4..][1..] == b[5..];

    assert a[5..] == a[5..7] + a[7..];
    assert b[5..] == b[5..7] + b[7..];
    LexLessConcat(a[5..7], a[7..], b[5..7], b[7..]);
    DigitsOrder(a[5..7], b[5..7]);
    LexLessSameHead(a[7..], b[7..]);
    assert a[7..][1..] == a[8..] && b[7..][1..] == b[8..];

    DigitsOrder(a[8..], b[8..]);
  }
}
