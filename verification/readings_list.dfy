/** The list view's badge classifier and its position label. */
module ReadingsList {
  import opened Readings
  import Summary

  datatype Badge = Badge(labelText: string, color: string)

  const NormalBadge := Badge("Normal", "#10b981")
  const ElevatedBadge := Badge("Elevated", "#f59e0b")
  const HighBadge := Badge("High BP", "#ef4444")
  const SevereBadge := Badge("High BP", "#dc2626")
  const CrisisBadge := Badge("Crisis", "#991b1b")

  /** Order of the five badges from mildest to most severe. */
  function Severity(b: Badge): nat
  {
    if b == NormalBadge then 0
    else if b == ElevatedBadge then 1
    else if b == HighBadge then 2
    else if b == SevereBadge then 3
    else 4
  }

  /** The list view's `getBPCategory` as written: the third and fourth tests
      join their comparisons with `||`, so one component below its threshold
      keeps the reading in the milder badge; it is never harsher than the
      corrected classifier. */
  function ListCategory(systolic: int, diastolic: int): (b: Badge)
    ensures Severity(b) <= Severity(ListCategoryCorrected(systolic, diastolic))
    ensures Severity(b) >= 3 <==> systolic >= 140 && diastolic >= 90
    ensures b == HighBadge <==>
      !(systolic < 130 && diastolic < 80) && (systolic < 140 || diastolic < 90)
  {
    if systolic < 120 && diastolic < 80 then NormalBadge
    else if systolic < 130 && diastolic < 80 then ElevatedBadge
    else if systolic < 140 || diastolic < 90 then HighBadge
    else if systolic < 180 || diastolic < 120 then SevereBadge
    else CrisisBadge
  }

  /** The classifier with `&&` in the third and fourth tests: either component
      at or above a threshold is enough, as in the other two classifiers. */
  function ListCategoryCorrected(systolic: int, diastolic: int): (b: Badge)
    ensures b == CrisisBadge <==> systolic >= 180 || diastolic >= 120
    ensures Severity(b) >= 3 <==> systolic >= 140 || diastolic >= 90
    ensures b == NormalBadge <==> systolic < 120 && diastolic < 80
  {
    if systolic < 120 && diastolic < 80 then NormalBadge
    else if systolic < 130 && diastolic < 80 then ElevatedBadge
    else if systolic < 140 && diastolic < 90 then HighBadge
    else if systolic < 180 && diastolic < 120 then SevereBadge
    else CrisisBadge
  }

  // ---------------------------------------------------------------------
  // As written

  /** The first two badges: normal below 120/80, elevated from 120 to 129
      systolic with diastolic below 80. */
  lemma ListLowBands(systolic: int, diastolic: int)
    ensures ListCategory(systolic, diastolic) == NormalBadge <==> systolic < 120 && diastolic < 80
    ensures ListCategory(systolic, diastolic) == ElevatedBadge <==>
      120 <= systolic < 130 && diastolic < 80
  {
  }

  /** As written, the crisis badge needs both components in the crisis range. */
  lemma ListCrisisIff(systolic: int, diastolic: int)
    ensures ListCategory(systolic, diastolic) == CrisisBadge <==> systolic >= 180 && diastolic >= 120
  {
  }

  /** A systolic value of 200 with a diastolic value of 85 gets the mildest
      "High BP" badge, although the summary view calls it a crisis. */
  lemma ListCrisisCounterexample()
    ensures ListCategory(200, 85) == HighBadge
    ensures Summary.SummaryBand(200, 85) == Summary.Crisis
    ensures ListCategoryCorrected(200, 85) == CrisisBadge
  {
  }

  /** Both versions are monotone: raising either value never gives a milder
      badge. */
  lemma SeverityMonotone(s1: int, d1: int, s2: int, d2: int)
    requires s1 <= s2 && d1 <= d2
    ensures Severity(ListCategory(s1, d1)) <= Severity(ListCategory(s2, d2))
    ensures Severity(ListCategoryCorrected(s1, d1)) <= Severity(ListCategoryCorrected(s2, d2))
  {
  }

  // ---------------------------------------------------------------------
  // Corrected

  /** The corrected badge agrees with the summary view's classifier on what
      is a crisis and what is stage 2 or worse. */
  lemma CorrectedAgreesWithSummary(systolic: int, diastolic: int)
    ensures ListCategoryCorrected(systolic, diastolic) == CrisisBadge <==>
      Summary.SummaryBand(systolic, diastolic) == Summary.Crisis
    ensures Severity(ListCategoryCorrected(systolic, diastolic)) >= 3 <==>
      Summary.SummaryBand(systolic, diastolic) in {Summary.Crisis, Summary.StageTwo}
  {
  }

  /** The two versions differ only for split readings: when both components
      are on the same side of the stage-2 and of the crisis thresholds they
      give the same badge. */
  lemma AgreeUnlessSplit(systolic: int, diastolic: int)
    requires (systolic < 140 <==> diastolic < 90)
    requires (systolic < 180 <==> diastolic < 120)
    ensures ListCategory(systolic, diastolic) == ListCategoryCorrected(systolic, diastolic)
  {
  }

  // ---------------------------------------------------------------------
  // Position label

  /** `toUpperCase` on one character, for the ASCII letters. */
  function ToUpperAscii(c: char): char
  {
    if 'a' <= c <= 'z' then (c as int - 32) as char else c
  }

  function ToLowerAscii(c: char): char
  {
    if 'A' <= c <= 'Z' then (c as int + 32) as char else c
  }

  /** `getPositionLabel`: the first character upper-cased, the rest kept. */
  function PositionLabel(position: string): (r: string)
    ensures |r| == |position|
    ensures forall i :: 1 <= i < |r| ==> r[i] == position[i]
    ensures |r| > 0 ==> !('a' <= r[0] <= 'z')
    ensures |r| > 0 ==> ToLowerAscii(r[0]) == ToLowerAscii(position[0])
  {
    if |position| == 0 then "" else [ToUpperAscii(position[0])] + position[1..]
  }

  /** Labelling twice is labelling once. */
  lemma PositionLabelIdempotent(position: string)
    ensures PositionLabel(PositionLabel(position)) == PositionLabel(position)
  {
  }

  /** The three positions are shown as "Seated", "Leaning" and "Laying", and
      lower-casing the first letter gives back the stored name. */
  lemma PositionLabels(p: Position)
    ensures PositionLabel(PositionName(Seated)) == "Seated"
    ensures PositionLabel(PositionName(Leaning)) == "Leaning"
    ensures PositionLabel(PositionName(Laying)) == "Laying"
    ensures var l := PositionLabel(PositionName(p));
      [ToLowerAscii(l[0])] + l[1..] == PositionName(p)
  {
    var n := PositionName(p);
    assert n == [n[0]] + n[1..];
  }
}
