/** The clinical classifier shared by the trend view: two step functions map
    the systolic and diastolic values to a seven-valued level, a rank table
    combines them, and the result is a two-part label, a colour and an
    advisory message. */
module BloodPressure {
  import opened Wrappers
  import Strings

  datatype BPLevel = Low | Optimal | Normal | HighNormal | Stage1 | Stage2 | Stage3

  datatype LevelMeta = LevelMeta(shortLabel: string, longLabel: string, color: string)

  /** The fixed per-level table of labels and colours. */
  function Meta(l: BPLevel): LevelMeta
  {
    match l
    case Low => LevelMeta("Low", "Low", "#0ea5e9")
    case Optimal => LevelMeta("Optimal", "Optimal", "#10b981")
    case Normal => LevelMeta("Normal", "Normal", "#10b981")
    case HighNormal => LevelMeta("High-Normal", "High Normal", "#f59e0b")
    case Stage1 => LevelMeta("High-1", "High (Stage 1)", "#ef4444")
    case Stage2 => LevelMeta("High-2", "High (Stage 2)", "#dc2626")
    case Stage3 => LevelMeta("High-3", "High (Stage 3)", "#991b1b")
  }

  /** Position of a level along the value axis of either step function. */
  function Tier(l: BPLevel): nat
  {
    match l
    case Low => 0
    case Optimal => 1
    case Normal => 2
    case HighNormal => 3
    case Stage1 => 4
    case Stage2 => 5
    case Stage3 => 6
  }

  /** `l` sits at the step the value `v` has climbed to: exactly the first
      `Tier(l)` breakpoints are at or below `v`. */
  predicate AtStep(breakpoints: seq<int>, v: int, l: BPLevel)
  {
    forall i :: 0 <= i < |breakpoints| ==> (breakpoints[i] <= v <==> i < Tier(l))
  }

  const SystolicBreakpoints: seq<int> := [90, 120, 130, 140, 160, 180]
  const DiastolicBreakpoints: seq<int> := [60, 80, 85, 90, 100, 110]

  /** The systolic step function: each interval is closed below and open above. */
  function SystolicLevel(v: int): (r: BPLevel)
    ensures AtStep(SystolicBreakpoints, v, r)
  {
    if v < 90 then Low
    else if v < 120 then Optimal
    else if v < 130 then Normal
    else if v < 140 then HighNormal
    else if v < 160 then Stage1
    else if v < 180 then Stage2
    else Stage3
  }

  /** The diastolic step function, over its own breakpoints. */
  function DiastolicLevel(v: int): (r: BPLevel)
    ensures AtStep(DiastolicBreakpoints, v, r)
  {
    if v < 60 then Low
    else if v < 80 then Optimal
    else if v < 85 then Normal
    else if v < 90 then HighNormal
    else if v < 100 then Stage1
    else if v < 110 then Stage2
    else Stage3
  }

  /** A larger value never sits at a lower step, whatever the breakpoints. */
  lemma StepMonotone(breakpoints: seq<int>, a: int, b: int, la: BPLevel, lb: BPLevel)
    requires a <= b
    requires Tier(la) <= |breakpoints| && Tier(lb) <= |breakpoints|
    requires AtStep(breakpoints, a, la) && AtStep(breakpoints, b, lb)
    ensures Tier(la) <= Tier(lb)
  {
    if Tier(la) > 0 {
      assert breakpoints[Tier(la) - 1] <= a;
    }
  }

  /** Both step functions are monotone: a larger value never gives a lower level. */
  lemma LevelsMonotone(a: int, b: int)
    requires a <= b
    ensures Tier(SystolicLevel(a)) <= Tier(SystolicLevel(b))
    ensures Tier(DiastolicLevel(a)) <= Tier(DiastolicLevel(b))
  {
    StepMonotone(SystolicBreakpoints, a, b, SystolicLevel(a), SystolicLevel(b));
    StepMonotone(DiastolicBreakpoints, a, b, DiastolicLevel(a), DiastolicLevel(b));
  }

  /** The boundaries are closed below: 120/80 already belong to the next level. */
  lemma Boundaries()
    ensures SystolicLevel(119) == Optimal && SystolicLevel(120) == Normal
    ensures DiastolicLevel(79) == Optimal && DiastolicLevel(80) == Normal
  {
  }

  /** The rank table: only the three hypertension stages rank above 0. */
  function Rank(l: BPLevel): nat
  {
    match l
    case Stage1 => 1
    case Stage2 => 2
    case Stage3 => 3
    case _ => 0
  }

  predicate IsStage(l: BPLevel)
  {
    l == Stage1 || l == Stage2 || l == Stage3
  }

  function Max(a: int, b: int): int
  {
    if a >= b then a else b
  }

  /** The stage of the higher-ranked component, or None when neither is a stage. */
  function OverallHighLevel(sys: BPLevel, dia: BPLevel): (r: Option<BPLevel>)
    ensures r.Some? <==> IsStage(sys) || IsStage(dia)
    ensures r.Some? ==> IsStage(r.value) && Rank(r.value) == Max(Rank(sys), Rank(dia))
    ensures r.Some? ==> r.value == sys || r.value == dia
  {
    var maxRank := Max(Rank(sys), Rank(dia));
    if maxRank == 3 then Some(Stage3)
    else if maxRank == 2 then Some(Stage2)
    else if maxRank == 1 then Some(Stage1)
    else None
  }

  lemma OverallHighSymmetric(sys: BPLevel, dia: BPLevel)
    ensures OverallHighLevel(sys, dia) == OverallHighLevel(dia, sys)
  {
  }

  /** The precedence the overall level follows:
      stages (by rank) > highNormal > low > normal > optimal. */
  function Precedence(l: BPLevel): nat
  {
    match l
    case Optimal => 0
    case Normal => 1
    case Low => 2
    case HighNormal => 3
    case Stage1 => 4
    case Stage2 => 5
    case Stage3 => 6
  }

  /** Distinct levels have distinct precedence. */
  lemma PrecedenceInjective(a: BPLevel, b: BPLevel)
    ensures Precedence(a) == Precedence(b) ==> a == b
  {
  }

  /** The overall level: whichever component comes first in the precedence. */
  function OverallLevel(sys: BPLevel, dia: BPLevel): (r: BPLevel)
    ensures r == sys || r == dia
    ensures Precedence(r) == Max(Precedence(sys), Precedence(dia))
  {
    var overallHigh := OverallHighLevel(sys, dia);
    if overallHigh.Some? then overallHigh.value
    else if sys == HighNormal || dia == HighNormal then HighNormal
    else if sys == Low || dia == Low then Low
    else if sys == Normal || dia == Normal then Normal
    else Optimal
  }

  /** One component low while the other is high-normal or a stage. */
  predicate Mixed(sys: BPLevel, dia: BPLevel)
  {
    var hasLow := sys == Low || dia == Low;
    var hasHighNormal := sys == HighNormal || dia == HighNormal;
    hasLow && (OverallHighLevel(sys, dia).Some? || hasHighNormal)
  }

  const MixedMessage: string :=
    "Mixed" + " blood pressure reading. Consider medical advice if this persists."

  /** The advisory text of each overall level.  Each text here and in
      `MixedMessage` is written as its first word followed by the rest, which
      lets the verifier read off the first character. */
  function BaseMessage(l: BPLevel): string
  {
    match l
    case Stage3 => "Severe" + " hypertension per Indian guidelines. Seek urgent medical care."
    case Stage2 => "Stage" + " 2 hypertension per Indian guidelines. Seek medical attention."
    case Stage1 => "Stage" + " 1 hypertension per Indian guidelines. Consult your healthcare provider."
    case HighNormal => "High-normal" + " blood pressure. Consider lifestyle improvements."
    case Low => "Low" + " blood pressure detected. If you feel unwell, consult a clinician."
    case Normal => "Normal" + " blood pressure. Keep monitoring regularly."
    case Optimal => "Optimal" + " blood pressure. Keep up the healthy routine."
  }

  /** The sentence naming both component levels that every message ends with. */
  function ComponentsSentence(sys: BPLevel, dia: BPLevel): string
  {
    " Systolic: " + Meta(sys).longLabel + ". Diastolic: " + Meta(dia).longLabel + "."
  }

  function LabelOf(sys: BPLevel, dia: BPLevel): string
  {
    "S: " + Meta(sys).shortLabel + " | D: " + Meta(dia).shortLabel
  }

  datatype Category = Category(labelText: string, color: string, message: string)

  /** The source's `getBPCategory`: the label shows both component levels,
      the colour is the overall level's, and the message is the overall
      level's advice (or the mixed-reading text) followed by both component levels. */
  function GetBPCategory(systolic: int, diastolic: int): (c: Category)
    ensures var sys, dia := SystolicLevel(systolic), DiastolicLevel(diastolic);
      && (Precedence(sys) >= Precedence(dia) ==> c.color == Meta(sys).color)
      && (Precedence(dia) >= Precedence(sys) ==> c.color == Meta(dia).color)
  {
    var sysLevel := SystolicLevel(systolic);
    var diaLevel := DiastolicLevel(diastolic);
    var hasHighNormal := sysLevel == HighNormal || diaLevel == HighNormal;
    var hasLow := sysLevel == Low || diaLevel == Low;
    var overallHigh := OverallHighLevel(sysLevel, diaLevel);
    var overallLevel := OverallLevel(sysLevel, diaLevel);
    PrecedenceInjective(overallLevel, sysLevel);
    PrecedenceInjective(overallLevel, diaLevel);
    var overallMessage :=
      if hasLow && (overallHigh.Some? || hasHighNormal) then MixedMessage
      else BaseMessage(overallLevel);
    Category(
      LabelOf(sysLevel, diaLevel),
      Meta(overallLevel).color,
      overallMessage + ComponentsSentence(sysLevel, diaLevel))
  }

  /** The mixed-reading override fires exactly when one component is low and
      the other is high-normal or a hypertension stage. */
  lemma MixedIff(sys: BPLevel, dia: BPLevel)
    ensures Mixed(sys, dia) <==>
      (sys == Low && Precedence(dia) >= Precedence(HighNormal)) ||
      (dia == Low && Precedence(sys) >= Precedence(HighNormal))
  {
  }

  /** Systolic 180 or more, or diastolic 110 or more, is always stage 3 with the
      stage-3 colour, whatever the other value; when the other value is low the
      message is the mixed-reading text. */
  lemma Stage3Dominates(systolic: int, diastolic: int)
    requires systolic >= 180 || diastolic >= 110
    ensures OverallLevel(SystolicLevel(systolic), DiastolicLevel(diastolic)) == Stage3
    ensures GetBPCategory(systolic, diastolic).color == "#991b1b"
    ensures systolic < 90 || diastolic < 60 ==>
      GetBPCategory(systolic, diastolic).message
        == MixedMessage + ComponentsSentence(SystolicLevel(systolic), DiastolicLevel(diastolic))
  {
  }

  /** Systolic 90..119 with diastolic 60..79 is optimal, shown in the colour
      that optimal shares with normal. */
  lemma OptimalRange(systolic: int, diastolic: int)
    requires 90 <= systolic <= 119 && 60 <= diastolic <= 79
    ensures OverallLevel(SystolicLevel(systolic), DiastolicLevel(diastolic)) == Optimal
    ensures GetBPCategory(systolic, diastolic).color == "#10b981" == Meta(Normal).color
  {
  }

  lemma BaseMessageNotMixed(l: BPLevel)
    ensures |BaseMessage(l)| > 0 && BaseMessage(l)[0] != MixedMessage[0]
  {
    assert MixedMessage[0] == 'M';
    match l
    case Stage3 => assert BaseMessage(l)[0] == 'S';
    case Stage2 => assert BaseMessage(l)[0] == 'S';
    case Stage1 => assert BaseMessage(l)[0] == 'S';
    case HighNormal => assert BaseMessage(l)[0] == 'H';
    case Low => assert BaseMessage(l)[0] == 'L';
    case Normal => assert BaseMessage(l)[0] == 'N';
    case Optimal => assert BaseMessage(l)[0] == 'O';
  }

  /** The message starts with the mixed-reading text exactly in the mixed case,
      and otherwise with the advice of the overall level alone; it always ends
      by naming both component levels. */
  lemma MessageShape(systolic: int, diastolic: int)
    ensures var sys, dia := SystolicLevel(systolic), DiastolicLevel(diastolic);
      var m := GetBPCategory(systolic, diastolic).message;
      && m == (if Mixed(sys, dia) then MixedMessage else BaseMessage(OverallLevel(sys, dia)))
        + ComponentsSentence(sys, dia)
      && Strings.EndsWith(m, ComponentsSentence(sys, dia))
      && (Strings.StartsWith(m, MixedMessage) <==> Mixed(sys, dia))
      && (!Mixed(sys, dia) ==> Strings.StartsWith(m, BaseMessage(OverallLevel(sys, dia))))
  {
    var sys, dia := SystolicLevel(systolic), DiastolicLevel(diastolic);
    var m := GetBPCategory(systolic, diastolic).message;
    var base := if Mixed(sys, dia) then MixedMessage else BaseMessage(OverallLevel(sys, dia));
    var tail := ComponentsSentence(sys, dia);
    assert m == base + tail;
    assert m[..|base|] == base;
    assert m[|m| - |tail|..] == tail;
    BaseMessageNotMixed(OverallLevel(sys, dia));
    assert m[0] == base[0];
  }

  /** The colour is the overall level's entry in the table. */
  lemma CategoryColor(systolic: int, diastolic: int)
    ensures var sys, dia := SystolicLevel(systolic), DiastolicLevel(diastolic);
      GetBPCategory(systolic, diastolic).color == Meta(OverallLevel(sys, dia)).color
  {
  }

  /** Reads a short label back to its level. */
  function LevelOfShortLabel(s: string): Option<BPLevel>
  {
    if s == "Low" then Some(Low)
    else if s == "Optimal" then Some(Optimal)
    else if s == "Normal" then Some(Normal)
    else if s == "High-Normal" then Some(HighNormal)
    else if s == "High-1" then Some(Stage1)
    else if s == "High-2" then Some(Stage2)
    else if s == "High-3" then Some(Stage3)
    else None
  }

  lemma ShortLabelRoundTrip(l: BPLevel)
    ensures LevelOfShortLabel(Meta(l).shortLabel) == Some(l)
    ensures '|' !in Meta(l).shortLabel
  {
  }

  /** Splits `S: <x> | D: <y>` at the first `|` into its two parts. */
  function SplitLabel(text: string): Option<(string, string)>
  {
    if |text| < 3 || text[..3] != "S: " then None
    else
      var rest := text[3..];
      var k := Strings.IndexOf(rest, '|');
      if k < 1 || |rest| < k + 5 || rest[k - 1..k + 5] != " | D: " then None
      else Some((rest[..k - 1], rest[k + 5..]))
  }

  lemma SplitLabelParts(x: string, y: string)
    requires '|' !in x
    ensures SplitLabel("S: " + x + " | D: " + y) == Some((x, y))
  {
    var tail := " | D: " + y;
    var rest := x + tail;
    var text := "S: " + x + " | D: " + y;
    assert text == "S: " + rest;
    assert text[3..] == rest;
    Strings.IndexOfFirst(x, tail, '|', 1);
    var k := |x| + 1;
    assert rest[..k - 1] == x;
    assert rest[|x|..] == tail;
    assert tail[..6] == " | D: ";
    assert rest[k - 1..k + 5] == rest[|x|..][..6];
    assert rest[k + 5..] == y;
  }

  /** Reads a two-part label back to the two component levels. */
  function DecodeLabel(text: string): Option<(BPLevel, BPLevel)>
  {
    var parts := SplitLabel(text);
    if parts.None? then None
    else
      var sys := LevelOfShortLabel(parts.value.0);
      var dia := LevelOfShortLabel(parts.value.1);
      if sys.Some? && dia.Some? then Some((sys.value, dia.value)) else None
  }

  /** Decoding a two-part label gives back both of its levels. */
  lemma DecodeLabelOf(sys: BPLevel, dia: BPLevel)
    ensures DecodeLabel(LabelOf(sys, dia)) == Some((sys, dia))
  {
    ShortLabelRoundTrip(sys);
    ShortLabelRoundTrip(dia);
    SplitLabelParts(Meta(sys).shortLabel, Meta(dia).shortLabel);
  }

  /** The label always names both component levels, whatever the overall
      level: decoding it gives back the systolic and the diastolic level. */
  lemma LabelRoundTrip(systolic: int, diastolic: int)
    ensures DecodeLabel(GetBPCategory(systolic, diastolic).labelText)
         == Some((SystolicLevel(systolic), DiastolicLevel(diastolic)))
  {
    DecodeLabelOf(SystolicLevel(systolic), DiastolicLevel(diastolic));
  }
}
