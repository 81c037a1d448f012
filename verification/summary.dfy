/** The summary view's statistics: windowed means over the readings taken
    since a cutoff instant, the all-time means, and the view's own (older)
    classifier of the latest reading. */
module Summary {
  import opened Wrappers
  import opened Seqs
  import opened Means
  import opened Readings
  import BP = BloodPressure

  /** `{ systolic, diastolic, pulse, count }`. */
  datatype Stats = Stats(systolic: int, diastolic: int, pulse: int, count: nat)

  /** The readings taken at or after `cutoff` (the bound is inclusive). */
  function Recent(rs: seq<Reading>, cutoff: int): seq<Reading>
  {
    Filter(rs, (r: Reading) => r.timestamp >= cutoff)
  }

  /** The rounded mean pulse over the readings with a truthy pulse, or 0. */
  function PulseMeanOr0(rs: seq<Reading>): int
  {
    if |PulseValues(rs)| > 0 then RoundedMean(PulseValues(rs)) else 0
  }

  /** The means of a non-empty list of readings. */
  function StatsOf(rs: seq<Reading>): Stats
    requires |rs| > 0
  {
    Stats(RoundedMean(Systolics(rs)), RoundedMean(Diastolics(rs)), PulseMeanOr0(rs), |rs|)
  }

  /** `calculateStats(readings, days)`, with the cutoff instant (now minus the
      given number of days) passed in: absent exactly when no reading falls
      in the window. */
  function CalculateStats(rs: seq<Reading>, cutoff: int): (r: Option<Stats>)
    ensures r.None? <==> forall i :: 0 <= i < |rs| ==> rs[i].timestamp < cutoff
    ensures r.Some? ==> 0 < r.value.count <= |rs|
  {
    var recent := Recent(rs, cutoff);
    if |recent| == 0 then
      None
    else
      Some(StatsOf(recent))
  }

  /** The inline `statsAllTime`: the same means over every reading, and zeros
      (never null) for an empty list. */
  function AllTimeStats(rs: seq<Reading>): (r: Stats)
    ensures r.count == |rs|
    ensures |rs| == 0 ==> r == Stats(0, 0, 0, 0)
  {
    if |rs| == 0 then Stats(0, 0, 0, 0) else StatsOf(rs)
  }

  // ---------------------------------------------------------------------
  // Properties of the statistics

  /** Every reading in the window counts, and only those: the count is the
      number of readings at or after the cutoff. */
  lemma WindowCount(rs: seq<Reading>, cutoff: int)
    ensures CalculateStats(rs, cutoff).Some? ==>
      CalculateStats(rs, cutoff).value.count == Count(rs, (r: Reading) => r.timestamp >= cutoff)
  {
  }

  /** The windowed means lie between the smallest and largest value in the
      window. */
  lemma WindowMeansBetween(rs: seq<Reading>, cutoff: int, lo: int, hi: int)
    requires forall i :: 0 <= i < |rs| && rs[i].timestamp >= cutoff ==>
      lo <= rs[i].systolic <= hi && lo <= rs[i].diastolic <= hi
    ensures CalculateStats(rs, cutoff).Some? ==>
      var st := CalculateStats(rs, cutoff).value;
      lo <= st.systolic <= hi && lo <= st.diastolic <= hi
  {
    var recent := Recent(rs, cutoff);
    if |recent| > 0 {
      MeanBetween(Systolics(recent), lo, hi);
      MeanBetween(Diastolics(recent), lo, hi);
    }
  }

  /** The windowed means are the rounded means of the window's own values, so
      they lie between the window's minimum and maximum. */
  lemma WindowMeansWithinExtremes(rs: seq<Reading>, cutoff: int)
    ensures CalculateStats(rs, cutoff).Some? ==>
      var recent := Recent(rs, cutoff);
      var st := CalculateStats(rs, cutoff).value;
      && MinOf(Systolics(recent)) <= st.systolic <= MaxOf(Systolics(recent))
      && MinOf(Diastolics(recent)) <= st.diastolic <= MaxOf(Diastolics(recent))
  {
    var recent := Recent(rs, cutoff);
    if |recent| > 0 {
      MeanWithinExtremes(Systolics(recent));
      MeanWithinExtremes(Diastolics(recent));
    }
  }

  /** When every pulse is a positive number, the pulse statistic is 0 exactly
      when no reading carries a pulse; it is never a rounded-down mean. */
  lemma {:induction false} PulseZeroIff(rs: seq<Reading>)
    requires forall i :: 0 <= i < |rs| && rs[i].pulse.Some? ==> rs[i].pulse.value >= 0
    ensures PulseMeanOr0(rs) == 0 <==> forall i :: 0 <= i < |rs| ==> !HasPulse(rs[i])
  {
    var ps := PulseValues(rs);
    if |ps| > 0 {
      forall k | 0 <= k < |ps| ensures 1 <= ps[k] <= MaxOf(ps) {
        assert WithPulse(rs)[k] in rs;
      }
      MeanBetween(ps, 1, MaxOf(ps));
      var w := WithPulse(rs)[0];
      assert w in rs && HasPulse(w);
    } else {
      assert |WithPulse(rs)| == 0;
    }
  }

  /** A window that starts no later than the first reading is the whole list:
      the windowed statistics are then the all-time ones. */
  lemma AllTimeIsWidestWindow(rs: seq<Reading>, cutoff: int)
    requires |rs| > 0
    requires forall i :: 0 <= i < |rs| ==> cutoff <= rs[i].timestamp
    ensures CalculateStats(rs, cutoff) == Some(AllTimeStats(rs))
  {
    FilterAll(rs, (r: Reading) => r.timestamp >= cutoff);
  }

  /** A longer look-back never counts fewer readings. */
  lemma WiderWindowCountsMore(rs: seq<Reading>, early: int, late: int)
    requires early <= late
    ensures Count(rs, (r: Reading) => r.timestamp >= late)
         <= Count(rs, (r: Reading) => r.timestamp >= early)
  {
    FilterWeaker(rs, (r: Reading) => r.timestamp >= late, (r: Reading) => r.timestamp >= early);
  }

  /** The statistics depend only on which readings there are, not on their
      order. */
  lemma StatsPermutation(a: seq<Reading>, b: seq<Reading>, cutoff: int)
    requires multiset(a) == multiset(b)
    ensures CalculateStats(a, cutoff) == CalculateStats(b, cutoff)
    ensures AllTimeStats(a) == AllTimeStats(b)
  {
    assert |a| == |multiset(a)| == |multiset(b)| == |b|;
    var ra, rb := Recent(a, cutoff), Recent(b, cutoff);
    FilterPermutation(a, b, (r: Reading) => r.timestamp >= cutoff);
    assert |ra| == |multiset(ra)| == |multiset(rb)| == |rb|;
    if |ra| > 0 {
      StatsOfPermutation(ra, rb);
    }
    if |a| > 0 {
      StatsOfPermutation(a, b);
    }
  }

  lemma StatsOfPermutation(a: seq<Reading>, b: seq<Reading>)
    requires |a| > 0
    requires multiset(a) == multiset(b)
    ensures |b| > 0 && StatsOf(a) == StatsOf(b)
  {
    assert |a| == |multiset(a)| == |multiset(b)| == |b|;
    ProjectionsPermutation(a, b);
    MeanPermutation(Systolics(a), Systolics(b));
    MeanPermutation(Diastolics(a), Diastolics(b));
    if |PulseValues(a)| > 0 {
      MeanPermutation(PulseValues(a), PulseValues(b));
    } else {
      assert |multiset(PulseValues(b))| == 0;
    }
  }

  // ---------------------------------------------------------------------
  // The summary view's own classifier

  /** Which branch of the summary view's `getBPCategory` applies. */
  datatype Band = Crisis | StageTwo | StageOne | Elevated | InRange | Unmatched

  /** The branches, tried in the source's order. */
  function SummaryBand(systolic: int, diastolic: int): (b: Band)
    ensures b == Crisis <==> systolic >= 180 || diastolic >= 120
    ensures b in {Crisis, StageTwo} <==> systolic >= 140 || diastolic >= 90
    ensures b == StageOne <==>
      systolic < 140 && diastolic < 90 && (130 <= systolic || 82 <= diastolic)
    ensures b == Elevated <==> 120 <= systolic < 130 && diastolic < 81
    ensures b == InRange <==> systolic < 120 && diastolic < 81
  {
    if systolic >= 180 || diastolic >= 120 then Crisis
    else if systolic >= 140 || diastolic >= 90 then StageTwo
    else if (130 <= systolic <= 139) || (82 <= diastolic <= 89) then StageOne
    else if 120 <= systolic <= 129 && diastolic < 81 then Elevated
    else if systolic < 120 && diastolic < 81 then InRange
    else Unmatched
  }

  /** The record each branch returns, field by field; the fallback repeats
      the normal one. */
  function BandCategory(b: Band): BP.Category
  {
    BP.Category(BandLabel(b), BandColor(b), BandMessage(b))
  }

  function BandLabel(b: Band): string
  {
    match b
    case Crisis => "Hypertensive Crisis"
    case StageTwo => "High Blood Pressure (Stage 2)"
    case StageOne => "High Blood Pressure (Stage 1)"
    case Elevated => "Elevated"
    case InRange | Unmatched => "Normal"
  }

  function BandColor(b: Band): string
  {
    match b
    case Crisis => "#991b1b"
    case StageTwo => "#dc2626"
    case StageOne => "#ef4444"
    case Elevated => "#f59e0b"
    case InRange | Unmatched => "#10b981"
  }

  function BandMessage(b: Band): string
  {
    match b
    case Crisis => "This is a medical emergency. Seek immediate medical care."
    case StageTwo => "You have stage 2 hypertension. Seek medical attention."
    case StageOne => "You have stage 1 hypertension. Consult with your healthcare provider."
    case Elevated => "Your blood pressure is elevated. Consider lifestyle modifications."
    case InRange | Unmatched => "Your blood pressure is in the normal range. Keep up the good work!"
  }

  /** The summary view's `getBPCategory`: total, one of five records. */
  function SummaryCategory(systolic: int, diastolic: int): (c: BP.Category)
    ensures c.labelText == "Normal" <==>
      (systolic < 120 && diastolic < 81) || (systolic < 130 && diastolic == 81)
    ensures c.labelText == "Hypertensive Crisis" <==> systolic >= 180 || diastolic >= 120
    ensures c.labelText == "High Blood Pressure (Stage 2)" <==>
      systolic < 180 && diastolic < 120 && (systolic >= 140 || diastolic >= 90)
    ensures c.labelText == "High Blood Pressure (Stage 1)" <==>
      systolic < 140 && diastolic < 90 && (130 <= systolic || 82 <= diastolic)
    ensures c.labelText == "Elevated" <==> 120 <= systolic < 130 && diastolic < 81
  {
    var b := SummaryBand(systolic, diastolic);
    LabelsByValue(systolic, diastolic);
    assert BandCategory(b).labelText == BandLabel(b);
    BandCategory(b)
  }

  /** Which label the values get, one label at a time. */
  lemma LabelsByValue(systolic: int, diastolic: int)
    ensures var l := BandLabel(SummaryBand(systolic, diastolic));
      && (l == "Normal" <==> (systolic < 120 && diastolic < 81) || (systolic < 130 && diastolic == 81))
      && (l == "Hypertensive Crisis" <==> systolic >= 180 || diastolic >= 120)
      && (l == "High Blood Pressure (Stage 2)" <==>
           systolic < 180 && diastolic < 120 && (systolic >= 140 || diastolic >= 90))
      && (l == "High Blood Pressure (Stage 1)" <==>
           systolic < 140 && diastolic < 90 && (130 <= systolic || 82 <= diastolic))
      && (l == "Elevated" <==> 120 <= systolic < 130 && diastolic < 81)
  {
    BandLabels(SummaryBand(systolic, diastolic));
    NormalBands(systolic, diastolic);
  }

  /** The two bands labelled "Normal", by the values. */
  lemma NormalBands(systolic: int, diastolic: int)
    ensures var b := SummaryBand(systolic, diastolic);
      b == InRange || b == Unmatched <==>
        (systolic < 120 && diastolic < 81) || (systolic < 130 && diastolic == 81)
  {
  }

  /** Only the two normal bands are labelled "Normal", and only the crisis
      band "Hypertensive Crisis". */
  lemma BandLabels(b: Band)
    ensures BandLabel(b) == "Normal" <==> b == InRange || b == Unmatched
    ensures BandLabel(b) == "Hypertensive Crisis" <==> b == Crisis
    ensures BandLabel(b) == "High Blood Pressure (Stage 2)" <==> b == StageTwo
    ensures BandLabel(b) == "High Blood Pressure (Stage 1)" <==> b == StageOne
    ensures BandLabel(b) == "Elevated" <==> b == Elevated
  {
    // The labels have lengths 6, 8, 19 and 29; the two stage labels differ
    // in their digit.
    var stage1, stage2 := "High Blood Pressure (Stage 1)", "High Blood Pressure (Stage 2)";
    assert stage1[27] != stage2[27];
    match b
    case Crisis =>
    case StageTwo =>
    case StageOne =>
    case Elevated =>
    case InRange =>
    case Unmatched =>
  }


  /** The fallback branch is reachable: it is taken exactly for a diastolic
      value of 81 with a systolic value under 130, which none of the earlier
      tests covers.  Such readings are labelled "Normal". */
  lemma UnmatchedIff(systolic: int, diastolic: int)
    ensures SummaryBand(systolic, diastolic) == Unmatched <==> systolic < 130 && diastolic == 81
    ensures SummaryBand(systolic, diastolic) == Unmatched ==>
      SummaryCategory(systolic, diastolic) == SummaryCategory(110, 70)
  {
  }

  lemma UnmatchedExample()
    ensures SummaryBand(125, 81) == Unmatched
    ensures SummaryCategory(125, 81).labelText == "Normal"
  {
  }

  /** The crisis test is checked first: it wins over every other test. */
  lemma CrisisFirst(systolic: int, diastolic: int)
    requires systolic >= 180 || diastolic >= 120
    ensures SummaryCategory(systolic, diastolic).labelText == "Hypertensive Crisis"
    ensures SummaryCategory(systolic, diastolic).color == BP.Meta(BP.Stage3).color
  {
  }

  /** The summary view calls a reading high (its crisis or stage-2 branch)
      exactly when the shared classifier finds a hypertension stage in
      either component; and its crisis branch always lands on the shared
      classifier's stage 3. */
  lemma AgreesWithSharedClassifier(systolic: int, diastolic: int)
    ensures SummaryBand(systolic, diastolic) in {Crisis, StageTwo} <==>
      BP.OverallHighLevel(BP.SystolicLevel(systolic), BP.DiastolicLevel(diastolic)).Some?
    ensures SummaryBand(systolic, diastolic) == Crisis ==>
      BP.OverallLevel(BP.SystolicLevel(systolic), BP.DiastolicLevel(diastolic)) == BP.Stage3
  {
    if SummaryBand(systolic, diastolic) == Crisis {
      BP.Stage3Dominates(systolic, diastolic);
    }
  }
}
