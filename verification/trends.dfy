/** The trends view: extremes and means over all readings, counts per body
    position, and the chart series with its trailing rolling averages. */
module Trends {
  import opened Wrappers
  import opened Seqs
  import opened Means
  import opened Readings
  import opened TimeOrder
  import BP = BloodPressure
  import Summary

  datatype TrendStats = TrendStats(
    averageSystolic: int,
    averageDiastolic: int,
    averagePulse: int,
    highestSystolic: int,
    lowestSystolic: int,
    highestDiastolic: int,
    lowestDiastolic: int)

  /** `calculateTrends`: all zeros for no readings; otherwise the rounded
      means, the pulse mean over truthy pulses (or 0), and the extremes of
      each component taken separately. */
  function CalculateTrends(rs: seq<Reading>): (t: TrendStats)
    ensures |rs| == 0 ==> t == TrendStats(0, 0, 0, 0, 0, 0, 0)
    ensures |rs| > 0 ==>
      && t.lowestSystolic <= t.averageSystolic <= t.highestSystolic
      && t.lowestDiastolic <= t.averageDiastolic <= t.highestDiastolic
      && t.highestSystolic in Systolics(rs) && t.lowestSystolic in Systolics(rs)
      && t.highestDiastolic in Diastolics(rs) && t.lowestDiastolic in Diastolics(rs)
    ensures forall i :: 0 <= i < |rs| ==>
      && t.lowestSystolic <= rs[i].systolic <= t.highestSystolic
      && t.lowestDiastolic <= rs[i].diastolic <= t.highestDiastolic
  {
    if |rs| == 0 then TrendStats(0, 0, 0, 0, 0, 0, 0)
    else
      var sys, dia := Systolics(rs), Diastolics(rs);
      MeanWithinExtremes(sys);
      MeanWithinExtremes(dia);
      TrendStats(
        RoundedMean(sys), RoundedMean(dia), Summary.PulseMeanOr0(rs),
        MaxOf(sys), MinOf(sys), MaxOf(dia), MinOf(dia))
  }

  /** The trend means are the all-time means of the summary view. */
  lemma TrendsMatchAllTime(rs: seq<Reading>)
    ensures var t, a := CalculateTrends(rs), Summary.AllTimeStats(rs);
      t.averageSystolic == a.systolic && t.averageDiastolic == a.diastolic
      && t.averagePulse == a.pulse
  {
  }

  /** The trend figures depend only on which readings there are. */
  lemma TrendsPermutation(a: seq<Reading>, b: seq<Reading>)
    requires multiset(a) == multiset(b)
    ensures CalculateTrends(a) == CalculateTrends(b)
  {
    assert |a| == |multiset(a)| == |multiset(b)| == |b|;
    if |a| > 0 {
      Summary.StatsOfPermutation(a, b);
      ProjectionsPermutation(a, b);
      ExtremesPermutation(Systolics(a), Systolics(b));
      ExtremesPermutation(Diastolics(a), Diastolics(b));
    }
  }

  datatype PositionStats = PositionStats(seated: nat, leaning: nat, laying: nat)

  /** `getBodyPositionStats`: every reading is counted under exactly one of
      the three positions. */
  function BodyPositionStats(rs: seq<Reading>): (p: PositionStats)
    ensures p.seated + p.leaning + p.laying == |rs|
  {
    PositionCountsSum(rs);
    PositionStats(PositionCount(rs, Seated), PositionCount(rs, Leaning), PositionCount(rs, Laying))
  }

  // ---------------------------------------------------------------------
  // Rolling average

  /** `Math.max(0, index - windowSize + 1)`. */
  function WindowStart(index: int, w: int): int
  {
    if index - w + 1 > 0 then index - w + 1 else 0
  }

  /** The values the rolling average at `index` takes in: up to `w` values
      ending at `index`, fewer near the start. */
  function Window(values: seq<int>, index: int, w: int): (win: seq<int>)
    requires 0 <= index < |values| && w >= 1
    ensures 0 < |win| <= w
    ensures |win| == if index + 1 < w then index + 1 else w
    ensures win[|win| - 1] == values[index]
  {
    values[WindowStart(index, w)..index + 1]
  }

  /** `getRollingAverage(values, index, windowSize)`: the rounded mean of the
      window, which lies between the window's smallest and largest value. */
  function RollingAverage(values: seq<int>, index: int, w: int): (r: int)
    requires 0 <= index < |values| && w >= 1
    ensures MinOf(Window(values, index, w)) <= r <= MaxOf(Window(values, index, w))
  {
    MeanWithinExtremes(Window(values, index, w));
    RoundedMean(Window(values, index, w))
  }

  /** The first point's average is its own value, and so is every point's
      with a window of one. */
  lemma RollingOwnValue(values: seq<int>, index: int, w: int)
    requires 0 <= index < |values| && w >= 1
    requires index == 0 || w == 1
    ensures RollingAverage(values, index, w) == values[index]
  {
    assert Window(values, index, w) == [values[index]];
    MeanOfOne(values[index]);
  }

  /** The average looks only backwards: values after `index` do not change it. */
  lemma RollingIsTrailing(values: seq<int>, more: seq<int>, index: int, w: int)
    requires 0 <= index < |values| && w >= 1
    ensures RollingAverage(values + more, index, w) == RollingAverage(values, index, w)
  {
    assert Window(values + more, index, w) == Window(values, index, w);
  }

  /** A run of equal values averages to that value. */
  lemma RollingConstant(values: seq<int>, index: int, w: int, c: int)
    requires 0 <= index < |values| && w >= 1
    requires forall k :: 0 <= k < |values| ==> values[k] == c
    ensures RollingAverage(values, index, w) == c
  {
    var win := Window(values, index, w);
    MeanBetween(win, c, c);
  }

  // ---------------------------------------------------------------------
  // Chart series

  datatype ChartPoint = ChartPoint(
    date: string, systolic: int, diastolic: int, systolicAvg: int, diastolicAvg: int)

  const ChartWindow := 7

  /** `chartData`: one point per reading in ascending time order, with the
      7-point rolling averages of the sorted series.  `labelOf` is the
      short date label of a timestamp. */
  function ChartData(rs: seq<Reading>, labelOf: int -> string): (points: seq<ChartPoint>)
    ensures |points| == |rs|
  {
    var sorted := SortByTime(rs);
    var sys, dia := Systolics(sorted), Diastolics(sorted);
    seq(|sorted|, i requires 0 <= i < |sorted| =>
      ChartPoint(labelOf(sorted[i].timestamp), sorted[i].systolic, sorted[i].diastolic,
                 RollingAverage(sys, i, ChartWindow), RollingAverage(dia, i, ChartWindow)))
  }

  function PointSystolics(points: seq<ChartPoint>): seq<int>
  {
    Map(points, (p: ChartPoint) => p.systolic)
  }

  /** The chart shows every reading once, in the stable ascending time order:
      point i carries the i-th reading of that order, and the plotted systolic
      values are the input's systolic values rearranged. */
  lemma ChartFollowsTimeOrder(rs: seq<Reading>, labelOf: int -> string)
    ensures var points, sorted := ChartData(rs, labelOf), SortByTime(rs);
      && SortedByTime(sorted) && SameOrderPerTime(sorted, rs)
      && (forall i :: 0 <= i < |points| ==>
            && points[i].systolic == sorted[i].systolic
            && points[i].diastolic == sorted[i].diastolic
            && points[i].date == labelOf(sorted[i].timestamp))
      && multiset(PointSystolics(points)) == multiset(Systolics(rs))
  {
    var points, sorted := ChartData(rs, labelOf), SortByTime(rs);
    assert PointSystolics(points) == Systolics(sorted);
    MapPermutation(sorted, rs, (r: Reading) => r.systolic);
  }

  /** Readings that arrive already in time order are plotted in that order. */
  lemma ChartOfSortedInput(rs: seq<Reading>, labelOf: int -> string)
    requires SortedByTime(rs)
    ensures forall i :: 0 <= i < |rs| ==>
      ChartData(rs, labelOf)[i].systolic == rs[i].systolic
      && ChartData(rs, labelOf)[i].diastolic == rs[i].diastolic
  {
    SortSorted(rs);
  }

  /** Each plotted average is the rolling mean over the last seven values of
      its series in time order, so it lies between their extremes, and the
      first point's average is its own value. */
  lemma ChartAverages(rs: seq<Reading>, labelOf: int -> string)
    ensures var points, sys, dia := ChartData(rs, labelOf), Systolics(SortByTime(rs)), Diastolics(SortByTime(rs));
      && (forall i :: 0 <= i < |points| ==>
            && points[i].systolicAvg == RollingAverage(sys, i, ChartWindow)
            && points[i].diastolicAvg == RollingAverage(dia, i, ChartWindow))
      && (forall i :: 0 <= i < |points| ==>
            MinOf(Window(sys, i, ChartWindow)) <= points[i].systolicAvg
              <= MaxOf(Window(sys, i, ChartWindow)))
      && (forall i :: 0 <= i < |points| ==>
            MinOf(Window(dia, i, ChartWindow)) <= points[i].diastolicAvg
              <= MaxOf(Window(dia, i, ChartWindow)))
      && (|points| > 0 ==> points[0].systolicAvg == points[0].systolic)
      && (|points| > 0 ==> points[0].diastolicAvg == points[0].diastolic)
  {
    var points, sys, dia := ChartData(rs, labelOf), Systolics(SortByTime(rs)), Diastolics(SortByTime(rs));
    forall i | 0 <= i < |points|
      ensures points[i].systolicAvg == RollingAverage(sys, i, ChartWindow)
      ensures points[i].diastolicAvg == RollingAverage(dia, i, ChartWindow)
    {
    }
    if |points| > 0 {
      RollingOwnValue(sys, 0, ChartWindow);
      RollingOwnValue(dia, 0, ChartWindow);
      assert points[0].systolic == sys[0];
      assert points[0].diastolic == dia[0];
    }
  }

  // ---------------------------------------------------------------------
  // Average category

  /** The category of the average reading, present only when there are
      readings. */
  function AverageCategory(rs: seq<Reading>): (c: Option<BP.Category>)
    ensures c.Some? <==> |rs| > 0
  {
    if |rs| > 0 then
      var t := CalculateTrends(rs);
      Some(BP.GetBPCategory(t.averageSystolic, t.averageDiastolic))
    else None
  }

  /** The average category names the levels of the rounded averages, and
      those lie between the levels of the lowest and the highest reading. */
  lemma AverageCategoryLevels(rs: seq<Reading>)
    requires |rs| > 0
    ensures var t := CalculateTrends(rs);
      && BP.DecodeLabel(AverageCategory(rs).value.labelText)
           == Some((BP.SystolicLevel(t.averageSystolic), BP.DiastolicLevel(t.averageDiastolic)))
      && BP.Tier(BP.SystolicLevel(t.lowestSystolic)) <= BP.Tier(BP.SystolicLevel(t.averageSystolic))
           <= BP.Tier(BP.SystolicLevel(t.highestSystolic))
      && BP.Tier(BP.DiastolicLevel(t.lowestDiastolic)) <= BP.Tier(BP.DiastolicLevel(t.averageDiastolic))
           <= BP.Tier(BP.DiastolicLevel(t.highestDiastolic))
  {
    var t := CalculateTrends(rs);
    BP.LabelRoundTrip(t.averageSystolic, t.averageDiastolic);
    BP.LevelsMonotone(t.lowestSystolic, t.averageSystolic);
    BP.LevelsMonotone(t.averageSystolic, t.highestSystolic);
    BP.LevelsMonotone(t.lowestDiastolic, t.averageDiastolic);
    BP.LevelsMonotone(t.averageDiastolic, t.highestDiastolic);
  }
}
