/** The dashboard's statistics: the rounded means, the readings with the
    highest and the lowest systolic value (the first one wins a tie), an
    optional pulse mean and the number of readings per body position. */
module Dashboard {
  import opened Wrappers
  import opened Seqs
  import opened Means
  import opened Readings
  import Summary
  import Trends

  function SystolicKey(r: Reading): int
  {
    r.systolic
  }

  function NegatedSystolicKey(r: Reading): int
  {
    -r.systolic
  }

  /** `readings.reduce((acc, r) => key(r) > key(acc) ? r : acc)` with no
      initial value: a left fold from the first reading that takes a later
      reading only when its key is strictly larger. */
  function ReduceBest(rs: seq<Reading>, key: Reading -> int): (r: Reading)
    requires |rs| > 0
    ensures r in rs
    ensures forall i :: 0 <= i < |rs| ==> key(rs[i]) <= key(r)
    decreases |rs|
  {
    if |rs| == 1 then rs[0]
    else
      var init := rs[..|rs| - 1];
      var acc := ReduceBest(init, key);
      var last := rs[|rs| - 1];
      assert forall i :: 0 <= i < |init| ==> rs[i] == init[i];
      if key(last) > key(acc) then last else acc
  }

  /** The position of the first reading whose key is `v`, or the length when
      there is none. */
  function FirstWith(rs: seq<Reading>, key: Reading -> int, v: int): (k: nat)
    ensures k <= |rs|
    ensures k < |rs| ==> key(rs[k]) == v
    ensures forall i :: 0 <= i < k ==> key(rs[i]) != v
  {
    if |rs| == 0 then 0
    else if key(rs[0]) == v then 0
    else 1 + FirstWith(rs[1..], key, v)
  }

  lemma FirstWithAt(rs: seq<Reading>, key: Reading -> int, v: int, j: nat)
    requires j < |rs| && key(rs[j]) == v
    requires forall i :: 0 <= i < j ==> key(rs[i]) != v
    ensures FirstWith(rs, key, v) == j
  {
  }

  /** The fold's result is the first reading with the largest key. */
  lemma {:induction false} ReduceBestIsFirst(rs: seq<Reading>, key: Reading -> int)
    requires |rs| > 0
    ensures var best := ReduceBest(rs, key);
      FirstWith(rs, key, key(best)) < |rs| && rs[FirstWith(rs, key, key(best))] == best
    decreases |rs|
  {
    var best := ReduceBest(rs, key);
    if |rs| == 1 {
      FirstWithAt(rs, key, key(best), 0);
    } else {
      var init := rs[..|rs| - 1];
      var acc := ReduceBest(init, key);
      var last := rs[|rs| - 1];
      if key(last) > key(acc) {
        forall i | 0 <= i < |rs| - 1
          ensures key(rs[i]) != key(last)
        {
          assert rs[i] == init[i];
        }
        FirstWithAt(rs, key, key(last), |rs| - 1);
      } else {
        ReduceBestIsFirst(init, key);
        var k := FirstWith(init, key, key(acc));
        forall i | 0 <= i < k
          ensures key(rs[i]) != key(acc)
        {
          assert rs[i] == init[i];
        }
        assert rs[k] == init[k];
        FirstWithAt(rs, key, key(acc), k);
      }
    }
  }

  /** The reading with the highest systolic value; the earliest wins ties. */
  function Highest(rs: seq<Reading>): (r: Reading)
    requires |rs| > 0
    ensures r in rs && forall i :: 0 <= i < |rs| ==> rs[i].systolic <= r.systolic
  {
    ReduceBest(rs, SystolicKey)
  }

  /** The reading with the lowest systolic value (`r.systolic < min.systolic`
      is `-r.systolic > -min.systolic`); the earliest wins ties. */
  function Lowest(rs: seq<Reading>): (r: Reading)
    requires |rs| > 0
    ensures r in rs && forall i :: 0 <= i < |rs| ==> r.systolic <= rs[i].systolic
  {
    ReduceBest(rs, NegatedSystolicKey)
  }

  /** Every reading before the highest one has a strictly lower systolic
      value, and every reading before the lowest one a strictly higher. */
  lemma FirstOccurrenceWins(rs: seq<Reading>)
    requires |rs| > 0
    ensures exists k :: (0 <= k < |rs| && rs[k] == Highest(rs)
      && forall i :: 0 <= i < k ==> rs[i].systolic < Highest(rs).systolic)
    ensures exists k :: (0 <= k < |rs| && rs[k] == Lowest(rs)
      && forall i :: 0 <= i < k ==> rs[i].systolic > Lowest(rs).systolic)
  {
    ReduceBestIsFirst(rs, SystolicKey);
    ReduceBestIsFirst(rs, NegatedSystolicKey);
    var h := FirstWith(rs, SystolicKey, SystolicKey(Highest(rs)));
    var l := FirstWith(rs, NegatedSystolicKey, NegatedSystolicKey(Lowest(rs)));
    assert rs[h] == Highest(rs);
    assert rs[l] == Lowest(rs);
  }

  /** The optional pulse mean: absent, not 0, when no reading has a truthy
      pulse. */
  function AveragePulse(rs: seq<Reading>): (r: Option<int>)
    ensures r.None? <==> forall i :: 0 <= i < |rs| ==> !HasPulse(rs[i])
  {
    if |PulseValues(rs)| > 0 then Some(RoundedMean(PulseValues(rs))) else None
  }

  /** The `reduce` that builds the record of counts per position, one
      reading at a time. */
  function CountPositions(rs: seq<Reading>): (m: map<Position, nat>)
    ensures forall p :: p in m ==> m[p] > 0
  {
    if |rs| == 0 then map[]
    else
      var acc := CountPositions(rs[..|rs| - 1]);
      var p := rs[|rs| - 1].position;
      acc[p := CountOr0(acc, p) + 1]
  }

  /** A count read as `counts[p] || 0`. */
  function CountOr0(m: map<Position, nat>, p: Position): nat
  {
    if p in m then m[p] else 0
  }

  /** The folded record holds, for each position, the number of readings
      taken in it, and has a key only for positions that occur. */
  lemma {:induction false} CountPositionsAgree(rs: seq<Reading>, p: Position)
    ensures CountOr0(CountPositions(rs), p) == PositionCount(rs, p)
    ensures p in CountPositions(rs) <==> PositionCount(rs, p) > 0
  {
    if |rs| > 0 {
      var init, last := rs[..|rs| - 1], rs[|rs| - 1];
      CountPositionsAgree(init, p);
      assert rs == init + [last];
      FilterAppend(init, [last], (r: Reading) => r.position == p);
    }
  }

  datatype DashboardStats = DashboardStats(
    avgSystolic: int,
    avgDiastolic: int,
    highest: Reading,
    lowest: Reading,
    avgPulse: Option<int>,
    positionCounts: map<Position, nat>,
    totalReadings: nat)

  /** The `stats` memo: absent exactly when there are no readings. */
  function Stats(rs: seq<Reading>): (r: Option<DashboardStats>)
    ensures r.None? <==> |rs| == 0
    ensures r.Some? ==> r.value.totalReadings == |rs|
  {
    if |rs| == 0 then None
    else Some(DashboardStats(
      RoundedMean(Systolics(rs)), RoundedMean(Diastolics(rs)),
      Highest(rs), Lowest(rs), AveragePulse(rs), CountPositions(rs), |rs|))
  }

  /** The three position counts shown add up to the total. */
  lemma PositionCountsTotal(rs: seq<Reading>)
    requires |rs| > 0
    ensures var st := Stats(rs).value;
      CountOr0(st.positionCounts, Seated) + CountOr0(st.positionCounts, Leaning)
        + CountOr0(st.positionCounts, Laying) == st.totalReadings
  {
    CountPositionsAgree(rs, Seated);
    CountPositionsAgree(rs, Leaning);
    CountPositionsAgree(rs, Laying);
    PositionCountsSum(rs);
  }

  /** The dashboard agrees with the trends view: the same means, and the
      systolic values of its highest and lowest readings are the trends'
      highest and lowest systolic values; its pulse mean is the summary's
      all-time pulse figure when present. */
  lemma AgreesWithTrends(rs: seq<Reading>)
    requires |rs| > 0
    ensures var st, t := Stats(rs).value, Trends.CalculateTrends(rs);
      && st.avgSystolic == t.averageSystolic && st.avgDiastolic == t.averageDiastolic
      && st.highest.systolic == t.highestSystolic && st.lowest.systolic == t.lowestSystolic
      && st.avgPulse.GetOr(0) == Summary.AllTimeStats(rs).pulse
  {
    var sys := Systolics(rs);
    var h, l := Highest(rs), Lowest(rs);
    var i :| 0 <= i < |rs| && rs[i] == h;
    var j :| 0 <= j < |rs| && rs[j] == l;
    MaxUnique(sys, i);
    MinUnique(sys, j);
  }
}
