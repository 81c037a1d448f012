/** The `Reading` record every view works on, and the projections the
    statistics take of it. */
module Readings {
  import opened Wrappers
  import opened Seqs

  /** The closed body-position enum `"seated" | "leaning" | "laying"`. */
  datatype Position = Seated | Leaning | Laying

  /** The position's string value as stored and exported. */
  function PositionName(p: Position): string
  {
    match p
    case Seated => "seated"
    case Leaning => "leaning"
    case Laying => "laying"
  }

  /** One blood-pressure measurement.  `id` is the record's `_id`; `timestamp`
      is the instant the ISO-8601 string denotes, in epoch milliseconds. */
  datatype Reading = Reading(
    id: string,
    systolic: int,
    diastolic: int,
    pulse: Option<int>,
    position: Position,
    note: Option<string>,
    timestamp: int)

  /** The source tests pulses for truthiness, so a pulse of 0 counts as absent. */
  predicate HasPulse(r: Reading)
  {
    r.pulse.Some? && r.pulse.value != 0
  }

  /** `r.pulse || 0`. */
  function PulseOr0(r: Reading): int
  {
    r.pulse.GetOr(0)
  }

  function Systolics(rs: seq<Reading>): seq<int>
  {
    Map(rs, (r: Reading) => r.systolic)
  }

  function Diastolics(rs: seq<Reading>): seq<int>
  {
    Map(rs, (r: Reading) => r.diastolic)
  }

  /** `readings.filter(r => r.pulse)`. */
  function WithPulse(rs: seq<Reading>): seq<Reading>
  {
    Filter(rs, HasPulse)
  }

  /** The pulse values of the readings that have a truthy pulse. */
  function PulseValues(rs: seq<Reading>): seq<int>
  {
    Map(WithPulse(rs), PulseOr0)
  }

  /** `readings.filter(r => r.bodyPosition === p).length`. */
  function PositionCount(rs: seq<Reading>, p: Position): nat
  {
    Count(rs, (r: Reading) => r.position == p)
  }

  /** Every reading has exactly one of the three positions, so the per-position
      counts add up to the number of readings. */
  lemma {:induction false} PositionCountsSum(rs: seq<Reading>)
    ensures PositionCount(rs, Seated) + PositionCount(rs, Leaning) + PositionCount(rs, Laying) == |rs|
  {
    if |rs| > 0 {
      PositionCountsSum(rs[1..]);
    }
  }

  /** Reordering the readings reorders each projection the same way. */
  lemma ProjectionsPermutation(a: seq<Reading>, b: seq<Reading>)
    requires multiset(a) == multiset(b)
    ensures multiset(Systolics(a)) == multiset(Systolics(b))
    ensures multiset(Diastolics(a)) == multiset(Diastolics(b))
    ensures multiset(PulseValues(a)) == multiset(PulseValues(b))
  {
    MapPermutation(a, b, (r: Reading) => r.systolic);
    MapPermutation(a, b, (r: Reading) => r.diastolic);
    FilterPermutation(a, b, HasPulse);
    MapPermutation(WithPulse(a), WithPulse(b), PulseOr0);
  }
}
