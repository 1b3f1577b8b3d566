/** Aggregating several batteries into one percentage (`src/battery.rs`). */
module Battery {
  import opened Wrappers

  const U64_BOUND := 0x1_0000_0000_0000_0000
  const U128_MAX := 0x1_0000_0000_0000_0000 * 0x1_0000_0000_0000_0000 - 1

  /** The largest number of samples for which no readings at all can reach the 128-bit limit. */
  const MAX_SAMPLES := (U64_BOUND + 1) / 100

  datatype Sample = Energy(current: nat, full: nat) | Charge(current: nat, full: nat) | Capacity(value: nat)

  /** What `read_battery_info` can produce: 64-bit readings, a full value that is not 0 (`raw_ratio`), a capacity capped at
      100. */
  predicate Readable(s: Sample) {
    match s
    case Energy(current, full) => current < U64_BOUND && 0 < full < U64_BOUND
    case Charge(current, full) => current < U64_BOUND && 0 < full < U64_BOUND
    case Capacity(value) => value <= 100
  }

  ghost predicate AllReadable(samples: seq<Sample>) {
    forall i | 0 <= i < |samples| :: Readable(samples[i])
  }

  function Min(a: nat, b: nat): nat { if a <= b then a else b }

  /** `current.saturating_mul(100).checked_div(full).unwrap_or(0).min(100)` on 128-bit values */
  function Percentage(current: nat, full: nat): (p: nat)
    ensures p <= 100
  {
    if full == 0 then 0 else Min(Min(current * 100, U128_MAX) / full, 100)
  }

  function SamplePercentage(s: Sample): nat {
    match s
    case Energy(current, full) => Percentage(current, full)
    case Charge(current, full) => Percentage(current, full)
    case Capacity(value) => value
  }

  /** `u8::try_from(total / count).unwrap_or(100)`, for a total of percentages */
  function Mean(total: nat, count: nat): nat
    requires count > 0
  {
    if total / count < 256 then total / count else 100
  }

  datatype Unit = EnergyUnit | ChargeUnit

  predicate Has(s: Sample, u: Unit) {
    match u
    case EnergyUnit => s.Energy?
    case ChargeUnit => s.Charge?
  }

  predicate AllHave(samples: seq<Sample>, u: Unit) {
    forall i | 0 <= i < |samples| :: Has(samples[i], u)
  }

  function SumCurrent(samples: seq<Sample>, u: Unit): nat
    requires AllHave(samples, u)
  {
    if samples == [] then 0 else SumCurrent(samples[..|samples| - 1], u) + samples[|samples| - 1].current
  }

  function SumFull(samples: seq<Sample>, u: Unit): nat
    requires AllHave(samples, u)
  {
    if samples == [] then 0 else SumFull(samples[..|samples| - 1], u) + samples[|samples| - 1].full
  }

  function SumPercentages(samples: seq<Sample>): nat {
    if samples == [] then 0 else SumPercentages(samples[..|samples| - 1]) + SamplePercentage(samples[|samples| - 1])
  }

  function Aggregate(samples: seq<Sample>): Option<nat> {
    if samples == [] then None
    else if AllHave(samples, EnergyUnit) then Some(Percentage(SumCurrent(samples, EnergyUnit), SumFull(samples, EnergyUnit)))
    else if AllHave(samples, ChargeUnit) then Some(Percentage(SumCurrent(samples, ChargeUnit), SumFull(samples, ChargeUnit)))
    else Some(Mean(SumPercentages(samples), |samples|))
  }

  // ---- the folds ----

  /** `try_fold`: the sums over a unit, or None at the first sample of another kind. */
  method SumUnit(samples: seq<Sample>, u: Unit) returns (r: Option<(nat, nat)>)
    ensures r.Some? <==> AllHave(samples, u)
    ensures r.Some? ==> r.value == (SumCurrent(samples, u), SumFull(samples, u))
  {
    var current, full := 0, 0;
    for i := 0 to |samples|
      invariant AllHave(samples[..i], u)
      invariant current == SumCurrent(samples[..i], u) && full == SumFull(samples[..i], u)
    {
      if !Has(samples[i], u) {
        return None;
      }
      current, full := current + samples[i].current, full + samples[i].full;
      assert samples[..i + 1][..i] == samples[..i];
    }
    assert samples[..|samples|] == samples;
    return Some((current, full));
  }

  method ComputeAggregate(samples: seq<Sample>) returns (r: Option<nat>)
    ensures r == Aggregate(samples)
  {
    if samples == [] {
      return None;
    }
    var energy := SumUnit(samples, EnergyUnit);
    if energy.Some? {
      return Some(Percentage(energy.value.0, energy.value.1));
    }
    var charge := SumUnit(samples, ChargeUnit);
    if charge.Some? {
      return Some(Percentage(charge.value.0, charge.value.1));
    }
    var total := SumAllPercentages(samples);
    return Some(Mean(total, |samples|));
  }

  method SumAllPercentages(samples: seq<Sample>) returns (total: nat)
    ensures total == SumPercentages(samples)
  {
    total := 0;
    for i := 0 to |samples|
      invariant total == SumPercentages(samples[..i])
    {
      total := total + SamplePercentage(samples[i]);
      assert samples[..i + 1][..i] == samples[..i];
    }
    assert samples[..|samples|] == samples;
  }

  // ---- multiplication and division ----

  lemma MulMonotone(a: nat, b: nat, c: nat)
    requires a <= b
    ensures a * c <= b * c
  {
  }

  lemma MulSum(k: nat, a: nat, b: nat)
    ensures k * (a + b) == k * a + k * b
  {
  }

  lemma Quotient(total: nat, full: nat)
    requires full > 0
    ensures total / full * full <= total < (total / full + 1) * full
  {
    var q := total / full;
    assert total == q * full + total % full;
    MulSum(full, q, 1);
  }

  lemma QuotientAtLeast(total: nat, full: nat, low: nat)
    requires full > 0 && low * full <= total
    ensures low <= total / full
  {
    if total / full < low {
      BelowQuotient(total, full, low);
    }
  }

  lemma BelowQuotient(total: nat, full: nat, low: nat)
    requires full > 0 && total / full < low
    ensures total < low * full
  {
    Quotient(total, full);
    MulMonotone(total / full + 1, low, full);
  }

  lemma QuotientAtMost(total: nat, full: nat, high: nat)
    requires full > 0 && total < (high + 1) * full
    ensures total / full <= high
  {
    if total / full > high {
      AboveQuotient(total, full, high);
    }
  }

  lemma AboveQuotient(total: nat, full: nat, high: nat)
    requires full > 0 && total / full > high
    ensures total >= (high + 1) * full
  {
    Quotient(total, full);
    MulMonotone(high + 1, total / full, full);
  }

  // ---- no overflow ----

  lemma {:induction false} SumsAreBounded(samples: seq<Sample>, u: Unit)
    requires AllHave(samples, u) && AllReadable(samples)
    ensures SumCurrent(samples, u) <= |samples| * (U64_BOUND - 1)
    ensures |samples| <= SumFull(samples, u) <= |samples| * (U64_BOUND - 1)
  {
    if samples != [] {
      SumsAreBounded(samples[..|samples| - 1], u);
      assert Readable(samples[|samples| - 1]) && Has(samples[|samples| - 1], u);
    }
  }

  /** With this number of samples nothing saturates, so the 128-bit percentage is the mathematical one. */
  lemma NothingSaturates(samples: seq<Sample>, u: Unit)
    requires AllHave(samples, u) && samples != [] && |samples| <= MAX_SAMPLES
    requires AllReadable(samples)
    ensures SumCurrent(samples, u) * 100 <= U128_MAX && 0 < SumFull(samples, u) <= U128_MAX
    ensures Percentage(SumCurrent(samples, u), SumFull(samples, u)) ==
            Min(SumCurrent(samples, u) * 100 / SumFull(samples, u), 100)
  {
    SumsAreBounded(samples, u);
    MulMonotone(|samples|, MAX_SAMPLES, U64_BOUND - 1);
  }

  // ---- the aggregate lies between the extremes ----

  ghost predicate Within(samples: seq<Sample>, low: nat, high: nat) {
    forall i | 0 <= i < |samples| :: low <= SamplePercentage(samples[i]) <= high
  }

  /** What bounds on a single percentage say about its reading, without division. */
  lemma PercentageBounds(current: nat, full: nat, low: nat, high: nat)
    requires current < U64_BOUND && 0 < full && low <= Percentage(current, full) <= high
    ensures low * full <= current * 100
    ensures high < 100 ==> current * 100 < (high + 1) * full
  {
    var q := current * 100 / full;
    Quotient(current * 100, full);
    MulMonotone(low, q, full);
    if high < 100 {
      MulMonotone(q + 1, high + 1, full);
    }
  }

  lemma {:induction false} WeightedBounds(samples: seq<Sample>, u: Unit, low: nat, high: nat)
    requires AllHave(samples, u) && Within(samples, low, high)
    requires AllReadable(samples)
    ensures low * SumFull(samples, u) <= SumCurrent(samples, u) * 100
    ensures high < 100 && samples != [] ==> SumCurrent(samples, u) * 100 < (high + 1) * SumFull(samples, u)
  {
    if samples != [] {
      var rest, last := samples[..|samples| - 1], samples[|samples| - 1];
      assert Readable(last) && Has(last, u) && low <= SamplePercentage(last) <= high;
      WeightedBounds(rest, u, low, high);
      PercentageBounds(last.current, last.full, low, high);
      MulSum(low, SumFull(rest, u), last.full);
      MulSum(high + 1, SumFull(rest, u), last.full);
      MulSum(100, SumCurrent(rest, u), last.current);
    }
  }

  lemma {:induction false} PercentageSumBounds(samples: seq<Sample>, low: nat, high: nat)
    requires Within(samples, low, high)
    ensures low * |samples| <= SumPercentages(samples) <= high * |samples|
  {
    if samples != [] {
      var n := |samples| - 1;
      PercentageSumBounds(samples[..n], low, high);
      assert low <= SamplePercentage(samples[n]) <= high;
      MulSum(low, n, 1);
      MulSum(high, n, 1);
    }
  }

  /** The floored mediant: dividing the sums stays between the smallest and the largest quotient. */
  lemma WeightedLiesBetween(samples: seq<Sample>, u: Unit, low: nat, high: nat)
    requires samples != [] && |samples| <= MAX_SAMPLES && AllHave(samples, u)
    requires AllReadable(samples)
    requires Within(samples, low, high) && low <= 100 && low <= high
    ensures low <= Percentage(SumCurrent(samples, u), SumFull(samples, u)) <= high
  {
    NothingSaturates(samples, u);
    WeightedBounds(samples, u, low, high);
    QuotientAtLeast(SumCurrent(samples, u) * 100, SumFull(samples, u), low);
    if high < 100 {
      QuotientAtMost(SumCurrent(samples, u) * 100, SumFull(samples, u), high);
    }
  }

  lemma MeanLiesBetween(samples: seq<Sample>, low: nat, high: nat)
    requires samples != [] && Within(samples, low, high) && low <= high <= 100
    ensures low <= Mean(SumPercentages(samples), |samples|) <= high
  {
    PercentageSumBounds(samples, low, high);
    MulSum(|samples|, high, 1);
    QuotientAtLeast(SumPercentages(samples), |samples|, low);
    QuotientAtMost(SumPercentages(samples), |samples|, high);
  }

  /** For energy readings, charge readings and mixtures alike, the aggregate lies between any bounds on the individual
      percentages, in particular between their minimum and maximum, and is itself a percentage. */
  lemma AggregateLiesBetween(samples: seq<Sample>, low: nat, high: nat)
    requires samples != [] && |samples| <= MAX_SAMPLES
    requires AllReadable(samples)
    requires Within(samples, low, high)
    ensures Aggregate(samples).Some? && low <= Aggregate(samples).value <= high && Aggregate(samples).value <= 100
  {
    assert Readable(samples[0]) && low <= SamplePercentage(samples[0]) <= Min(high, 100);
    assert Within(samples, low, Min(high, 100)) by {
      forall i | 0 <= i < |samples|
        ensures low <= SamplePercentage(samples[i]) <= Min(high, 100)
      {
        assert Readable(samples[i]);
      }
    }
    if AllHave(samples, EnergyUnit) {
      WeightedLiesBetween(samples, EnergyUnit, low, Min(high, 100));
    } else if AllHave(samples, ChargeUnit) {
      WeightedLiesBetween(samples, ChargeUnit, low, Min(high, 100));
    } else {
      MeanLiesBetween(samples, low, Min(high, 100));
    }
  }

  /** For all readings of that many batteries the aggregate lies between any bounds on the single percentages. */
  ghost predicate AlwaysBetween(n: nat) {
    forall samples: seq<Sample>, low: nat, high: nat ::
      |samples| == n && AllReadable(samples) && Within(samples, low, high) ==>
        Aggregate(samples).Some? && low <= Aggregate(samples).value <= high
  }

  lemma {:induction false} SumsOfEqual(samples: seq<Sample>, reading: nat)
    requires forall i | 0 <= i < |samples| :: samples[i] == Energy(reading, reading)
    ensures SumCurrent(samples, EnergyUnit) == SumFull(samples, EnergyUnit) == |samples| * reading
  {
    if samples != [] {
      SumsOfEqual(samples[..|samples| - 1], reading);
    }
  }

  /** One sample more, and full batteries with the largest readings are no longer seen as full. */
  lemma FullBatteriesSaturate(n: nat)
    requires n > MAX_SAMPLES
    ensures !AlwaysBetween(n)
  {
    var reading := U64_BOUND - 1;
    var samples := seq(n, i requires 0 <= i < n => Energy(reading, reading));
    var total := n * reading;
    SumsOfEqual(samples, reading);
    assert AllHave(samples, EnergyUnit) && AllReadable(samples);
    assert reading * 100 / reading == 100;
    assert Within(samples, 100, 100);
    MulMonotone(MAX_SAMPLES + 1, n, reading);
    assert total * 100 > U128_MAX;
    QuotientAtMost(U128_MAX, total, 99);
    assert Aggregate(samples).value <= 99;
  }

  /** So that number is exact. */
  lemma AggregateLiesBetweenExactlyUpToMax(n: nat)
    requires n > 0
    ensures AlwaysBetween(n) <==> n <= MAX_SAMPLES
  {
    if n <= MAX_SAMPLES {
      forall samples: seq<Sample>, low: nat, high: nat
        | |samples| == n && AllReadable(samples) && Within(samples, low, high)
        ensures Aggregate(samples).Some? && low <= Aggregate(samples).value <= high
      {
        AggregateLiesBetween(samples, low, high);
      }
    } else {
      FullBatteriesSaturate(n);
    }
  }

  // ---- which percentage it is ----

  /** The percentage of one battery is the largest one that its charge reaches, and never above 100. */
  lemma PercentageIsReached(current: nat, full: nat)
    requires full > 0 && current * 100 <= U128_MAX
    ensures var p := Percentage(current, full);
            p <= 100 && p * full <= current * 100 && (p < 100 ==> current * 100 < (p + 1) * full)
  {
    Quotient(current * 100, full);
    if current * 100 / full > 100 {
      MulMonotone(100, current * 100 / full, full);
    }
  }

  lemma SumsOfOneMore(rest: seq<Sample>, s: Sample, u: Unit)
    requires AllHave(rest, u) && Has(s, u)
    ensures AllHave(rest + [s], u)
    ensures SumCurrent(rest + [s], u) == SumCurrent(rest, u) + s.current && SumFull(rest + [s], u) == SumFull(rest, u) + s.full
  {
    assert (rest + [s])[..|rest|] == rest;
  }

  lemma OneOfAnotherUnit(rest: seq<Sample>, s: Sample, u: Unit)
    requires !Has(s, u)
    ensures !AllHave(rest + [s], u)
  {
    assert (rest + [s])[|rest|] == s;
  }

  lemma AggregateOfUnit(samples: seq<Sample>, u: Unit)
    requires samples != [] && AllHave(samples, u)
    ensures Aggregate(samples) == Some(Percentage(SumCurrent(samples, u), SumFull(samples, u)))
  {
    assert Has(samples[0], u);
  }

  lemma OneBattery(s: Sample)
    requires Readable(s)
    ensures Aggregate([s]) == Some(SamplePercentage(s))
  {
    assert [] + [s] == [s];
    match s
    case Energy(_, _) =>
      SumsOfOneMore([], s, EnergyUnit);
      AggregateOfUnit([s], EnergyUnit);
    case Charge(_, _) =>
      SumsOfOneMore([], s, ChargeUnit);
      AggregateOfUnit([s], ChargeUnit);
    case Capacity(value) =>
      OneOfAnotherUnit([], s, EnergyUnit);
      OneOfAnotherUnit([], s, ChargeUnit);
      OneCapacity(s);
  }

  lemma OneCapacity(s: Sample)
    requires s.Capacity? && s.value <= 100
    ensures Mean(SumPercentages([s]), 1) == s.value
  {
    assert [s][..0] == [] && SumPercentages([s]) == s.value;
  }

  function Merged(a: Sample, b: Sample): Sample
    requires !a.Capacity? && !b.Capacity?
  {
    if a.Energy? then Energy(a.current + b.current, a.full + b.full) else Charge(a.current + b.current, a.full + b.full)
  }

  /** Batteries of one unit count by their size: two of them count as one with their readings added up. */
  lemma TwoBatteriesCountAsOne(rest: seq<Sample>, a: Sample, b: Sample, u: Unit)
    requires AllHave(rest, u) && Has(a, u) && Has(b, u)
    ensures Aggregate(rest + [a, b]) == Aggregate(rest + [Merged(a, b)])
  {
    assert rest + [a, b] == (rest + [a]) + [b];
    SumsOfOneMore(rest, a, u);
    SumsOfOneMore(rest + [a], b, u);
    SumsOfOneMore(rest, Merged(a, b), u);
    AggregateOfUnit(rest + [a, b], u);
    AggregateOfUnit(rest + [Merged(a, b)], u);
  }

  lemma {:induction false} PercentagesAddUp(a: seq<Sample>, b: seq<Sample>)
    ensures SumPercentages(a + b) == SumPercentages(a) + SumPercentages(b)
    decreases |b|
  {
    if b == [] {
      assert a + b == a;
    } else {
      assert (a + b)[..|a + b| - 1] == a + b[..|b| - 1];
      PercentagesAddUp(a, b[..|b| - 1]);
    }
  }

  /** Batteries of different units count alike: the aggregate is the mean of their percentages, rounded down. */
  lemma MixedBatteriesCountAlike(samples: seq<Sample>)
    requires AllReadable(samples) && samples != [] && !AllHave(samples, EnergyUnit) && !AllHave(samples, ChargeUnit)
    ensures Aggregate(samples).Some?
    ensures var p := Aggregate(samples).value; p * |samples| <= SumPercentages(samples) < (p + 1) * |samples|
  {
    assert Within(samples, 0, 100) by {
      forall i | 0 <= i < |samples|
        ensures SamplePercentage(samples[i]) <= 100
      {
        assert Readable(samples[i]);
      }
    }
    PercentageSumBounds(samples, 0, 100);
    QuotientAtMost(SumPercentages(samples), |samples|, 100);
    Quotient(SumPercentages(samples), |samples|);
  }

  /** The sum of the percentages in the mixed average fits into 64 bits, too. */
  lemma MeanSumFits(samples: seq<Sample>)
    requires |samples| <= MAX_SAMPLES
    requires AllReadable(samples)
    ensures SumPercentages(samples) < U64_BOUND
  {
    assert Within(samples, 0, 100) by {
      forall i | 0 <= i < |samples|
        ensures SamplePercentage(samples[i]) <= 100
      {
        assert Readable(samples[i]);
      }
    }
    PercentageSumBounds(samples, 0, 100);
  }
}
