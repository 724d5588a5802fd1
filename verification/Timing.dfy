/** Running minimum, mean and maximum of timing samples, over the reals. */
module Timing {
  function Sum(values: seq<real>): real {
    if values == [] then 0.0 else Sum(values[..|values| - 1]) + values[|values| - 1]
  }

  /** The extremes are attained bounds and the mean is sum over count. */
  ghost predicate Describes(samples: nat, minimum: real, mean: real, maximum: real, values: seq<real>) {
    && samples == |values|
    && (samples > 0 ==>
          && minimum in values && maximum in values && (forall v | v in values :: minimum <= v <= maximum)
          && mean * samples as real == Sum(values))
  }

  lemma {:induction false} SumBounds(values: seq<real>, low: real, high: real)
    requires forall v | v in values :: low <= v <= high
    ensures low * |values| as real <= Sum(values) <= high * |values| as real
  {
    if values != [] {
      var before, last := values[..|values| - 1], values[|values| - 1];
      assert forall v | v in before :: v in values;
      SumBounds(before, low, high);
      assert last in values;
      var n := |before| as real;
      assert low * (n + 1.0) == low * n + low && high * (n + 1.0) == high * n + high;
    }
  }

  /** The mean lies between the extremes. */
  lemma MeanIsBetween(samples: nat, minimum: real, mean: real, maximum: real, values: seq<real>)
    requires Describes(samples, minimum, mean, maximum, values) && samples > 0
    ensures minimum <= mean <= maximum
  {
    SumBounds(values, minimum, maximum);
    Cancel(minimum, mean, samples as real);
    Cancel(mean, maximum, samples as real);
  }

  lemma Cancel(a: real, b: real, n: real)
    requires n > 0.0 && a * n <= b * n
    ensures a <= b
  {
    assert (a - b) * n <= 0.0;
  }

  /** Both incremental forms of the mean are the mean. */
  lemma MeanAdds(mean: real, n: nat, us: real)
    ensures (mean + (us - mean) / (n + 1) as real) * (n + 1) as real == mean * n as real + us
    ensures (mean * n as real + us) / (n + 1) as real * (n + 1) as real == mean * n as real + us
  {
    var m := (n + 1) as real;
    assert (us - mean) / m * m == us - mean;
    assert mean * m == mean * n as real + mean;
  }

  lemma SumSnoc(values: seq<real>, us: real)
    ensures Sum(values + [us]) == Sum(values) + us
  {
    assert (values + [us])[..|values|] == values;
  }

  lemma DescribesSnoc(samples: nat, minimum: real, mean: real, maximum: real, values: seq<real>, us: real, mean': real)
    requires Describes(samples, minimum, mean, maximum, values)
    requires mean' * (samples + 1) as real == (if samples == 0 then 0.0 else mean * samples as real) + us
    ensures Describes(samples + 1, if samples == 0 || us < minimum then us else minimum, mean',
                      if samples == 0 || us > maximum then us else maximum, values + [us])
  {
    SumSnoc(values, us);
    assert (values + [us])[samples] == us;
    assert forall v | v in values + [us] :: v in values || v == us;
    assert forall v | v in values :: v in values + [us];
    if samples == 0 {
      assert Sum(values) == 0.0;
    }
  }

  /** One timing statistic of a report window. */
  datatype Summary = Summary(samples: nat, minimum: real, average: real, maximum: real)

  /** Count, extremes and mean of exactly these samples. */
  ghost predicate Summarizes(s: Summary, values: seq<real>) {
    Describes(s.samples, s.minimum, s.average, s.maximum, values)
  }

  class TimingSummary {
    var samples: nat
    var minimum: real
    var average: real
    var maximum: real
    ghost var values: seq<real>

    ghost predicate Valid()
      reads this
    {
      Describes(samples, minimum, average, maximum, values) && (samples == 0 ==> average == 0.0)
    }

    constructor ()
      ensures Valid() && values == []
    {
      samples, minimum, average, maximum, values := 0, 0.0, 0.0, 0.0, [];
    }

    function Value(): Summary
      reads this
    {
      Summary(samples, minimum, average, maximum)
    }

    method Add(us: real)
      requires Valid()
      modifies this
      ensures Valid() && values == old(values) + [us]
    {
      MeanAdds(average, samples, us);
      DescribesSnoc(samples, minimum, average, maximum, values, us, average + (us - average) / (samples + 1) as real);
      if samples == 0 || us < minimum {
        minimum := us;
      }
      if samples == 0 || us > maximum {
        maximum := us;
      }
      samples := samples + 1;
      average := average + (us - average) / samples as real;
      values := values + [us];
    }

    /** A new window starts. */
    method Clear()
      modifies this
      ensures Valid() && values == []
    {
      samples, minimum, average, maximum, values := 0, 0.0, 0.0, 0.0, [];
    }
  }

  /** The cycle statistics published to shared memory; `values` are the durations since the last reset. */
  class CycleStatistics {
    var cycles: nat
    var missedDeadlines: nat
    var minimum: real
    var maximum: real
    var average: real
    var current: real
    ghost var values: seq<real>

    ghost predicate Valid()
      reads `cycles, `minimum, `maximum, `average, `values
    {
      Describes(cycles, minimum, average, maximum, values)
    }

    constructor ()
      ensures Valid() && values == [] && missedDeadlines == 0 && current == 0.0
    {
      cycles, missedDeadlines, values := 0, 0, [];
      minimum, maximum, average, current := 0.0, 0.0, 0.0, 0.0;
    }

    /** The latest duration, before its cycle is accounted. */
    method Measure(us: real)
      modifies this`current
      ensures current == us
    {
      current := us;
    }

    method Account(us: real)
      requires Valid()
      modifies this
      ensures Valid() && values == old(values) + [us] && current == us
      ensures missedDeadlines == old(missedDeadlines)
    {
      current := us;
      if cycles == 0 {
        DescribesSnoc(cycles, minimum, average, maximum, values, us, us);
        minimum, maximum, average, cycles := us, us, us, 1;
        values := values + [us];
        return;
      }
      var accumulated := average * cycles as real;
      var next := cycles + 1;
      MeanAdds(average, cycles, us);
      DescribesSnoc(cycles, minimum, average, maximum, values, us, (accumulated + us) / next as real);
      if us < minimum {
        minimum := us;
      }
      if us > maximum {
        maximum := us;
      }
      average := (accumulated + us) / next as real;
      cycles := next;
      values := values + [us];
    }

    /** Clears the timing aggregates only: missed deadlines are never forgotten. */
    method ResetTiming()
      modifies this
      ensures Valid() && values == [] && cycles == 0
      ensures minimum == 0.0 && maximum == 0.0 && average == 0.0 && current == 0.0
      ensures missedDeadlines == old(missedDeadlines)
    {
      cycles, values := 0, [];
      minimum, maximum, average, current := 0.0, 0.0, 0.0, 0.0;
    }

    method Miss(missed: nat)
      modifies this`missedDeadlines
      ensures missedDeadlines == old(missedDeadlines) + missed
    {
      missedDeadlines := missedDeadlines + missed;
    }
  }
}
