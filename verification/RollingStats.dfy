/** Latency statistics over a sliding window of samples, kept up to date sample by
    sample. Rounding is not modelled: samples are reals. */
module RollingStats {

  const LATENCY_WINDOW: nat := 100

  // ---- the plain statistics ----------------------------------------------------

  function Sum(s: seq<real>): (r: real)
    decreases |s|
  {
    if s == [] then 0.0 else Sum(s[..|s| - 1]) + s[|s| - 1]
  }

  function SumOfSquares(s: seq<real>): (r: real)
    decreases |s|
  {
    if s == [] then 0.0 else SumOfSquares(s[..|s| - 1]) + s[|s| - 1] * s[|s| - 1]
  }

  function Average(s: seq<real>): (r: real) { if s == [] then 0.0 else Sum(s) / |s| as real }

  /** The sum of the squared distances of the samples from `centre`. */
  function Spread(s: seq<real>, centre: real): (r: real)
    decreases |s|
  {
    if s == [] then 0.0
    else Spread(s[..|s| - 1], centre) + (s[|s| - 1] - centre) * (s[|s| - 1] - centre)
  }

  /** The window after one more sample. */
  function Pushed(s: seq<real>, value: real): (r: seq<real>)
    ensures |s| <= LATENCY_WINDOW ==> |r| <= LATENCY_WINDOW
  {
    (if |s| < LATENCY_WINDOW then s else s[1..]) + [value]
  }

  // ---- sums ----------------------------------------------------------------------

  lemma Square(x: real)
    ensures x * x >= 0.0
  {
  }

  lemma SpreadStep(spread: real, q: real, s: real, n: real, q': real, s': real, m: real, c: real, x: real)
    requires spread == q - 2.0 * c * s + n * (c * c)
    requires m == n + 1.0 && s' == s + x && q' == q + x * x
    ensures spread + (x - c) * (x - c) == q' - 2.0 * c * s' + m * (c * c)
  {
    assert (x - c) * (x - c) == x * x - 2.0 * c * x + c * c;
  }

  lemma {:induction false} SpreadFromSums(s: seq<real>, centre: real)
    ensures Spread(s, centre) == SumOfSquares(s) - 2.0 * centre * Sum(s) + |s| as real * (centre * centre)
    decreases |s|
  {
    if s != [] {
      var x, t := s[|s| - 1], s[..|s| - 1];
      SpreadFromSums(t, centre);
      SpreadStep(Spread(t, centre), SumOfSquares(t), Sum(t), |t| as real,
                 SumOfSquares(s), Sum(s), |s| as real, centre, x);
    }
  }

  lemma DistributeReal(x: real, y: real, z: real)
    ensures x * (y + z) == x * y + x * z && (y + z) * x == y * x + z * x
  {
  }

  lemma {:induction false} SpreadNonNegative(s: seq<real>, centre: real)
    ensures Spread(s, centre) >= 0.0
    decreases |s|
  {
    if s != [] {
      SpreadNonNegative(s[..|s| - 1], centre);
      Square(s[|s| - 1] - centre);
    }
  }

  lemma {:induction false} SumsOfTail(s: seq<real>)
    requires s != []
    ensures Sum(s[1..]) == Sum(s) - s[0] && SumOfSquares(s[1..]) == SumOfSquares(s) - s[0] * s[0]
    decreases |s|
  {
    if |s| > 1 {
      SumsOfTail(s[..|s| - 1]);
      assert s[1..][..|s| - 2] == s[..|s| - 1][1..];
    }
  }

  lemma SumsOfAppend(s: seq<real>, value: real)
    ensures Sum(s + [value]) == Sum(s) + value
    ensures SumOfSquares(s + [value]) == SumOfSquares(s) + value * value
  {
  }

  /** `mean` and `m2` are the statistics of `s`; the count is a separate `n`, and no
      quotient appears. */
  ghost predicate Describes(s: seq<real>, n: real, mean: real, m2: real)
  {
    n == |s| as real && n * mean == Sum(s) && (s == [] ==> mean == 0.0) && m2 == Spread(s, mean)
  }

  lemma DescribesAverage(s: seq<real>, n: real, mean: real, m2: real)
    ensures Describes(s, n, mean, m2) <==> n == |s| as real && mean == Average(s) && m2 == Spread(s, mean)
  {
    if s != [] {
      Quotient(Sum(s), |s| as real, mean);
    }
  }

  lemma Quotient(x: real, n: real, b: real)
    requires n > 0.0
    ensures n * b == x <==> b == x / n
  {
  }

  lemma TwiceProduct(n: real, a: real, sum: real)
    requires n * a == sum
    ensures 2.0 * a * sum == 2.0 * (n * (a * a))
  {
  }

  /** The spread around the average, from the sums. */
  lemma SpreadAround(s: seq<real>, n: real, mean: real)
    requires n == |s| as real && n * mean == Sum(s)
    ensures Spread(s, mean) == SumOfSquares(s) - n * (mean * mean)
  {
    SpreadFromSums(s, mean);
    TwiceProduct(n, mean, Sum(s));
  }

  // ---- one update ----------------------------------------------------------------

  lemma GrowMean(n: real, m: real, a: real, v: real)
    requires m == n + 1.0 && m > 0.0
    ensures m * (a + (v - a) / m) == n * a + v
  {
    Quotient(v - a, m, (v - a) / m);
    DistributeReal(m, a, (v - a) / m);
  }

  lemma GrowSpread(n: real, m: real, a: real, b: real, v: real, q: real)
    requires m == n + 1.0 && m * b == n * a + v
    ensures q + v * v - m * (b * b) == q - n * (a * a) + (v - a) * (v - b)
  {
    assert m * (b * b) == (m * b) * b;
    assert a * (m * b) == a * (n * a + v);
    assert (v - a) * (v - b) == v * v - v * b - a * v + a * b;
  }

  lemma SlideMean(n: real, a: real, d: real)
    requires n > 0.0
    ensures n * (a + d / n) == n * a + d
  {
    Quotient(d, n, d / n);
    DistributeReal(n, a, d / n);
  }

  lemma SlideSpread(n: real, a: real, b: real, v: real, o: real, q: real)
    requires n * b == n * a + (v - o)
    ensures q + v * v - o * o - n * (b * b) == q - n * (a * a) + (v - o) * (v - b + o - a)
  {
    assert n * (b * b) - n * (a * a) == (n * b - n * a) * (b + a);
    assert (v - o) * (v - b + o - a) == v * v - o * o - (v - o) * (b + a);
  }

  /** Filling the window: the statistics of the longer window from those of the shorter. */
  lemma Grow(s: seq<real>, value: real, n: real, m: real, a: real, b: real, m2: real)
    requires Describes(s, n, a, m2) && m == n + 1.0 && m * b == n * a + value
    ensures Describes(s + [value], m, b, m2 + (value - a) * (value - b))
  {
    SumsOfAppend(s, value);
    SpreadAround(s, n, a);
    SpreadAround(s + [value], m, b);
    GrowSpread(n, m, a, b, value, SumOfSquares(s));
  }

  /** Replacing the oldest sample of a full window. */
  lemma Slide(s: seq<real>, value: real, n: real, a: real, b: real, m2: real)
    requires s != [] && Describes(s, n, a, m2) && n * b == n * a + (value - s[0])
    ensures Describes(s[1..] + [value], n, b, m2 + (value - s[0]) * (value - b + s[0] - a))
  {
    SumsOfTail(s);
    SumsOfAppend(s[1..], value);
    SpreadAround(s, n, a);
    SpreadAround(s[1..] + [value], n, b);
    SlideSpread(n, a, b, value, s[0], SumOfSquares(s));
  }

  // ---- the running statistics ------------------------------------------------------

  class Rolling {
    var samples: seq<real>
    var mean: real
    var m2: real

    /** The fields are the statistics of the samples in the window. */
    ghost predicate Valid()
      reads this
    {
      |samples| <= LATENCY_WINDOW && Describes(samples, |samples| as real, mean, m2)
    }

    constructor ()
      ensures Valid() && samples == []
    {
      samples, mean, m2 := [], 0.0, 0.0;
    }

    method Push(value: real)
      requires Valid()
      modifies this
      ensures Valid() && samples == Pushed(old(samples), value)
      ensures mean == Average(samples) && m2 == Spread(samples, Average(samples))
    {
      if |samples| == LATENCY_WINDOW {
        Replace(value);
      } else {
        Append(value);
      }
      DescribesAverage(samples, |samples| as real, mean, m2);
    }

    method Replace(value: real)
      requires Valid() && |samples| == LATENCY_WINDOW
      modifies this
      ensures Valid() && samples == old(samples)[1..] + [value]
    {
      var n := LATENCY_WINDOW as real;
      var oldest, oldMean := samples[0], mean;
      mean := oldMean + (value - oldest) / n;
      assert n * mean == n * oldMean + (value - oldest) by { SlideMean(n, oldMean, value - oldest); }
      Slide(samples, value, n, oldMean, mean, m2);
      samples := samples[1..] + [value];
      m2 := m2 + (value - oldest) * (value - mean + oldest - oldMean);
      SpreadNonNegative(samples, mean);
      m2 := if m2 >= 0.0 then m2 else 0.0;
    }

    method Append(value: real)
      requires Valid() && |samples| < LATENCY_WINDOW
      modifies this
      ensures Valid() && samples == old(samples) + [value]
    {
      ghost var before, oldMean, oldM2 := samples, mean, m2;
      samples := samples + [value];
      var n := |samples| as real;
      var delta := value - mean;
      mean := mean + delta / n;
      assert n * mean == (n - 1.0) * oldMean + value by { GrowMean(n - 1.0, n, oldMean, value); }
      var delta2 := value - mean;
      m2 := m2 + delta * delta2;
      Grow(before, value, n - 1.0, n, oldMean, mean, oldM2);
    }
  }

  // ---- runs ------------------------------------------------------------------------

  function PushedAll(values: seq<real>): (window: seq<real>)
    decreases |values|
  {
    if values == [] then [] else Pushed(PushedAll(values[..|values| - 1]), values[|values| - 1])
  }

  /** The window is the newest samples, as many as fit. */
  lemma {:induction false} WindowIsNewest(values: seq<real>)
    ensures PushedAll(values) ==
              if |values| <= 100 then values else values[|values| - 100..]
    decreases |values|
  {
    if values != [] {
      WindowIsNewest(values[..|values| - 1]);
    }
  }
}
