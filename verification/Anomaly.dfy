/** Anomaly: the exponentially weighted baseline over real arithmetic (backend/app/detection/anomaly.py).
    A square root is a value std with std >= 0 and std * std equal to the variance. */
module Anomaly {
  import opened Text

  datatype Baseline = Baseline(mean: real, variance: real, n: nat)

  datatype Settings = Settings(alpha: real, threshold: real, minSamples: int) {
    /** A smoothing factor proper. */
    predicate Proper() {
      0.0 <= alpha <= 1.0
    }
  }

  datatype AnomalyResult = AnomalyResult(metric: string, value: real, mean: real, std: real, z: real, samples: nat)

  const TINY := 0.000000001

  function Abs(x: real): real {
    if x < 0.0 then -x else x
  }

  /** The product, by a name under which lemmas can pass it on. */
  function Times(x: real, y: real): real {
    x * y
  }

  function Square(x: real): real {
    x * x
  }

  function Larger(x: real, y: real): real {
    if x < y then y else x
  }

  predicate IsRoot(std: real, variance: real) {
    std >= 0.0 && Square(std) == variance
  }

  /** What a metric without a stored baseline starts from. */
  function Initial(value: real): Baseline {
    Baseline(value, 0.0, 0)
  }

  function ZScore(b: Baseline, std: real, value: real): real {
    if std < TINY then 0.0 else (value - b.mean) / std
  }

  predicate Flags(c: Settings, b: Baseline, std: real, value: real) {
    b.n >= c.minSamples && Abs(ZScore(b, std, value)) >= c.threshold
  }

  /** The step size, smaller for a value far outside the baseline. */
  function Damped(c: Settings, z: real): real {
    c.alpha / (1.0 + Larger(0.0, Abs(z) - c.threshold))
  }

  /** The variance after a step of size a = 1 - s towards a value delta away. */
  function Remaining(s: real, a: real, variance: real, delta: real): real {
    s * (variance + a * delta * delta)
  }

  function Blend(b: Baseline, a: real, value: real): Baseline {
    var delta := value - b.mean;
    Baseline(b.mean + Times(a, delta), Remaining(1.0 - a, a, b.variance, delta), b.n + 1)
  }

  function Updated(c: Settings, b: Baseline, std: real, value: real): Baseline {
    Blend(b, Damped(c, ZScore(b, std, value)), value)
  }

  // ---------------------------------------------------------------- the baseline is a weighted mean and variance

  function Total(w: seq<real>): real {
    if w == [] then 0.0 else Total(w[..|w| - 1]) + w[|w| - 1]
  }

  function Mean(w: seq<real>, xs: seq<real>): real
    requires |w| == |xs|
  {
    if xs == [] then 0.0 else Mean(w[..|w| - 1], xs[..|xs| - 1]) + Times(w[|w| - 1], xs[|xs| - 1])
  }

  /** The weighted square distance from c. */
  function Spread(w: seq<real>, xs: seq<real>, c: real): real
    requires |w| == |xs|
  {
    if xs == [] then 0.0 else Spread(w[..|w| - 1], xs[..|xs| - 1], c) + Times(w[|w| - 1], Square(xs[|xs| - 1] - c))
  }

  ghost predicate Weighting(w: seq<real>) {
    (forall i :: 0 <= i < |w| ==> w[i] >= 0.0) && Total(w) == 1.0
  }

  /** The mean and variance of the values xs under the weights w, and their number. */
  ghost predicate Mixture(b: Baseline, w: seq<real>, xs: seq<real>) {
    && |w| == |xs| == b.n && Weighting(w)
    && b.mean == Mean(w, xs)
    && b.variance == Spread(w, xs, b.mean)
  }

  lemma {:induction false} SquareShift(v: real, x: real, c: real, d: real)
    ensures v * Square(x - d) == v * Square(x - c) + 2.0 * (c - d) * (v * x - c * v) + Square(c - d) * v
  {
    var e := c - d;
    assert x - d == (x - c) + e;
    assert Square(x - d) == Square(x - c) + 2.0 * e * (x - c) + Square(e);
    assert v * (2.0 * e * (x - c)) == 2.0 * e * (v * x - c * v);
  }

  lemma {:induction false} Distribute(k: real, x: real, y: real)
    ensures k * (x + y) == k * x + k * y
  {
  }

  /** What moving the centre from c to d adds to a spread with this weighted sum and total weight. */
  function Shift(mean: real, total: real, c: real, d: real): real {
    2.0 * (c - d) * (mean - c * total) + Square(c - d) * total
  }

  /** One more value's share in SpreadShift. */
  lemma {:induction false} SpreadShiftStep(mean: real, mean1: real, total: real, total1: real, v: real, x: real, c: real, d: real)
    requires mean1 == mean + Times(v, x) && total1 == total + v
    ensures Shift(mean, total, c, d) + Times(v, Square(x - d)) == Times(v, Square(x - c)) + Shift(mean1, total1, c, d)
  {
    SquareShift(v, x, c, d);
    Distribute(Square(c - d), total, v);
    Distribute(c, total, v);
    Distribute(2.0 * (c - d), mean - c * total, v * x - c * v);
  }

  /** The spread about another centre. */
  lemma {:induction false} SpreadShift(w: seq<real>, xs: seq<real>, c: real, d: real)
    requires |w| == |xs|
    ensures Spread(w, xs, d) == Spread(w, xs, c) + Shift(Mean(w, xs), Total(w), c, d)
  {
    if xs == [] {
      assert Total(w) == 0.0 && Mean(w, xs) == 0.0;
    } else {
      var k := |xs| - 1;
      var mean, mean1, total, total1 := Mean(w[..k], xs[..k]), Mean(w, xs), Total(w[..k]), Total(w);
      SpreadShiftStep(mean, mean1, total, total1, w[k], xs[k], c, d);
      SpreadShift(w[..k], xs[..k], c, d);
    }
  }

  function Scaled(w: seq<real>, s: real): (r: seq<real>)
    ensures |r| == |w|
  {
    if w == [] then [] else Scaled(w[..|w| - 1], s) + [Times(s, w[|w| - 1])]
  }

  lemma {:induction false} ScaleStep(s: real, sum: real, sum1: real, v: real, v1: real, x: real)
    requires sum1 == sum + Times(v, x) && v1 == Times(s, v)
    ensures Times(s, sum1) == Times(s, sum) + Times(v1, x)
  {
    Distribute(s, sum, v * x);
    assert v1 * x == s * (v * x);
  }

  lemma {:induction false} ScaledTotal(w: seq<real>, s: real)
    ensures Total(Scaled(w, s)) == Times(s, Total(w))
  {
    if w == [] {
      assert Times(s, 0.0) == 0.0;
    } else {
      var k := |w| - 1;
      assert Scaled(w, s)[..k] == Scaled(w[..k], s);
      assert Total(Scaled(w, s)) == Total(Scaled(w[..k], s)) + Scaled(w, s)[k];
      assert Times(w[k], 1.0) == w[k] && Times(Scaled(w, s)[k], 1.0) == Scaled(w, s)[k];
      ScaleStep(s, Total(w[..k]), Total(w), w[k], Scaled(w, s)[k], 1.0);
      ScaledTotal(w[..k], s);
    }
  }

  lemma {:induction false} ScaledMean(w: seq<real>, xs: seq<real>, s: real)
    requires |w| == |xs|
    ensures Mean(Scaled(w, s), xs) == Times(s, Mean(w, xs))
  {
    if w == [] {
      assert Times(s, 0.0) == 0.0;
    } else {
      var k := |w| - 1;
      assert Scaled(w, s)[..k] == Scaled(w[..k], s);
      ScaleStep(s, Mean(w[..k], xs[..k]), Mean(w, xs), w[k], Scaled(w, s)[k], xs[k]);
      ScaledMean(w[..k], xs[..k], s);
    }
  }

  lemma {:induction false} ScaledSpread(w: seq<real>, xs: seq<real>, s: real, c: real)
    requires |w| == |xs|
    ensures Spread(Scaled(w, s), xs, c) == Times(s, Spread(w, xs, c))
  {
    if w == [] {
      assert Times(s, 0.0) == 0.0;
    } else {
      var k := |w| - 1;
      assert Scaled(w, s)[..k] == Scaled(w[..k], s);
      ScaleStep(s, Spread(w[..k], xs[..k], c), Spread(w, xs, c), w[k], Scaled(w, s)[k], Square(xs[k] - c));
      ScaledSpread(w[..k], xs[..k], s, c);
    }
  }

  lemma {:induction false} ScaledNonnegative(w: seq<real>, s: real)
    requires s >= 0.0 && forall i :: 0 <= i < |w| ==> w[i] >= 0.0
    ensures forall i :: 0 <= i < |w| ==> Scaled(w, s)[i] >= 0.0
  {
    if w != [] {
      ScaledNonnegative(w[..|w| - 1], s);
      assert Times(s, w[|w| - 1]) >= 0.0;
    }
  }

  lemma {:induction false} AppendSums(w: seq<real>, xs: seq<real>, a: real, x: real, c: real)
    requires |w| == |xs|
    ensures Total(w + [a]) == Total(w) + a
    ensures Mean(w + [a], xs + [x]) == Mean(w, xs) + Times(a, x)
    ensures Spread(w + [a], xs + [x], c) == Spread(w, xs, c) + Times(a, Square(x - c))
  {
    assert (w + [a])[..|w|] == w && (xs + [x])[..|xs|] == xs;
  }

  lemma {:induction false} DampedIsAFraction(c: Settings, z: real)
    requires c.Proper()
    ensures 0.0 <= Damped(c, z) <= c.alpha
  {
    var d := 1.0 + Larger(0.0, Abs(z) - c.threshold);
    assert d >= 1.0;
    assert Damped(c, z) * d == c.alpha;
    assert Damped(c, z) >= 0.0;
  }

  lemma {:induction false} BlendIdentity(a: real, v: real, delta: real)
    ensures Times(1.0 - a, v + Square(Times(a, delta))) + Times(a, Square(Times(1.0 - a, delta))) == Remaining(1.0 - a, a, v, delta)
  {
    var q := delta * delta;
    assert Square(a * delta) == a * a * q;
    assert Square((1.0 - a) * delta) == (1.0 - a) * ((1.0 - a) * q);
    assert a * ((1.0 - a) * ((1.0 - a) * q)) == (1.0 - a) * (a * q - a * a * q);
    assert a * delta * delta == a * q;
    Distribute(1.0 - a, v + a * a * q, a * q - a * a * q);
  }

  /** About a centre other than the mean, weights that sum to 1 spread further. */
  lemma {:induction false} SpreadAboutMean(w: seq<real>, xs: seq<real>, mean: real, d: real)
    requires |w| == |xs| && Total(w) == 1.0 && Mean(w, xs) == mean
    ensures Spread(w, xs, d) == Spread(w, xs, mean) + Square(mean - d)
  {
    SpreadShift(w, xs, mean, d);
    CentredShift(mean, d, Total(w), Mean(w, xs));
  }

  lemma {:induction false} CentredShift(mean: real, d: real, total: real, sum: real)
    ensures total == 1.0 && sum == mean ==> Shift(sum, total, mean, d) == Square(mean - d)
  {
    assert total == 1.0 && sum == mean ==> sum - mean * total == 0.0;
  }

  lemma {:induction false} Complement(a: real, x: real)
    ensures Times(1.0 - a, x) == x - Times(a, x)
  {
  }

  lemma {:induction false} SquareNegated(x: real, y: real)
    ensures y == -x ==> Square(y) == Square(x)
  {
  }

  lemma {:induction false} TimesDifference(a: real, x: real, y: real)
    ensures Times(a, x - y) == Times(a, x) - Times(a, y)
  {
  }

  lemma {:induction false} BlendArithmetic(b: Baseline, t: Baseline, a: real, x: real, spread: real)
    requires t == Blend(b, a, x) && spread == b.variance + Square(b.mean - t.mean)
    ensures t.variance == Times(1.0 - a, spread) + Times(a, Square(x - t.mean))
  {
    var delta := x - b.mean;
    Complement(a, delta);
    SquareNegated(Times(a, delta), b.mean - t.mean);
    assert x - t.mean == Times(1.0 - a, delta);
    BlendIdentity(a, b.variance, delta);
  }

  lemma {:induction false} BlendedMean(b: Baseline, w: seq<real>, xs: seq<real>, a: real, x: real)
    requires |w| == |xs| && Mean(w, xs) == b.mean
    ensures Blend(b, a, x).mean == Mean(Scaled(w, 1.0 - a), xs) + Times(a, x)
  {
    Complement(a, b.mean);
    TimesDifference(a, x, b.mean);
    ScaledMean(w, xs, 1.0 - a);
  }

  lemma {:induction false} BlendedSpread(b: Baseline, t: Baseline, w: seq<real>, xs: seq<real>, a: real, x: real)
    requires |w| == |xs| && Total(w) == 1.0 && Mean(w, xs) == b.mean && Spread(w, xs, b.mean) == b.variance
    requires t == Blend(b, a, x)
    ensures t.variance == Spread(Scaled(w, 1.0 - a), xs, t.mean) + Times(a, Square(x - t.mean))
  {
    SpreadAboutMean(w, xs, b.mean, t.mean);
    BlendArithmetic(b, t, a, x, Spread(w, xs, t.mean));
    ScaledSpread(w, xs, 1.0 - a, t.mean);
  }

  /** A blend is the mixture in which the new value has weight a and the old weights share the rest. */
  lemma {:induction false} BlendIsMixture(b: Baseline, w: seq<real>, xs: seq<real>, a: real, x: real)
    requires Mixture(b, w, xs) && 0.0 <= a <= 1.0
    ensures Mixture(Blend(b, a, x), Scaled(w, 1.0 - a) + [a], xs + [x])
  {
    var s, t := Scaled(w, 1.0 - a), Blend(b, a, x);
    BlendedMean(b, w, xs, a, x);
    BlendedSpread(b, t, w, xs, a, x);
    AppendSums(s, xs, a, x, t.mean);
    ScaledNonnegative(w, 1.0 - a);
    ScaledTotal(w, 1.0 - a);
  }

  // ---------------------------------------------------------------- every series of observations

  /** The stored baseline, or a fresh one for the first value. */
  function Current(stored: Option<Baseline>, value: real): Baseline {
    match stored
    case Some(b) => b
    case None => Initial(value)
  }

  /** What is stored after the observations xs, of which roots are the standard deviations used. */
  function After(c: Settings, xs: seq<real>, roots: seq<real>): Option<Baseline>
    requires |xs| == |roots|
  {
    if xs == [] then None
    else
      var k := |xs| - 1;
      Some(Updated(c, Current(After(c, xs[..k], roots[..k]), xs[k]), roots[k], xs[k]))
  }

  /** Each of roots is the root of the variance it stands for. */
  predicate Rooted(c: Settings, xs: seq<real>, roots: seq<real>)
    requires |xs| == |roots|
  {
    xs != [] ==>
      var k := |xs| - 1;
      && Rooted(c, xs[..k], roots[..k])
      && IsRoot(roots[k], Current(After(c, xs[..k], roots[..k]), xs[k]).variance)
  }

  /** Is the last observation flagged? */
  predicate LastFlagged(c: Settings, xs: seq<real>, roots: seq<real>)
    requires |xs| == |roots| > 0
  {
    var k := |xs| - 1;
    Flags(c, Current(After(c, xs[..k], roots[..k]), xs[k]), roots[k], xs[k])
  }

  lemma {:induction false} FirstIsMixture(c: Settings, std: real, x: real)
    ensures Mixture(Updated(c, Initial(x), std, x), [1.0], [x])
  {
    var a := Damped(c, ZScore(Initial(x), std, x));
    assert a * 0.0 == 0.0 && Remaining(1.0 - a, a, 0.0, 0.0) == 0.0;
    assert [1.0][..0] == [] && [x][..0] == [];
    assert Times(1.0, x) == x && Square(0.0) == 0.0;
  }

  /** Whatever the data-dependent steps were, the baseline is the mean and variance of some weighting of
      the observations. */
  lemma {:induction false} AlwaysMixture(c: Settings, xs: seq<real>, roots: seq<real>) returns (w: seq<real>)
    requires c.Proper() && |xs| == |roots| > 0
    ensures Mixture(After(c, xs, roots).value, w, xs)
  {
    var k := |xs| - 1;
    assert xs == xs[..k] + [xs[k]];
    if k == 0 {
      w := [1.0];
      FirstIsMixture(c, roots[0], xs[0]);
    } else {
      var before := AlwaysMixture(c, xs[..k], roots[..k]);
      var b := After(c, xs[..k], roots[..k]).value;
      var a := Damped(c, ZScore(b, roots[k], xs[k]));
      DampedIsAFraction(c, ZScore(b, roots[k], xs[k]));
      BlendIsMixture(b, before, xs[..k], a, xs[k]);
      w := Scaled(before, 1.0 - a) + [a];
    }
  }

  // ---------------------------------------------------------------- so it stays within the observations

  ghost predicate Within(xs: seq<real>, lo: real, hi: real) {
    forall i :: 0 <= i < |xs| ==> lo <= xs[i] <= hi
  }

  ghost predicate Nonnegative(w: seq<real>) {
    forall i :: 0 <= i < |w| ==> w[i] >= 0.0
  }

  lemma {:induction false} TimesBetween(v: real, x: real, lo: real, hi: real, total: real, total1: real)
    requires v >= 0.0 && lo <= x <= hi && total1 == total + v
    ensures Times(lo, total1) - Times(lo, total) <= Times(v, x) <= Times(hi, total1) - Times(hi, total)
  {
    Distribute(lo, total, v);
    Distribute(hi, total, v);
    assert v * (x - lo) >= 0.0 && v * (hi - x) >= 0.0;
  }

  lemma {:induction false} MeanBetween(w: seq<real>, xs: seq<real>, lo: real, hi: real)
    requires |w| == |xs| && Nonnegative(w) && Within(xs, lo, hi)
    ensures Times(lo, Total(w)) <= Mean(w, xs) <= Times(hi, Total(w))
  {
    if w == [] {
      assert Times(lo, 0.0) == 0.0 && Times(hi, 0.0) == 0.0;
    } else {
      var k := |w| - 1;
      TimesBetween(w[k], xs[k], lo, hi, Total(w[..k]), Total(w));
      MeanBetween(w[..k], xs[..k], lo, hi);
    }
  }

  lemma {:induction false} SpreadNonnegative(w: seq<real>, xs: seq<real>, c: real)
    requires |w| == |xs| && Nonnegative(w)
    ensures Spread(w, xs, c) >= 0.0
  {
    if w != [] {
      var k := |w| - 1;
      SquareNonnegative(xs[k] - c);
      TimesNonnegative(w[k], Square(xs[k] - c));
      SpreadNonnegative(w[..k], xs[..k], c);
    }
  }

  lemma {:induction false} TimesNonnegative(x: real, y: real)
    ensures x >= 0.0 && y >= 0.0 ==> Times(x, y) >= 0.0
  {
  }

  lemma {:induction false} SquareNonnegative(x: real)
    ensures Square(x) >= 0.0
  {
  }

  /** A bound on the spread about m of values in lo..hi with this weighted sum and total weight. */
  function Room(mean: real, total: real, m: real, lo: real, hi: real): real {
    (hi - m) * (m - lo) * total + (hi + lo - 2.0 * m) * (mean - m * total)
  }

  lemma {:induction false} RoomStep(mean: real, mean1: real, total: real, total1: real, v: real, x: real, m: real, lo: real, hi: real)
    requires mean1 == mean + Times(v, x) && total1 == total + v && v >= 0.0 && lo <= x <= hi
    ensures Room(mean, total, m, lo, hi) + Times(v, Square(x - m)) <= Room(mean1, total1, m, lo, hi)
  {
    var p, q := (hi - m) * (m - lo), hi + lo - 2.0 * m;
    Distribute(p, total, v);
    Distribute(m, total, v);
    Distribute(q, mean - m * total, v * x - m * v);
    var left := p + q * (x - m) - Square(x - m);
    assert left == (hi - x) * (x - lo);
    TimesNonnegative(hi - x, x - lo);
    assert v * left >= 0.0;
    assert v * left == p * v + q * (v * x - m * v) - v * Square(x - m);
  }

  lemma {:induction false} SpreadFits(w: seq<real>, xs: seq<real>, m: real, lo: real, hi: real)
    requires |w| == |xs| && Nonnegative(w) && Within(xs, lo, hi)
    ensures Spread(w, xs, m) <= Room(Mean(w, xs), Total(w), m, lo, hi)
  {
    if w == [] {
      RoomOfNothing(m, lo, hi);
    } else {
      var k := |w| - 1;
      var mean, mean1, total, total1 := Mean(w[..k], xs[..k]), Mean(w, xs), Total(w[..k]), Total(w);
      RoomStep(mean, mean1, total, total1, w[k], xs[k], m, lo, hi);
      SpreadFits(w[..k], xs[..k], m, lo, hi);
    }
  }

  lemma {:induction false} RoomOfNothing(m: real, lo: real, hi: real)
    ensures Room(0.0, 0.0, m, lo, hi) == 0.0
  {
  }

  lemma {:induction false} RoomOfOne(total: real, mean: real, m: real, lo: real, hi: real)
    ensures total == 1.0 && mean == m ==> Room(mean, total, m, lo, hi) == Times(hi - m, m - lo)
  {
    assert total == 1.0 && mean == m ==> mean - m * total == 0.0;
  }

  /** Every stored mean lies between the least and the greatest observation, and the variance fits
      between them. */
  lemma {:induction false} WithinObservations(c: Settings, xs: seq<real>, roots: seq<real>, lo: real, hi: real)
    requires c.Proper() && |xs| == |roots| > 0 && Within(xs, lo, hi)
    ensures var b := After(c, xs, roots).value;
      b.n == |xs| && lo <= b.mean <= hi && 0.0 <= b.variance <= Times(hi - b.mean, b.mean - lo)
  {
    var w := AlwaysMixture(c, xs, roots);
    var b := After(c, xs, roots).value;
    MeanBetween(w, xs, lo, hi);
    assert Times(lo, 1.0) == lo && Times(hi, 1.0) == hi;
    SpreadNonnegative(w, xs, b.mean);
    SpreadFits(w, xs, b.mean, lo, hi);
    RoomOfOne(Total(w), Mean(w, xs), b.mean, lo, hi);
  }

  // ---------------------------------------------------------------- the spike guard

  lemma {:induction false} DampedDistance(distance: real, threshold: real)
    requires distance >= 0.0
    ensures distance <= Larger(1.0, threshold) * (1.0 + Larger(0.0, distance - threshold))
  {
    var k := Larger(1.0, threshold);
    if distance <= threshold {
      assert k * 1.0 == k;
    } else {
      var over := distance - threshold;
      assert (k - 1.0) * over >= 0.0;
      assert k * (1.0 + over) == k + over + (k - 1.0) * over;
    }
  }

  /** How far one observation can pull, in standard deviations. */
  function Reach(c: Settings): real {
    c.alpha * Larger(1.0, c.threshold)
  }

  lemma {:induction false} DampedStep(c: Settings, z: real)
    requires c.Proper()
    ensures 0.0 <= Damped(c, z) <= 1.0 && Times(Damped(c, z), Abs(z)) <= Reach(c)
  {
    var d, a := 1.0 + Larger(0.0, Abs(z) - c.threshold), Damped(c, z);
    DampedIsAFraction(c, z);
    DampedDistance(Abs(z), c.threshold);
    Quotient(c.alpha, d);
    DampedProduct(a, d, Larger(1.0, c.threshold), Abs(z), c.alpha);
  }

  lemma {:induction false} DampedProduct(a: real, d: real, k: real, distance: real, alpha: real)
    requires a >= 0.0 && Times(a, d) == alpha && distance <= Times(k, d)
    ensures Times(a, distance) <= Times(alpha, k)
  {
    TimesNonnegative(a, Times(k, d) - distance);
    TimesDifference(a, Times(k, d), distance);
    Reorder(a, k, d);
  }

  lemma {:induction false} Reorder(x: real, y: real, z: real)
    ensures Times(x, Times(y, z)) == Times(Times(x, z), y)
  {
  }

  lemma {:induction false} Quotient(x: real, y: real)
    requires y > 0.0
    ensures Times(x / y, y) == x
  {
  }

  lemma {:induction false} StepBound(a: real, z: real, std: real, k: real, delta: real)
    requires Times(z, std) == delta && std >= 0.0 && a >= 0.0 && Times(a, Abs(z)) <= k
    ensures Abs(Times(a, delta)) <= Times(k, std)
  {
    Reorder(a, z, std);
    TimesAbs(Times(a, z), std);
    TimesAbs(z, a);
    TimesNonnegative(k - Times(a, Abs(z)), std);
  }

  lemma {:induction false} TimesAbs(x: real, y: real)
    requires y >= 0.0
    ensures Abs(Times(x, y)) == Times(Abs(x), y) && Times(x, y) == Times(y, x) && Times(Abs(x), y) == Times(y, Abs(x))
  {
    if x < 0.0 { TimesNonnegative(-x, y); } else { TimesNonnegative(x, y); }
  }

  lemma {:induction false} SquareOfProduct(x: real, y: real)
    ensures Square(Times(x, y)) == Times(x, Times(x, Square(y)))
  {
  }

  /** The variance without its last factor. */
  lemma {:induction false} GrownBound(a: real, z: real, k: real, variance: real, square: real)
    requires a >= 0.0 && z >= 0.0 && variance >= 0.0 && Times(a, z) <= k
    requires square == Times(z, Times(z, variance))
    ensures 0.0 <= Times(a, square) <= Times(k, Times(z, variance))
  {
    var zv := Times(z, variance);
    TimesNonnegative(z, variance);
    TimesNonnegative(z, zv);
    TimesNonnegative(a, square);
    TimesNonnegative(k - Times(a, z), zv);
    Reorder(a, z, zv);
    Reorder(a, zv, z);
    assert Times(Times(a, z), zv) == Times(a, square);
  }

  lemma {:induction false} VarianceBound(a: real, z: real, std: real, k: real, variance: real, delta: real)
    requires 0.0 <= a <= 1.0 && z >= 0.0 && Times(a, z) <= k && Square(std) == variance
    requires Square(delta) == Square(Times(z, std))
    ensures 0.0 <= Remaining(1.0 - a, a, variance, delta) <= variance + Times(k, Times(z, variance))
  {
    SquareNonnegative(std);
    SquareOfProduct(z, std);
    GrownBound(a, z, k, variance, Square(delta));
    var grown := variance + Times(a, Square(delta));
    assert Remaining(1.0 - a, a, variance, delta) == Times(1.0 - a, grown);
    Complement(a, grown);
    TimesNonnegative(a, grown);
    TimesNonnegative(1.0 - a, grown);
  }

  lemma {:induction false} SquareOfAbs(z: real, std: real, delta: real)
    ensures Times(z, std) == delta ==> Square(delta) == Square(Times(Abs(z), std))
  {
    if z < 0.0 { assert -z * std == -Times(z, std); }
  }

  /** Once the baseline has spread, one observation of any size moves the mean by at most alpha times the
      larger of 1 and the threshold, in deviations. */
  lemma {:induction false} SpikeMovesMean(c: Settings, b: Baseline, std: real, x: real)
    requires c.Proper() && IsRoot(std, b.variance) && std >= 0.000000001
    ensures Abs(Updated(c, b, std, x).mean - b.mean) <= Times(Reach(c), std)
  {
    var z, delta := ZScore(b, std, x), x - b.mean;
    Quotient(delta, std);
    DampedStep(c, z);
    StepBound(Damped(c, z), z, std, Reach(c), delta);
  }

  /** ... and the variance grows by at most that times the score, times itself. */
  lemma {:induction false} SpikeSwellsVariance(c: Settings, b: Baseline, std: real, x: real)
    requires c.Proper() && IsRoot(std, b.variance) && std >= 0.000000001
    ensures 0.0 <= Updated(c, b, std, x).variance <=
      b.variance + Times(Reach(c), Times(Abs(ZScore(b, std, x)), b.variance))
  {
    var z, delta := ZScore(b, std, x), x - b.mean;
    Quotient(delta, std);
    SquareOfAbs(z, std, delta);
    DampedStep(c, z);
    VarianceBound(Damped(c, z), Abs(z), std, Reach(c), b.variance, delta);
  }

  function Distance(x: real, y: real): (d: real)
    ensures d >= 0.0 && (d == x - y || d == y - x)
  {
    Abs(x - y)
  }

  /** The step of an update: with spread, alpha up to the threshold, and beyond it divided by one more than
      the excess score, both sides here multiplied by the deviation. */
  lemma {:induction false} StepTaken(c: Settings, b: Baseline, std: real, x: real)
    requires std >= 0.000000001
    ensures Updated(c, b, std, x) == Blend(b, Damped(c, ZScore(b, std, x)), x)
    ensures var a, distance := Damped(c, ZScore(b, std, x)), Distance(x, b.mean);
      if distance <= c.threshold * std then a == c.alpha
      else a * (std + distance - c.threshold * std) == c.alpha * std
  {
    var z := ZScore(b, std, x);
    Quotient(x - b.mean, std);
    TimesAbs(z, std);
    StepSize(Damped(c, z), Abs(z), c.threshold, std, Distance(x, b.mean), c.alpha);
  }

  /** Without spread there is no score: the step is alpha, unless the threshold is below zero. */
  lemma {:induction false} StepWithoutSpread(c: Settings, b: Baseline, std: real, x: real)
    requires std < 0.000000001
    ensures var a := Damped(c, ZScore(b, std, x));
      if c.threshold >= 0.0 then a == c.alpha else a * (1.0 - c.threshold) == c.alpha
  {
    if c.threshold < 0.0 { Quotient(c.alpha, 1.0 - c.threshold); }
  }

  lemma {:induction false} StepSize(a: real, z: real, threshold: real, std: real, distance: real, alpha: real)
    requires std > 0.0 && Times(z, std) == distance && a == alpha / (1.0 + Larger(0.0, z - threshold))
    ensures if distance <= threshold * std then a == alpha
      else a * (std + distance - threshold * std) == alpha * std
  {
    var t := Times(threshold, std);
    assert t == threshold * std;
    if z <= threshold {
      TimesNonnegative(threshold - z, std);
    } else {
      TimesPositive(z - threshold, std);
      var d := 1.0 + z - threshold;
      Quotient(alpha, d);
      assert Times(d, std) == std + distance - t;
      Reorder(a, d, std);
      assert Times(a, Times(d, std)) == Times(Times(a, std), d);
      assert Times(Times(a, std), d) == Times(Times(a, d), std);
    }
  }

  /** Without spread there is no guard: the full step is taken, and any bound can be exceeded. */
  lemma {:induction false} NoGuardWithoutSpread(c: Settings, b: Baseline, std: real, bound: real)
    requires c.Proper() && c.alpha > 0.0 && c.threshold >= 0.0 && std < 0.000000001 && bound >= 0.0
    ensures exists x :: Abs(Updated(c, b, std, x).mean - b.mean) > bound
  {
    var x := b.mean + (bound + 1.0) / c.alpha;
    assert Damped(c, 0.0) == c.alpha;
    assert c.alpha * ((bound + 1.0) / c.alpha) == bound + 1.0;
    assert Abs(Updated(c, b, std, x).mean - b.mean) > bound;
  }

  // ---------------------------------------------------------------- which observations are flagged

  /** With spread, the score counts deviations, above the mean or below it. */
  lemma {:induction false} ScoreMeans(b: Baseline, std: real, x: real)
    ensures std >= 0.000000001 ==> var z := ZScore(b, std, x);
      z * std == x - b.mean && (x > b.mean <==> z > 0.0) && (x < b.mean <==> z < 0.0)
    ensures std < 0.000000001 ==> ZScore(b, std, x) == 0.0
  {
    if std >= 0.000000001 { Quotient(x - b.mean, std); }
  }

  lemma {:induction false} FarIff(z: real, threshold: real, std: real, delta: real)
    ensures std > 0.0 && Times(z, std) == delta ==>
      (Abs(z) >= threshold <==> delta >= Times(threshold, std) || -delta >= Times(threshold, std))
  {
    if z >= threshold { TimesNonnegative(z - threshold, std); } else { TimesPositive(threshold - z, std); }
    if -z >= threshold { TimesNonnegative(-z - threshold, std); } else { TimesPositive(threshold + z, std); }
  }

  /** An observation is flagged exactly when enough came before and it lies threshold deviations from the
      mean, on either side; a baseline without spread flags what a threshold not positive lets through. */
  lemma {:induction false} FlagsIff(c: Settings, b: Baseline, std: real, x: real)
    ensures std >= 0.000000001 ==> (Flags(c, b, std, x) <==>
      b.n >= c.minSamples && (x - b.mean >= c.threshold * std || b.mean - x >= c.threshold * std))
    ensures std < 0.000000001 ==> (Flags(c, b, std, x) <==> b.n >= c.minSamples && c.threshold <= 0.0)
  {
    if std >= 0.000000001 {
      ScoreMeans(b, std, x);
      FarIff(ZScore(b, std, x), c.threshold, std, x - b.mean);
      assert Times(c.threshold, std) == c.threshold * std;
    }
  }

  /** As far above the mean as below it, all is the same. */
  lemma {:induction false} FlagsMirrored(c: Settings, b: Baseline, std: real, d: real)
    ensures Flags(c, b, std, b.mean + d) <==> Flags(c, b, std, b.mean - d)
  {
    FlagsIff(c, b, std, b.mean + d);
    FlagsIff(c, b, std, b.mean - d);
  }

  function Raised(xs: seq<real>, amount: real): (r: seq<real>)
    ensures |r| == |xs|
  {
    seq(|xs|, i requires 0 <= i < |xs| => xs[i] + amount)
  }

  function Lifted(b: Baseline, shift: real): Baseline {
    b.(mean := b.mean + shift)
  }

  lemma {:induction false} LiftedStep(c: Settings, b: Baseline, std: real, x: real, shift: real)
    ensures Updated(c, Lifted(b, shift), std, x + shift) == Lifted(Updated(c, b, std, x), shift)
    ensures Flags(c, Lifted(b, shift), std, x + shift) == Flags(c, b, std, x)
  {
    assert x + shift - Lifted(b, shift).mean == x - b.mean;
  }

  lemma {:induction false} LiftedAfter(c: Settings, xs: seq<real>, roots: seq<real>, shift: real)
    requires |xs| == |roots|
    ensures After(c, Raised(xs, shift), roots) ==
      match After(c, xs, roots) case None => None case Some(b) => Some(Lifted(b, shift))
    ensures Rooted(c, xs, roots) ==> Rooted(c, Raised(xs, shift), roots)
  {
    if xs != [] {
      var k := |xs| - 1;
      LiftedAfter(c, xs[..k], roots[..k], shift);
      assert Raised(xs, shift)[..k] == Raised(xs[..k], shift);
      LiftedStep(c, Current(After(c, xs[..k], roots[..k]), xs[k]), roots[k], xs[k], shift);
    }
  }

  /** Adding the same amount to every observation changes no decision. */
  lemma {:induction false} ShiftInvariant(c: Settings, xs: seq<real>, roots: seq<real>, shift: real)
    requires |xs| == |roots| > 0 && Rooted(c, xs, roots)
    ensures Rooted(c, Raised(xs, shift), roots)
    ensures LastFlagged(c, Raised(xs, shift), roots) <==> LastFlagged(c, xs, roots)
  {
    var k := |xs| - 1;
    LiftedAfter(c, xs, roots, shift);
    LiftedAfter(c, xs[..k], roots[..k], shift);
    assert Raised(xs, shift)[..k] == Raised(xs[..k], shift);
    LiftedStep(c, Current(After(c, xs[..k], roots[..k]), xs[k]), roots[k], xs[k], shift);
  }

  lemma {:induction false} RootOfZero(std: real, variance: real)
    ensures IsRoot(std, variance) && variance == 0.0 ==> std == 0.0
  {
    if std > 0.0 { SquarePositive(std); }
  }

  lemma {:induction false} SquarePositive(x: real)
    ensures x > 0.0 ==> Square(x) > 0.0
  {
    TimesPositive(x, x);
    assert Square(x) == Times(x, x);
  }

  lemma {:induction false} TimesPositive(x: real, y: real)
    ensures x > 0.0 && y > 0.0 ==> Times(x, y) > 0.0
  {
  }

  lemma {:induction false} ConstantBaseline(c: Settings, xs: seq<real>, roots: seq<real>, x: real)
    requires |xs| == |roots| && Within(xs, x, x)
    ensures After(c, xs, roots) == if xs == [] then None else Some(Baseline(x, 0.0, |xs|))
  {
    if xs != [] {
      var k := |xs| - 1;
      ConstantBaseline(c, xs[..k], roots[..k], x);
      var a := Damped(c, ZScore(Baseline(x, 0.0, k), roots[k], x));
      assert Times(a, 0.0) == 0.0 && Remaining(1.0 - a, a, 0.0, 0.0) == 0.0;
    }
  }

  /** A constant series is flagged exactly when the threshold is not positive and enough samples have
      been seen. */
  lemma {:induction false} ConstantSeries(c: Settings, xs: seq<real>, roots: seq<real>, x: real)
    requires |xs| == |roots| > 0 && Within(xs, x, x) && Rooted(c, xs, roots)
    ensures LastFlagged(c, xs, roots) <==> c.threshold <= 0.0 && |xs| > c.minSamples
  {
    var k := |xs| - 1;
    ConstantBaseline(c, xs[..k], roots[..k], x);
    RootOfZero(roots[k], Current(After(c, xs[..k], roots[..k]), xs[k]).variance);
  }

  // ---------------------------------------------------------------- the detector

  lemma {:induction false} AfterAppend(c: Settings, xs: seq<real>, roots: seq<real>, x: real, std: real)
    requires |xs| == |roots| && Rooted(c, xs, roots) && IsRoot(std, Current(After(c, xs, roots), x).variance)
    ensures Rooted(c, xs + [x], roots + [std])
    ensures After(c, xs + [x], roots + [std]) == Some(Updated(c, Current(After(c, xs, roots), x), std, x))
  {
    assert (xs + [x])[..|xs|] == xs && (roots + [std])[..|roots|] == roots;
  }

  lemma {:induction false} CountOf(c: Settings, xs: seq<real>, roots: seq<real>)
    requires |xs| == |roots| > 0
    ensures After(c, xs, roots).value.n == |xs|
  {
    var k := |xs| - 1;
    if k > 0 { CountOf(c, xs[..k], roots[..k]); }
  }

  /** The observations of a metric, and the standard deviations used with them. */
  datatype Past = Past(xs: seq<real>, roots: seq<real>)

  const NOTHING := Past([], [])

  /** What is stored of a metric comes from its past. */
  ghost predicate Kept(c: Settings, stored: Option<Baseline>, past: Past) {
    |past.xs| == |past.roots| && Rooted(c, past.xs, past.roots) && After(c, past.xs, past.roots) == stored
  }

  lemma {:induction false} KeptNothing(c: Settings)
    ensures Kept(c, None, NOTHING)
  {
  }

  lemma {:induction false} KeptMore(c: Settings, stored: Option<Baseline>, past: Past, x: real, std: real)
    requires Kept(c, stored, past) && IsRoot(std, Current(stored, x).variance)
    ensures Kept(c, Some(Updated(c, Current(stored, x), std, x)), Past(past.xs + [x], past.roots + [std]))
    ensures Current(stored, x).n == |past.xs|
  {
    AfterAppend(c, past.xs, past.roots, x, std);
    if past.xs != [] { CountOf(c, past.xs, past.roots); }
  }

  /** What is stored keeps within whatever bounds the observations keep. */
  lemma {:induction false} KeptWithin(c: Settings, b: Baseline, past: Past, lo: real, hi: real)
    requires c.Proper() && |past.xs| == |past.roots| > 0 && After(c, past.xs, past.roots).value == b && Within(past.xs, lo, hi)
    ensures b.n == |past.xs| && lo <= b.mean <= hi && 0.0 <= b.variance <= Times(hi - b.mean, b.mean - lo)
  {
    WithinObservations(c, past.xs, past.roots, lo, hi);
  }

  /** One baseline per metric, in a store; a missing one starts afresh. */
  class Detector {
    const settings: Settings
    var stored: map<string, Baseline>
    ghost var observed: map<string, Past>

    ghost predicate Valid()
      reads this
    {
      settings.Proper() && observed.Keys == stored.Keys && forall m: string :: Kept(settings, Stored(m), PastOf(m))
    }

    constructor (settings: Settings)
      requires settings.Proper()
      ensures Valid() && this.settings == settings && stored == map[]
    {
      this.settings := settings;
      stored, observed := map[], map[];
      KeptNothing(settings);
    }

    function Stored(metric: string): Option<Baseline>
      reads this
    {
      if metric in stored then Some(stored[metric]) else None
    }

    ghost function PastOf(metric: string): Past
      reads this
    {
      if metric in observed then observed[metric] else NOTHING
    }

    /** Adds an observation; std is the root of the variance in force, of a fresh baseline if none is
        stored. */
    method Observe(metric: string, value: real, std: real) returns (result: Option<AnomalyResult>)
      requires Valid() && IsRoot(std, Current(Stored(metric), value).variance)
      modifies this
      ensures Valid()
      ensures PastOf(metric) == Past(old(PastOf(metric).xs) + [value], old(PastOf(metric).roots) + [std])
      ensures forall m :: m != metric ==> Stored(m) == old(Stored(m)) && PastOf(m) == old(PastOf(m))
      ensures Stored(metric) == Some(Updated(settings, old(Current(Stored(metric), value)), std, value))
      ensures result.Some? <==> Flags(settings, old(Current(Stored(metric), value)), std, value)
      ensures result.Some? ==> var b := old(Current(Stored(metric), value));
        result.value == AnomalyResult(metric, value, b.mean, std, ZScore(b, std, value), |old(PastOf(metric).xs)|)
    {
      var b, past := Current(Stored(metric), value), PastOf(metric);
      KeptMore(settings, Stored(metric), past, value, std);
      var z := ZScore(b, std, value);
      result := None;
      if b.n >= settings.minSamples && Abs(z) >= settings.threshold {
        result := Some(AnomalyResult(metric, value, b.mean, std, z, b.n));
      }
      stored := stored[metric := Blend(b, Damped(settings, z), value)];
      observed := observed[metric := Past(past.xs + [value], past.roots + [std])];
      assert Stored(metric) == Some(Updated(settings, b, std, value));
      forall m | m != metric ensures Kept(settings, Stored(m), PastOf(m)) {
        assert Stored(m) == old(Stored(m)) && PastOf(m) == old(PastOf(m));
        assert old(Kept(settings, Stored(m), PastOf(m)));
      }
    }

    /** A metric unheard of for long enough is forgotten. */
    method Expire(metric: string)
      requires Valid()
      modifies this
      ensures Valid() && Stored(metric) == None && PastOf(metric) == NOTHING
      ensures forall m :: m != metric ==> Stored(m) == old(Stored(m)) && PastOf(m) == old(PastOf(m))
    {
      stored, observed := stored - {metric}, observed - {metric};
      KeptNothing(settings);
      forall m | m != metric ensures Kept(settings, Stored(m), PastOf(m)) {
        assert Stored(m) == old(Stored(m)) && PastOf(m) == old(PastOf(m));
        assert old(Kept(settings, Stored(m), PastOf(m)));
      }
    }

    /** The mean, standard deviation and count on record, zero without one. `root` is the root of the
        stored variance. */
    method Read(metric: string, root: real) returns (mean: real, std: real, n: nat)
      requires Valid() && (Stored(metric).Some? ==> IsRoot(root, Stored(metric).value.variance))
      ensures n == |PastOf(metric).xs|
      ensures if n == 0 then mean == std == 0.0 else std == root && OnRecord(metric, mean, std)
    {
      assert Kept(settings, Stored(metric), PastOf(metric));
      if metric !in stored { return 0.0, 0.0, 0; }
      CountOf(settings, PastOf(metric).xs, PastOf(metric).roots);
      return stored[metric].mean, root, stored[metric].n;
    }

    ghost predicate OnRecord(metric: string, mean: real, std: real)
      reads this
    {
      Stored(metric).Some? && mean == Stored(metric).value.mean && IsRoot(std, Stored(metric).value.variance)
    }
  }
}
