/**
 The volatility and drawdown measures of KHKT_Evaluation/common/metrics.py, over exact reals.

 A square root is the last thing either volatility does, so the models stop at the variance. A
 missing sample (NaN) is None.
 */
module Metrics {
  import opened Basics

  // ---------------------------------------------------------------- realised volatility

  function ZeroFill(r: seq<Option<real>>): (z: seq<real>)
    ensures |z| == |r|
    ensures forall i :: 0 <= i < |r| ==> z[i] == if r[i].Some? then r[i].value else 0.0
  {
    seq(|r|, i requires 0 <= i < |r| => if r[i].Some? then r[i].value else 0.0)
  }

  function Square(x: real): (y: real)
    ensures y >= 0.0
  {
    x * x
  }

  function Squares(xs: seq<real>): (ys: seq<real>)
    ensures |ys| == |xs|
    ensures forall i :: 0 <= i < |xs| ==> ys[i] == Square(xs[i])
  {
    seq(|xs|, i requires 0 <= i < |xs| => Square(xs[i]))
  }

  function SquaredDeviations(xs: seq<real>, centre: real): (ds: seq<real>)
    ensures |ds| == |xs|
    ensures forall i :: 0 <= i < |xs| ==> ds[i] == Square(xs[i] - centre)
  {
    seq(|xs|, i requires 0 <= i < |xs| => Square(xs[i] - centre))
  }

  /** The population variance as the textbook defines it: the mean squared deviation from the mean. */
  function Variance(xs: seq<real>): real
    requires xs != []
  {
    Mean(SquaredDeviations(xs, Mean(xs)))
  }

  function Window(xs: seq<real>, end: nat, window: nat): (w: seq<real>)
    requires 1 <= window <= end + 1 <= |xs|
    ensures |w| == window
  {
    xs[end + 1 - window..end + 1]
  }

  lemma SumPrefix(xs: seq<real>, i: nat)
    requires i < |xs|
    ensures Sum(xs[..i + 1]) == Sum(xs[..i]) + xs[i]
  {
    assert xs[..i + 1][..i] == xs[..i];
  }

  lemma SumOfWindow(xs: seq<real>, lo: nat, hi: nat)
    requires lo <= hi <= |xs|
    ensures Sum(xs[lo..hi]) == Sum(xs[..hi]) - Sum(xs[..lo])
  {
    SumAppend(xs[..lo], xs[lo..hi]);
    assert xs[..lo] + xs[lo..hi] == xs[..hi];
  }

  lemma {:induction false} SumNonNegative(xs: seq<real>)
    requires forall i :: 0 <= i < |xs| ==> xs[i] >= 0.0
    ensures Sum(xs) >= 0.0
  {
    if xs != [] {
      SumNonNegative(xs[..|xs| - 1]);
    }
  }

  /** The sum of squared deviations from c, expanded into the count and the first two moments. */
  predicate Expands(deviations: real, s1: real, s2: real, m: real, c: real) {
    deviations == s2 - 2.0 * (c * s1) + m * Square(c)
  }

  lemma ExpandOne(deviations: real, s1: real, s2: real, m: real, x: real, c: real)
    requires Expands(deviations, s1, s2, m, c)
    ensures Expands(deviations + Square(x - c), s1 + x, s2 + Square(x), m + 1.0, c)
  {
    assert Square(x - c) == Square(x) - 2.0 * (c * x) + Square(c);
  }

  lemma {:induction false} DeviationsExpand(xs: seq<real>, c: real)
    ensures Expands(Sum(SquaredDeviations(xs, c)), Sum(xs), Sum(Squares(xs)), |xs| as real, c)
  {
    if xs != [] {
      var n := |xs| - 1;
      var rest := xs[..n];
      DeviationsExpand(rest, c);
      assert SquaredDeviations(xs, c)[..n] == SquaredDeviations(rest, c);
      assert Squares(xs)[..n] == Squares(rest);
      ExpandOne(Sum(SquaredDeviations(rest, c)), Sum(rest), Sum(Squares(rest)), n as real, xs[n], c);
      assert Sum(xs) == Sum(rest) + xs[n];
      assert Sum(Squares(xs)) == Sum(Squares(rest)) + Square(xs[n]);
      assert Sum(SquaredDeviations(xs, c)) == Sum(SquaredDeviations(rest, c)) + Square(xs[n] - c);
      assert |xs| as real == n as real + 1.0;
    }
  }

  function TwoMoments(s1: real, s2: real, m: real): real
    requires m > 0.0
  {
    s2 / m - Square(s1 / m)
  }

  lemma MomentArithmetic(s1: real, s2: real, deviations: real, m: real, mean: real)
    requires m > 0.0 && mean == s1 / m && deviations >= 0.0
    requires Expands(deviations, s1, s2, m, mean)
    ensures deviations / m == s2 / m - Square(mean)
    ensures deviations / m >= 0.0
  {
    var q := s2 / m;
    assert s1 == mean * m && s2 == q * m;
    assert deviations == (q - Square(mean)) * m;
  }

  /** The two-moment form of the variance equals the definition, so it is never negative. */
  lemma VarianceFromMoments(xs: seq<real>)
    requires xs != []
    ensures TwoMoments(Sum(xs), Sum(Squares(xs)), |xs| as real) == Variance(xs)
    ensures Variance(xs) >= 0.0
  {
    var mean := Mean(xs);
    var ds := SquaredDeviations(xs, mean);
    DeviationsExpand(xs, mean);
    SumNonNegative(ds);
    MomentArithmetic(Sum(xs), Sum(Squares(xs)), Sum(ds), |xs| as real, mean);
  }

  method CumulativeSum(xs: seq<real>) returns (c: array<real>)
    ensures fresh(c) && c.Length == |xs|
    ensures forall i :: 0 <= i < |xs| ==> c[i] == Sum(xs[..i + 1])
  {
    c := new real[|xs|](_ => 0.0);
    var total := 0.0;
    for i := 0 to |xs|
      invariant total == Sum(xs[..i])
      invariant forall k :: 0 <= k < i ==> c[k] == Sum(xs[..k + 1])
    {
      SumPrefix(xs, i);
      total := total + xs[i];
      c[i] := total;
    }
  }

  /** The volatility column by its definition: the variance of each full window, None before the first. */
  function RollingVariances(z: seq<real>, window: int): (vs: seq<Option<real>>)
    ensures |vs| == |z|
  {
    seq(|z|, i requires 0 <= i < |z| =>
      if window < 2 || i < window - 1 then None else Some(Variance(Window(z, i, window))))
  }

  /**
   The rolling variance: prefix sums of the samples and of their squares, one subtraction a window,
   clamped at zero. In exact arithmetic it is the variance of the window with missing samples read as
   zero, and the clamp never acts.
   */
  method RealizedVariance(r: seq<Option<real>>, window: int) returns (out: array<Option<real>>)
    ensures fresh(out) && out[..] == RollingVariances(ZeroFill(r), window)
  {
    out := new Option<real>[|r|](_ => None);
    var z := ZeroFill(r);
    ghost var want := RollingVariances(z, window);
    if window < 2 || |r| < window {
      return;
    }
    var c1 := CumulativeSum(z);
    var c2 := CumulativeSum(Squares(z));
    for i := window - 1 to |r|
      invariant forall k :: 0 <= k < |r| ==> out[k] == if k < i then want[k] else None
      modifies out
    {
      var v := WindowVariance(z, c1, c2, i, window);
      out[i] := Some(v);
    }
  }

  /** One window from the two prefix-sum arrays. */
  method WindowVariance(z: seq<real>, c1: array<real>, c2: array<real>, i: nat, window: nat) returns (v: real)
    requires 2 <= window <= i + 1 <= |z| == c1.Length == c2.Length
    requires forall k :: 0 <= k < |z| ==> c1[k] == Sum(z[..k + 1]) && c2[k] == Sum(Squares(z)[..k + 1])
    ensures RollingVariances(z, window)[i] == Some(v)
  {
    var j := i - window + 1;
    var s1 := c1[i] - (if j > 0 then c1[j - 1] else 0.0);
    var s2 := c2[i] - (if j > 0 then c2[j - 1] else 0.0);
    PrefixSumsGiveVariance(z, i, window, s1, s2);
    v := Max(0.0, TwoMoments(s1, s2, window as real));
  }

  lemma WindowSums(z: seq<real>, i: nat, window: nat, s1: real, s2: real)
    requires 1 <= window <= i + 1 <= |z|
    requires s1 == Sum(z[..i + 1]) - Sum(z[..i + 1 - window])
    requires s2 == Sum(Squares(z)[..i + 1]) - Sum(Squares(z)[..i + 1 - window])
    ensures s1 == Sum(Window(z, i, window)) && s2 == Sum(Squares(Window(z, i, window)))
  {
    var j := i + 1 - window;
    SumOfWindow(z, j, i + 1);
    SumOfWindow(Squares(z), j, i + 1);
    assert Squares(z)[j..i + 1] == Squares(Window(z, i, window));
  }

  /** The prefix-sum form of a window's variance is its definition, so clamping it changes nothing. */
  lemma PrefixSumsGiveVariance(z: seq<real>, i: nat, window: nat, s1: real, s2: real)
    requires 2 <= window <= i + 1 <= |z|
    requires s1 == Sum(z[..i + 1]) - Sum(z[..i + 1 - window])
    requires s2 == Sum(Squares(z)[..i + 1]) - Sum(Squares(z)[..i + 1 - window])
    ensures var v := TwoMoments(s1, s2, window as real);
      Max(0.0, v) == v && RollingVariances(z, window)[i] == Some(v)
  {
    WindowSums(z, i, window, s1, s2);
    VarianceFromMoments(Window(z, i, window));
  }

  // ---------------------------------------------------------------- drawdown

  const FLOOR := 0.000000000001

  /** numpy's running maximum. */
  function Peaks(eq: seq<real>): (ps: seq<real>)
    ensures |ps| == |eq|
  {
    if eq == [] then []
    else
      var ps := Peaks(eq[..|eq| - 1]);
      var x := eq[|eq| - 1];
      ps + [if ps == [] then x else Max(ps[|ps| - 1], x)]
  }

  /** The relative fall from a to b, with the source's floor under the denominator. */
  function Fall(a: real, b: real): real {
    (a - b) / Max(a, FLOOR)
  }

  function FallsFrom(peaks: seq<real>, eq: seq<real>): (ds: seq<real>)
    requires |peaks| == |eq|
    ensures |ds| == |eq|
    ensures forall j :: 0 <= j < |eq| ==> ds[j] == Fall(peaks[j], eq[j])
  {
    seq(|eq|, j requires 0 <= j < |eq| => Fall(peaks[j], eq[j]))
  }

  function Falls(eq: seq<real>): (ds: seq<real>)
    ensures |ds| == |eq|
  {
    FallsFrom(Peaks(eq), eq)
  }

  lemma FallsFromAppend(peaks: seq<real>, eq: seq<real>, p: real, x: real)
    requires |peaks| == |eq|
    ensures FallsFrom(peaks + [p], eq + [x]) == FallsFrom(peaks, eq) + [Fall(p, x)]
  {
  }

  function Maximum(xs: seq<real>): (m: real)
    requires xs != []
    ensures forall i :: 0 <= i < |xs| ==> xs[i] <= m
    ensures m in xs
  {
    if |xs| == 1 then xs[0] else Max(Maximum(xs[..|xs| - 1]), xs[|xs| - 1])
  }

  /** None is the NaN of an empty curve. */
  function MaxDrawdown(equity: seq<real>): Option<real> {
    if equity == [] then None else Some(Maximum(Falls(equity)))
  }

  /** Each running peak is attained at or before its row and dominates every row up to it. */
  lemma {:induction false} PeakIsPrefixMaximum(eq: seq<real>, j: nat)
    requires j < |eq|
    ensures forall i :: 0 <= i <= j ==> eq[i] <= Peaks(eq)[j]
    ensures exists i :: 0 <= i <= j && eq[i] == Peaks(eq)[j]
    decreases |eq|
  {
    var n := |eq| - 1;
    var rest := eq[..n];
    if j < n {
      PeakIsPrefixMaximum(rest, j);
      assert forall i :: 0 <= i <= j ==> rest[i] == eq[i];
    } else if n > 0 {
      PeakIsPrefixMaximum(rest, n - 1);
      var w :| 0 <= w <= n - 1 && rest[w] == Peaks(rest)[n - 1];
      assert forall i :: 0 <= i < n ==> rest[i] == eq[i];
      assert eq[w] == Peaks(eq)[j] || eq[n] == Peaks(eq)[j];
    } else {
      assert eq[0] == Peaks(eq)[0];
    }
  }

  /** A higher starting point never makes the fall to a non-negative level smaller. */
  lemma FallGrowsWithStart(a: real, p: real, b: real)
    requires b <= a <= p && b >= 0.0
    ensures Fall(a, b) <= Fall(p, b)
  {
    if p <= FLOOR {
      DivideBoth(a - b, p - b, FLOOR);
    } else if a >= FLOOR {
      UnflooredCross(a, p, b);
      CrossDivide(a - b, a, p - b, p);
    } else {
      FlooredCross(a, p, b);
      CrossDivide(a - b, FLOOR, p - b, p);
    }
  }

  lemma UnflooredCross(a: real, p: real, b: real)
    requires 0.0 <= b <= a <= p
    ensures (a - b) * p <= (p - b) * a
  {
    Mul(b, a, p);
    assert (p - b) * a - (a - b) * p == b * p - b * a;
  }

  lemma FlooredCross(a: real, p: real, b: real)
    requires 0.0 <= b <= a < FLOOR < p
    ensures (a - b) * p <= (p - b) * FLOOR
  {
    Mul(p, a - b, FLOOR - b);
    assert p * (FLOOR - b) == p * FLOOR - p * b;
    Mul(b, FLOOR, p);
    assert (p - b) * FLOOR == p * FLOOR - b * FLOOR;
  }

  lemma DivideBoth(x: real, y: real, d: real)
    requires x <= y && d > 0.0
    ensures x / d <= y / d
  {
  }

  lemma CrossDivide(x: real, u: real, y: real, v: real)
    requires u > 0.0 && v > 0.0 && x * v <= y * u
    ensures x / u <= y / v
  {
    assert x / u == (x * v) / (u * v);
    assert y / v == (y * u) / (u * v);
    DivideBoth(x * v, y * u, u * v);
  }

  lemma FallSign(a: real, b: real)
    ensures a >= b ==> Fall(a, b) >= 0.0
    ensures a <= b ==> Fall(a, b) <= 0.0
  {
  }

  ghost predicate PairsWithin(eq: seq<real>, d: real) {
    forall i, j :: 0 <= i <= j < |eq| ==> Fall(eq[i], eq[j]) <= d
  }

  /** No pair of rows falls further than the one-pass drawdown says. */
  ghost predicate FindsWorstPair(eq: seq<real>)
    requires eq != []
  {
    PairsWithin(eq, MaxDrawdown(eq).value)
  }

  /** On every curve some pair falls exactly as far as the one-pass drawdown. */
  lemma DrawdownIsSomePair(eq: seq<real>)
    requires eq != []
    ensures exists i, j :: 0 <= i <= j < |eq| && Fall(eq[i], eq[j]) == MaxDrawdown(eq).value
  {
    var j :| 0 <= j < |eq| && Falls(eq)[j] == MaxDrawdown(eq).value;
    PeakIsPrefixMaximum(eq, j);
    var i :| 0 <= i <= j && eq[i] == Peaks(eq)[j];
    assert Fall(eq[i], eq[j]) == MaxDrawdown(eq).value;
  }

  // ---------------------------------------------------------------- which curves find their worst pair

  lemma PeaksExtend(eq: seq<real>, x: real)
    requires eq != []
    ensures Peaks(eq + [x])[|eq|] == Max(Peaks(eq)[|eq| - 1], x)
    ensures Peaks(eq + [x])[..|eq|] == Peaks(eq)
  {
    assert (eq + [x])[..|eq|] == eq;
  }

  lemma MaximumExtends(xs: seq<real>, x: real)
    requires xs != []
    ensures Maximum(xs + [x]) == Max(Maximum(xs), x)
  {
    assert (xs + [x])[..|xs|] == xs;
  }

  lemma FallsExtend(curve: seq<real>, x: real)
    requires curve != []
    ensures Falls(curve + [x]) == Falls(curve) + [Fall(Peaks(curve + [x])[|curve|], x)]
  {
    PeaksExtend(curve, x);
    var peaks := Peaks(curve + [x]);
    assert peaks == Peaks(curve) + [peaks[|curve|]];
    FallsFromAppend(Peaks(curve), curve, peaks[|curve|], x);
  }

  function TopOf(eq: seq<real>): real
    requires eq != []
  {
    Peaks(eq)[|eq| - 1]
  }

  lemma DrawdownExtends(eq: seq<real>, x: real)
    requires eq != []
    ensures MaxDrawdown(eq + [x]).value == Max(MaxDrawdown(eq).value, Fall(Max(TopOf(eq), x), x))
  {
    PeaksExtend(eq, x);
    FallsExtend(eq, x);
    MaximumExtends(Falls(eq), Fall(Max(TopOf(eq), x), x));
  }

  lemma TopDominates(eq: seq<real>, i: nat)
    requires i < |eq|
    ensures eq[i] <= TopOf(eq)
  {
    PeakIsPrefixMaximum(eq, |eq| - 1);
  }

  lemma PairsWithinMore(eq: seq<real>, x: real, d: real, more: real)
    requires PairsWithin(eq, d) && d <= more
    requires forall i :: 0 <= i < |eq| ==> Fall(eq[i], x) <= more
    requires Fall(x, x) <= more
    ensures PairsWithin(eq + [x], more)
  {
    var longer := eq + [x];
    forall i, j | 0 <= i <= j < |longer| ensures Fall(longer[i], longer[j]) <= more {
      if j < |eq| {
        SameFall(eq[i], eq[j], longer[i], longer[j]);
      } else if i < |eq| {
        SameFall(eq[i], x, longer[i], longer[j]);
      } else {
        SameFall(x, x, longer[i], longer[j]);
      }
    }
  }

  lemma SameFall(a: real, b: real, a': real, b': real)
    requires a == a' && b == b'
    ensures Fall(a, b) == Fall(a', b')
  {
  }

  /** One more level keeps the property when no earlier level falls further to it than the peak does. */
  lemma NextLevelKeeps(eq: seq<real>, x: real)
    requires eq != [] && FindsWorstPair(eq)
    requires forall i :: 0 <= i < |eq| ==> Fall(eq[i], x) <= Fall(Max(TopOf(eq), x), x)
    ensures FindsWorstPair(eq + [x])
  {
    DrawdownExtends(eq, x);
    FallSign(Max(TopOf(eq), x), x);
    FallSign(x, x);
    PairsWithinMore(eq, x, MaxDrawdown(eq).value, MaxDrawdown(eq + [x]).value);
  }

  lemma NonNegativeLevelSurvives(eq: seq<real>, x: real)
    requires eq != [] && FindsWorstPair(eq) && x >= 0.0
    ensures FindsWorstPair(eq + [x])
  {
    var top := Max(TopOf(eq), x);
    FallSign(top, x);
    forall i | 0 <= i < |eq| ensures Fall(eq[i], x) <= Fall(top, x) {
      TopDominates(eq, i);
      FallSign(eq[i], x);
      if eq[i] >= x {
        FallGrowsWithStart(eq[i], top, x);
      }
    }
    NextLevelKeeps(eq, x);
  }

  /** The peak does not clear the floor, or the curve has never moved. */
  predicate NeverRisen(eq: seq<real>)
    requires eq != []
  {
    TopOf(eq) <= FLOOR || forall i :: 0 <= i < |eq| ==> eq[i] == TopOf(eq)
  }

  lemma FlooredFallGrows(a: real, p: real, x: real)
    requires a <= p <= FLOOR
    ensures Fall(a, x) <= Fall(p, x)
  {
    DivideBoth(a - x, p - x, FLOOR);
  }

  lemma UnrisenSurvives(eq: seq<real>, x: real)
    requires eq != [] && FindsWorstPair(eq) && NeverRisen(eq)
    ensures FindsWorstPair(eq + [x])
  {
    var p := TopOf(eq);
    FallSign(Max(p, x), x);
    forall i | 0 <= i < |eq| ensures Fall(eq[i], x) <= Fall(Max(p, x), x) {
      TopDominates(eq, i);
      FallSign(eq[i], x);
      if x <= p && p <= FLOOR {
        FlooredFallGrows(eq[i], p, x);
      }
    }
    NextLevelKeeps(eq, x);
  }

  /** Deep enough below zero a lower start falls further, in relative terms, than the peak. */
  lemma DeepFall(a: real, m: real, p: real, d: real) returns (z: real)
    requires a <= m && 0.0 < m < p
    ensures z > 0.0
    ensures (a + z) / m > (p + z) / p && (a + z) / m > d
  {
    var lead := p * (m - a) / (p - m);
    LeadIsEnough(lead, p * (m - a), p - m);
    z := lead + Max(0.0, d * m - a) + 1.0;
    assert z * (p - m) > p * (m - a) by {
      StrictMul(p - m, lead, z);
    }
    assert (p + z) * m < (a + z) * p;
    CrossDivideStrictly(p + z, p, a + z, m);
    assert d * m < a + z;
    CrossDivideStrictly(d, 1.0, a + z, m);
  }

  lemma LeadIsEnough(lead: real, product: real, gap: real)
    requires gap > 0.0 && lead == product / gap
    ensures lead * gap == product
    ensures product >= 0.0 ==> lead >= 0.0
  {
  }

  lemma StrictMul(k: real, x: real, y: real)
    requires k > 0.0 && x < y
    ensures x * k < y * k
  {
  }

  lemma CrossDivideStrictly(x: real, u: real, y: real, v: real)
    requires u > 0.0 && v > 0.0 && x * v < y * u
    ensures x / u < y / v
  {
    var q, r := x / u, y / v;
    assert x == q * u && y == r * v;
    assert (r - q) * (u * v) > 0.0;
    PositiveFactor(r - q, u * v);
  }

  lemma PositiveFactor(x: real, k: real)
    requires k > 0.0 && x * k > 0.0
    ensures x > 0.0
  {
  }

  /** A level so low that the fall to it from a, floored, beats both d and the fall from the peak. */
  lemma DeepLevel(a: real, p: real, d: real) returns (x: real)
    requires a < p && p > FLOOR
    ensures x < 0.0 && Fall(a, x) > d && Fall(a, x) > Fall(Max(p, x), x)
  {
    var z := DeepFall(a, Max(a, FLOOR), p, d);
    x := -z;
    assert Fall(a, x) == (a + z) / Max(a, FLOOR);
    assert Max(p, x) == p;
    assert Fall(p, x) == (p + z) / p;
  }

  lemma PairIsMissed(eq: seq<real>, i: nat, x: real)
    requires i < |eq|
    requires Fall(eq[i], x) > MaxDrawdown(eq).value && Fall(eq[i], x) > Fall(Max(TopOf(eq), x), x)
    ensures !FindsWorstPair(eq + [x])
  {
    var longer := eq + [x];
    DrawdownExtends(eq, x);
    SameFall(eq[i], x, longer[i], longer[|eq|]);
    assert Fall(longer[i], longer[|eq|]) > MaxDrawdown(longer).value;
  }

  /** Any curve with a level under a peak above the floor has a next level at which the worst pair is missed. */
  lemma RisenCurveHasBreakingLevel(eq: seq<real>) returns (x: real)
    requires eq != [] && !NeverRisen(eq)
    ensures x < 0.0 && !FindsWorstPair(eq + [x])
  {
    var i :| 0 <= i < |eq| && eq[i] != TopOf(eq);
    TopDominates(eq, i);
    x := DeepLevel(eq[i], TopOf(eq), MaxDrawdown(eq).value);
    PairIsMissed(eq, i, x);
  }

  /**
   A curve that finds its worst pair goes on finding it whatever level comes next exactly when its peak does
   not clear the floor or all its levels are equal; otherwise some negative level breaks it.
   */
  lemma SurvivesEveryLevelExactlyWhenNeverRisen(eq: seq<real>)
    requires eq != [] && FindsWorstPair(eq)
    ensures (forall x: real :: FindsWorstPair(eq + [x])) <==> NeverRisen(eq)
  {
    if NeverRisen(eq) {
      forall x: real ensures FindsWorstPair(eq + [x]) {
        UnrisenSurvives(eq, x);
      }
    } else {
      var x := RisenCurveHasBreakingLevel(eq);
    }
  }

  /** Every negative level but the first comes while the curve has never risen. */
  predicate NegativeOnlyUnrisen(eq: seq<real>) {
    |eq| <= 1 ||
    var front, x := eq[..|eq| - 1], eq[|eq| - 1];
    NegativeOnlyUnrisen(front) && (x >= 0.0 || NeverRisen(front))
  }

  lemma {:induction false} NonNegativeCurves(eq: seq<real>)
    requires forall i :: 0 <= i < |eq| ==> eq[i] >= 0.0
    ensures NegativeOnlyUnrisen(eq)
  {
    if |eq| > 1 {
      NonNegativeCurves(eq[..|eq| - 1]);
    }
  }

  lemma OneLevel(x: real)
    ensures FindsWorstPair([x])
  {
    FallSign(x, x);
    assert [x][..0] == [];
    assert Peaks([x]) == [x];
    assert Falls([x]) == [Fall(x, x)];
  }

  lemma OneMoreLevel(eq: seq<real>, x: real)
    requires eq != [] && FindsWorstPair(eq) && (x >= 0.0 || NeverRisen(eq))
    ensures FindsWorstPair(eq + [x])
  {
    if x >= 0.0 {
      NonNegativeLevelSurvives(eq, x);
    } else {
      UnrisenSurvives(eq, x);
    }
  }

  lemma {:induction false} NegativeOnlyUnrisenFinds(eq: seq<real>)
    requires eq != [] && NegativeOnlyUnrisen(eq)
    ensures FindsWorstPair(eq)
  {
    var front, x := eq[..|eq| - 1], eq[|eq| - 1];
    assert eq == front + [x];
    if front == [] {
      OneLevel(x);
    } else {
      NegativeOnlyUnrisenFinds(front);
      OneMoreLevel(front, x);
    }
  }

  /** Row j is negative, and row i before it lies below a peak that by then clears the floor. */
  predicate Suspect(eq: seq<real>, i: nat, j: nat)
    requires i <= j < |eq|
  {
    eq[j] < 0.0 && eq[i] < Peaks(eq)[j] && Peaks(eq)[j] > FLOOR
  }

  ghost predicate SuspectsWithin(eq: seq<real>, d: real) {
    forall i, j :: 0 <= i <= j < |eq| && Suspect(eq, i, j) ==> Fall(eq[i], eq[j]) <= d
  }

  lemma LowerStartFallsLess(a: real, p: real, x: real)
    requires a <= p && (x >= 0.0 || a == p || p <= FLOOR)
    ensures Fall(a, x) <= Max(0.0, Fall(p, x))
  {
    FallSign(a, x);
    if a >= x && p <= FLOOR {
      FlooredFallGrows(a, p, x);
    } else if a >= x && a < p {
      FallGrowsWithStart(a, p, x);
    }
  }

  /** The fall to a row from any other row before it is one the running peak accounts for. */
  lemma OtherPairsWithin(eq: seq<real>, i: nat, j: nat)
    requires i <= j < |eq| && !Suspect(eq, i, j)
    ensures Fall(eq[i], eq[j]) <= MaxDrawdown(eq).value
  {
    PeakIsPrefixMaximum(eq, j);
    LowerStartFallsLess(eq[i], Peaks(eq)[j], eq[j]);
    FallSign(Peaks(eq)[j], eq[j]);
    assert Falls(eq)[j] == Fall(Peaks(eq)[j], eq[j]);
  }

  /**
   The one-pass drawdown is the fall of some pair of rows, and no pair falls further exactly when none of the
   suspect pairs does; a curve without a negative row, or whose negative rows come before it rises, has none.
   */
  lemma DrawdownIsWorstPair(eq: seq<real>)
    requires eq != []
    ensures MaxDrawdown(eq).Some?
    ensures exists i, j :: 0 <= i <= j < |eq| && Fall(eq[i], eq[j]) == MaxDrawdown(eq).value
    ensures (forall i, j :: 0 <= i <= j < |eq| ==> Fall(eq[i], eq[j]) <= MaxDrawdown(eq).value) <==>
      SuspectsWithin(eq, MaxDrawdown(eq).value)
  {
    DrawdownIsSomePair(eq);
    if SuspectsWithin(eq, MaxDrawdown(eq).value) {
      forall i, j | 0 <= i <= j < |eq| ensures Fall(eq[i], eq[j]) <= MaxDrawdown(eq).value {
        if !Suspect(eq, i, j) {
          OtherPairsWithin(eq, i, j);
        }
      }
    }
  }

  /** With a negative level the running peak no longer marks the worst pair: from 2 the fall to -1 is
      1.5, from 1 it is 2. */
  lemma NegativeCurveMissesWorstPair()
    ensures MaxDrawdown([1.0, 2.0, -1.0]) == Some(1.5)
    ensures Fall(1.0, -1.0) == 2.0
  {
    assert [1.0, 2.0, -1.0][..2] == [1.0, 2.0];
    assert [1.0, 2.0][..1] == [1.0];
    assert Peaks([1.0]) == [1.0] by { assert [1.0][..0] == []; }
    assert Peaks([1.0, 2.0]) == [1.0, 2.0];
    assert Peaks([1.0, 2.0, -1.0]) == [1.0, 2.0, 2.0];
    assert Falls([1.0, 2.0, -1.0]) == [0.0, 0.0, 1.5];
    assert [0.0, 0.0, 1.5][..2] == [0.0, 0.0];
    assert [0.0, 0.0][..1] == [0.0];
  }
}
