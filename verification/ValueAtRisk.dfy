/**
 Historical VaR and CVaR of sentinel/var.py: sort the losses, interpolate a percentile, average the
 tail at or above it. Floats are reals; a NaN or infinite return is None.
 */
module ValueAtRisk {
  import opened Basics
  import S = Sorting

  // ---------------------------------------------------------------- sorting

  ghost predicate Sorted(s: seq<real>) {
    forall i, j :: 0 <= i <= j < |s| ==> s[i] <= s[j]
  }

  predicate AtMost(a: real, b: real) {
    a <= b
  }

  function Insert(x: real, s: seq<real>): (r: seq<real>)
    ensures |r| == |s| + 1
  {
    S.Insert(AtMost, x, s)
  }

  function Sort(xs: seq<real>): (s: seq<real>)
    ensures |s| == |xs|
  {
    S.Sort(AtMost, xs)
  }

  /** The k-th value of a sorted list after x has joined it. */
  function Inserted(x: real, s: seq<real>, k: nat): real
    requires k <= |s|
  {
    if k < |s| && s[k] <= x then s[k] else if k > 0 && s[k - 1] > x then s[k - 1] else x
  }

  lemma {:induction false} InsertPlace(x: real, s: seq<real>, k: nat)
    requires Sorted(s) && k <= |s|
    ensures Insert(x, s)[k] == Inserted(x, s, k)
  {
    var n := |s| - 1;
    if s == [] || s[n] <= x {
      assert Insert(x, s) == s + [x];
    } else {
      assert Insert(x, s) == Insert(x, s[..n]) + [s[n]];
      if k <= n {
        InsertPlace(x, s[..n], k);
      }
    }
  }

  lemma InsertPlaces(x: real, s: seq<real>)
    requires Sorted(s)
    ensures forall k :: 0 <= k <= |s| ==> Insert(x, s)[k] == Inserted(x, s, k)
  {
    forall k | 0 <= k <= |s| ensures Insert(x, s)[k] == Inserted(x, s, k) {
      InsertPlace(x, s, k);
    }
  }

  lemma SortSorts(xs: seq<real>)
    ensures Sorted(Sort(xs))
    ensures multiset(Sort(xs)) == multiset(xs)
  {
    assert S.Orders(AtMost);
    S.SortOrders(AtMost, xs);
    S.SortRearranges(AtMost, xs);
    forall i, j | 0 <= i < j < |xs| ensures Sort(xs)[i] <= Sort(xs)[j] {
      assert AtMost(Sort(xs)[i], Sort(xs)[j]);
    }
  }

  lemma HeadsAgree(a: seq<real>, b: seq<real>)
    requires Sorted(a) && Sorted(b) && multiset(a) == multiset(b) && a != [] && b != []
    ensures a[0] == b[0]
    ensures multiset(a[1..]) == multiset(b[1..])
  {
    assert a[0] in multiset(b) && b[0] in multiset(a);
    TailAsBag(a);
    TailAsBag(b);
  }

  lemma TailAsBag(a: seq<real>)
    requires a != []
    ensures multiset(a[1..]) == multiset(a) - multiset{a[0]}
  {
    assert a == [a[0]] + a[1..];
  }

  lemma {:induction false} SortedIsUnique(a: seq<real>, b: seq<real>)
    requires Sorted(a) && Sorted(b) && multiset(a) == multiset(b)
    ensures a == b
  {
    assert |a| == |multiset(a)| == |multiset(b)| == |b|;
    if a != [] {
      HeadsAgree(a, b);
      SortedIsUnique(a[1..], b[1..]);
    }
  }

  lemma SortOfSorted(s: seq<real>)
    requires Sorted(s)
    ensures Sort(s) == s
  {
    SortSorts(s);
    SortedIsUnique(s, Sort(s));
  }

  // ---------------------------------------------------------------- the estimate

  function Ceil(r: real): (n: int)
    ensures n as real - 1.0 < r <= n as real
  {
    if r == r.Floor as real then r.Floor else r.Floor + 1
  }

  function Rank(n: nat, pct: real): real {
    pct / 100.0 * (n as real - 1.0)
  }

  /** Linear interpolation at a fractional index. */
  function Interpolate(s: seq<real>, rank: real): real
    requires 0.0 <= rank <= |s| as real - 1.0
  {
    var low, high := rank.Floor, Ceil(rank);
    if low == high then s[low]
    else
      var frac := rank - low as real;
      s[low] * (1.0 - frac) + s[high] * frac
  }

  lemma RankInRange(n: nat, pct: real)
    requires n >= 1 && 0.0 <= pct <= 100.0
    ensures 0.0 <= Rank(n, pct) <= n as real - 1.0
  {
    Mul(n as real - 1.0, 0.0, pct / 100.0);
    Mul(n as real - 1.0, pct / 100.0, 1.0);
  }

  function Percentile(s: seq<real>, pct: real): real
    requires 0.0 <= pct <= 100.0
  {
    if s == [] then 0.0
    else if |s| == 1 then s[0]
    else
      RankInRange(|s|, pct);
      Interpolate(s, Rank(|s|, pct))
  }

  function AtLeast(s: seq<real>, bound: real): seq<real> {
    if s == [] then []
    else (if s[0] >= bound then [s[0]] else []) + AtLeast(s[1..], bound)
  }

  function Scale(k: real, xs: seq<real>): (ys: seq<real>)
    ensures |ys| == |xs|
    ensures forall i :: 0 <= i < |xs| ==> ys[i] == Times(k, xs[i])
  {
    seq(|xs|, i requires 0 <= i < |xs| => Times(k, xs[i]))
  }

  function Losses(history: seq<real>): (losses: seq<real>)
    ensures |losses| == |history|
    ensures forall i :: 0 <= i < |history| ==> losses[i] == -history[i]
  {
    seq(|history|, i requires 0 <= i < |history| => -history[i])
  }

  /** Confidence is a probability: outside [0, 1] the source's percentile index leaves the list. */
  predicate Confidence(c: real) {
    0.0 <= c <= 1.0
  }

  datatype Risk = Risk(valueAtRisk: real, conditional: real)

  function HistoricalVar(history: seq<real>, c: real): Risk
    requires Confidence(c)
  {
    if history == [] then Risk(0.0, 0.0)
    else
      var losses := Sort(Losses(history));
      var v := Percentile(losses, c * 100.0);
      var tail := AtLeast(losses, v);
      var cv := if tail != [] then Mean(tail) else v;
      Risk(Max(v, 0.0), Max(cv, 0.0))
  }

  // ---------------------------------------------------------------- the shape of a sorted sample

  /** The unclamped VaR of a sorted sample, and the index from which its tail runs. */
  function Threshold(s: seq<real>, c: real): real
    requires s != [] && Confidence(c)
  {
    Percentile(s, c * 100.0)
  }

  function TailStart(s: seq<real>, bound: real): (k: nat)
    ensures k <= |s|
  {
    if s == [] || s[0] >= bound then 0 else 1 + TailStart(s[1..], bound)
  }

  function FracRank(n: nat, c: real): (r: real)
    requires n >= 1 && Confidence(c)
    ensures 0.0 <= r <= n as real - 1.0
  {
    Mul(n as real - 1.0, 0.0, c);
    Mul(n as real - 1.0, c, 1.0);
    Times(n as real - 1.0, c)
  }

  lemma ThresholdInterpolates(s: seq<real>, c: real)
    requires s != [] && Confidence(c)
    ensures Threshold(s, c) == Interpolate(s, FracRank(|s|, c))
  {
    assert c * 100.0 / 100.0 == c;
  }

  /** Past its start every loss of a sorted list reaches the bound, before it none does. */
  lemma {:induction false} TailStartSplits(s: seq<real>, bound: real)
    requires Sorted(s)
    ensures forall k :: 0 <= k < |s| ==> (s[k] >= bound <==> k >= TailStart(s, bound))
  {
    if s != [] && s[0] < bound {
      var t := s[1..];
      TailStartSplits(t, bound);
      forall k | 0 <= k < |s| ensures s[k] >= bound <==> k >= TailStart(s, bound) {
        if k > 0 {
          assert s[k] == t[k - 1];
        }
      }
    }
  }

  lemma {:induction false} AllAtLeast(s: seq<real>, bound: real)
    requires forall k :: 0 <= k < |s| ==> s[k] >= bound
    ensures AtLeast(s, bound) == s
  {
    if s != [] {
      AllAtLeast(s[1..], bound);
      assert s == [s[0]] + s[1..];
    }
  }

  lemma {:induction false} AtLeastIsDrop(s: seq<real>, bound: real)
    requires Sorted(s)
    ensures AtLeast(s, bound) == s[TailStart(s, bound)..]
  {
    if s != [] {
      if s[0] >= bound {
        AllAtLeast(s, bound);
      } else {
        AtLeastIsDrop(s[1..], bound);
        assert s[1..][TailStart(s[1..], bound)..] == s[TailStart(s, bound)..];
      }
    }
  }

  lemma TailIsSuffix(s: seq<real>, bound: real)
    requires Sorted(s)
    ensures AtLeast(s, bound) == s[TailStart(s, bound)..]
    ensures forall k :: 0 <= k < |s| ==> (s[k] >= bound <==> k >= TailStart(s, bound))
  {
    TailStartSplits(s, bound);
    AtLeastIsDrop(s, bound);
  }

  lemma Blend(x: real, y: real, f: real)
    requires x <= y && 0.0 <= f <= 1.0
    ensures x <= x * (1.0 - f) + y * f <= y
    ensures x < y && f > 0.0 ==> x < x * (1.0 - f) + y * f
  {
    assert x * (1.0 - f) + y * f == x + (y - x) * f;
    assert x * (1.0 - f) + y * f == y - (y - x) * (1.0 - f);
  }

  lemma BlendMonotone(x: real, y: real, x': real, y': real, f: real)
    requires x <= x' && y <= y' && 0.0 <= f <= 1.0
    ensures x * (1.0 - f) + y * f <= x' * (1.0 - f) + y' * f
  {
    Mul(1.0 - f, x, x');
    Mul(f, y, y');
  }

  lemma BlendAdvances(x: real, y: real, f: real, g: real)
    requires x <= y && f <= g
    ensures x * (1.0 - f) + y * f <= x * (1.0 - g) + y * g
  {
    assert x * (1.0 - f) + y * f == x + (y - x) * f;
    assert x * (1.0 - g) + y * g == x + (y - x) * g;
    assert (y - x) * f <= (y - x) * g;
  }

  lemma InterpolationBracket(s: seq<real>, r: real)
    requires Sorted(s) && 0.0 <= r <= |s| as real - 1.0
    ensures s[r.Floor] <= Interpolate(s, r) <= s[Ceil(r)]
  {
    if r.Floor != Ceil(r) {
      Blend(s[r.Floor], s[Ceil(r)], r - r.Floor as real);
    }
  }

  lemma InterpolationMonotone(s: seq<real>, r: real, q: real)
    requires Sorted(s) && 0.0 <= r <= q <= |s| as real - 1.0
    ensures Interpolate(s, r) <= Interpolate(s, q)
  {
    InterpolationBracket(s, r);
    InterpolationBracket(s, q);
    if r.Floor == q.Floor {
      if Ceil(r) == Ceil(q) && r.Floor != Ceil(r) {
        BlendAdvances(s[r.Floor], s[Ceil(r)], r - r.Floor as real, q - q.Floor as real);
      }
    } else {
      assert Ceil(r) <= q.Floor;
    }
  }

  lemma ThresholdBounds(s: seq<real>, c: real)
    requires s != [] && Sorted(s) && Confidence(c)
    ensures Threshold(s, c) <= s[|s| - 1]
    ensures TailStart(s, Threshold(s, c)) < |s|
  {
    ThresholdInterpolates(s, c);
    InterpolationBracket(s, FracRank(|s|, c));
    TailIsSuffix(s, Threshold(s, c));
  }

  // ---------------------------------------------------------------- means of suffixes

  lemma {:induction false} SumAtLeast(s: seq<real>, x: real)
    requires forall i :: 0 <= i < |s| ==> s[i] >= x
    ensures Sum(s) >= |s| as real * x
    ensures s != [] && s[|s| - 1] > x ==> Sum(s) > |s| as real * x
  {
    if s != [] {
      SumAtLeast(s[..|s| - 1], x);
      assert |s| as real * x == (|s| - 1) as real * x + x;
    }
  }

  lemma {:induction false} SumAtMost(s: seq<real>, x: real)
    requires forall i :: 0 <= i < |s| ==> s[i] <= x
    ensures Sum(s) <= |s| as real * x
  {
    if s != [] {
      SumAtMost(s[..|s| - 1], x);
      assert |s| as real * x == (|s| - 1) as real * x + x;
    }
  }

  lemma QuotientBetween(total: real, m: real, x: real)
    requires m > 0.0
    ensures total >= m * x <==> total / m >= x
    ensures total > m * x <==> total / m > x
    ensures total <= m * x <==> total / m <= x
  {
    var q := total / m;
    assert total == m * q;
    if q >= x { assert m * q >= m * x; }
    if q <= x { assert m * q <= m * x; }
    if q > x { assert m * (q - x) > 0.0; }
    if q < x { assert m * (x - q) > 0.0; }
  }

  lemma MeanAtLeast(s: seq<real>, x: real)
    requires s != [] && forall i :: 0 <= i < |s| ==> s[i] >= x
    ensures Mean(s) >= x
    ensures s[|s| - 1] > x ==> Mean(s) > x
  {
    SumAtLeast(s, x);
    QuotientBetween(Sum(s), |s| as real, x);
  }

  /** Prepending a value not above the mean cannot raise the mean, and lowers it if it is below. */
  lemma MeanOfPrepended(x: real, total: real, m: real)
    requires m > 0.0 && total >= m * x
    ensures (x + total) / (m + 1.0) <= total / m
    ensures total > m * x ==> (x + total) / (m + 1.0) < total / m
  {
    var q := total / m;
    assert total == m * q;
    QuotientBetween(total, m, x);
    assert (m + 1.0) * q == total + q;
    QuotientBetween(x + total, m + 1.0, q);
  }

  lemma OneLonger(s: seq<real>, i: nat)
    requires Sorted(s) && i + 1 < |s|
    ensures Mean(s[i..]) <= Mean(s[i + 1..])
    ensures s[i] < s[|s| - 1] ==> Mean(s[i..]) < Mean(s[i + 1..])
  {
    var t := s[i + 1..];
    SumAtLeast(t, s[i]);
    MeanOfPrepended(s[i], Sum(t), |t| as real);
    SumAppend([s[i]], t);
    assert s[i..] == [s[i]] + t;
    assert [s[i]][..0] == [];
    assert Sum([s[i]]) == s[i];
  }

  /** Dropping the smallest values of a sorted sample cannot lower its mean. */
  lemma {:induction false} SuffixMeansRise(s: seq<real>, i: nat, j: nat)
    requires Sorted(s) && i <= j < |s|
    ensures Mean(s[i..]) <= Mean(s[j..])
    decreases j - i
  {
    if i < j {
      SuffixMeansRise(s, i + 1, j);
      OneLonger(s, i);
    }
  }

  lemma {:induction false} SumDominated(a: seq<real>, b: seq<real>)
    requires |a| == |b| && forall i :: 0 <= i < |a| ==> a[i] <= b[i]
    ensures Sum(a) <= Sum(b)
  {
    if a != [] {
      SumDominated(a[..|a| - 1], b[..|b| - 1]);
    }
  }

  lemma MeanDominated(a: seq<real>, b: seq<real>)
    requires a != [] && |a| == |b| && forall i :: 0 <= i < |a| ==> a[i] <= b[i]
    ensures Mean(a) <= Mean(b)
  {
    SumDominated(a, b);
    QuotientBetween(Sum(a), |a| as real, Mean(b));
    assert Sum(b) == |b| as real * Mean(b);
  }

  // ---------------------------------------------------------------- first results

  /** Both numbers depend on the returns as a bag, not on their order. */
  lemma OrderOfReturnsIsIrrelevant(a: seq<real>, b: seq<real>, c: real)
    requires Confidence(c) && multiset(a) == multiset(b)
    ensures HistoricalVar(a, c) == HistoricalVar(b, c)
  {
    assert |a| == |multiset(a)| == |multiset(b)| == |b|;
    LossesAsBag(a, b);
    SortSorts(Losses(a));
    SortSorts(Losses(b));
    SortedIsUnique(Sort(Losses(a)), Sort(Losses(b)));
  }

  lemma {:induction false} LossesAsBag(a: seq<real>, b: seq<real>)
    requires multiset(a) == multiset(b)
    ensures multiset(Losses(a)) == multiset(Losses(b))
  {
    forall x ensures multiset(Losses(a))[x] == multiset(Losses(b))[x] {
      LossMultiplicity(a, x);
      LossMultiplicity(b, x);
    }
  }

  lemma {:induction false} LossMultiplicity(a: seq<real>, x: real)
    ensures multiset(Losses(a))[x] == multiset(a)[-x]
  {
    if a != [] {
      var n := |a| - 1;
      LossMultiplicity(a[..n], x);
      assert a == a[..n] + [a[n]];
      assert Losses(a) == Losses(a[..n]) + [-a[n]];
    }
  }

  function SortedLosses(history: seq<real>): (s: seq<real>)
    ensures |s| == |history|
  {
    Sort(Losses(history))
  }

  /** The mean loss from the tail's first index on. */
  function TailMean(s: seq<real>, c: real): real
    requires s != [] && Sorted(s) && Confidence(c)
  {
    ThresholdBounds(s, c);
    Mean(s[TailStart(s, Threshold(s, c))..])
  }

  lemma Anatomy(history: seq<real>, c: real)
    requires history != [] && Confidence(c)
    ensures var s := SortedLosses(history);
      && Sorted(s)
      && HistoricalVar(history, c) == Risk(Max(Threshold(s, c), 0.0), Max(TailMean(s, c), 0.0))
  {
    var s := SortedLosses(history);
    SortSorts(Losses(history));
    TailIsSuffix(s, Threshold(s, c));
    ThresholdBounds(s, c);
  }

  lemma TailMeanAtLeastThreshold(s: seq<real>, c: real)
    requires s != [] && Sorted(s) && Confidence(c)
    ensures Threshold(s, c) <= TailMean(s, c)
  {
    var v := Threshold(s, c);
    TailIsSuffix(s, v);
    ThresholdBounds(s, c);
    MeanAtLeast(s[TailStart(s, v)..], v);
  }

  /** 0 <= VaR <= CVaR. */
  lemma TailMeanCoversThreshold(history: seq<real>, c: real)
    requires Confidence(c)
    ensures var r := HistoricalVar(history, c); 0.0 <= r.valueAtRisk <= r.conditional
  {
    if history != [] {
      Anatomy(history, c);
      TailMeanAtLeastThreshold(SortedLosses(history), c);
    }
  }

  lemma FracRankMonotone(n: nat, c: real, d: real)
    requires n >= 1 && Confidence(c) && Confidence(d) && c <= d
    ensures FracRank(n, c) <= FracRank(n, d)
  {
    Mul(n as real - 1.0, c, d);
  }

  lemma {:induction false} TailStartMonotone(s: seq<real>, v: real, w: real)
    requires v <= w
    ensures TailStart(s, v) <= TailStart(s, w)
  {
    if s != [] {
      TailStartMonotone(s[1..], v, w);
    }
  }

  lemma SortedRiskRises(s: seq<real>, c: real, d: real)
    requires s != [] && Sorted(s) && Confidence(c) && Confidence(d) && c <= d
    ensures Threshold(s, c) <= Threshold(s, d)
    ensures TailMean(s, c) <= TailMean(s, d)
  {
    ThresholdInterpolates(s, c);
    ThresholdInterpolates(s, d);
    FracRankMonotone(|s|, c, d);
    InterpolationMonotone(s, FracRank(|s|, c), FracRank(|s|, d));
    var v, w := Threshold(s, c), Threshold(s, d);
    TailStartMonotone(s, v, w);
    ThresholdBounds(s, d);
    SuffixMeansRise(s, TailStart(s, v), TailStart(s, w));
  }

  /** Asking for more confidence never reports less risk, in either number. */
  lemma RiskRisesWithConfidence(history: seq<real>, c: real, d: real)
    requires Confidence(c) && Confidence(d) && c <= d
    ensures HistoricalVar(history, c).valueAtRisk <= HistoricalVar(history, d).valueAtRisk
    ensures HistoricalVar(history, c).conditional <= HistoricalVar(history, d).conditional
  {
    if history != [] {
      Anatomy(history, c);
      Anatomy(history, d);
      SortedRiskRises(SortedLosses(history), c, d);
    }
  }

  // ---------------------------------------------------------------- scaling to the horizon

  lemma ScaledComparison(k: real, x: real, y: real)
    requires k > 0.0
    ensures Times(k, x) <= Times(k, y) <==> x <= y
    ensures Max(Times(k, x), 0.0) == Times(k, Max(x, 0.0))
  {
    if x > y {
      assert k * (x - y) > 0.0;
    }
    if x > 0.0 {
      assert k * x > 0.0;
    }
  }

  lemma ScaleSlice(k: real, xs: seq<real>, n: nat)
    requires n <= |xs|
    ensures Scale(k, xs[..n]) == Scale(k, xs)[..n]
    ensures Scale(k, xs[n..]) == Scale(k, xs)[n..]
  {
  }

  lemma ScaleSnoc(k: real, xs: seq<real>, x: real)
    ensures Scale(k, xs + [x]) == Scale(k, xs) + [Times(k, x)]
  {
  }

  lemma {:induction false} ScaleInsert(k: real, x: real, s: seq<real>)
    requires k > 0.0
    ensures Scale(k, Insert(x, s)) == Insert(Times(k, x), Scale(k, s))
  {
    if s == [] {
      ScaleSnoc(k, s, x);
    } else {
      var n := |s| - 1;
      ScaledComparison(k, s[n], x);
      ScaleSlice(k, s, n);
      if s[n] <= x {
        ScaleSnoc(k, s, x);
      } else {
        ScaleInsert(k, x, s[..n]);
        ScaleSnoc(k, Insert(x, s[..n]), s[n]);
      }
    }
  }

  lemma {:induction false} ScaleSort(k: real, xs: seq<real>)
    requires k > 0.0
    ensures Sort(Scale(k, xs)) == Scale(k, Sort(xs))
  {
    if xs != [] {
      var n := |xs| - 1;
      ScaleSort(k, xs[..n]);
      ScaleInsert(k, xs[n], Sort(xs[..n]));
      ScaleSlice(k, xs, n);
    }
  }

  lemma {:induction false} ScaleSum(k: real, xs: seq<real>)
    ensures Sum(Scale(k, xs)) == Times(k, Sum(xs))
  {
    if xs != [] {
      var n := |xs| - 1;
      ScaleSum(k, xs[..n]);
      ScaleSlice(k, xs, n);
      assert Times(k, Sum(xs[..n]) + xs[n]) == Times(k, Sum(xs[..n])) + Times(k, xs[n]);
    }
  }

  lemma ScaleMean(k: real, xs: seq<real>)
    requires xs != []
    ensures Mean(Scale(k, xs)) == Times(k, Mean(xs))
  {
    ScaleSum(k, xs);
    QuotientScales(k, Sum(xs), |xs| as real);
  }

  lemma QuotientScales(k: real, total: real, m: real)
    requires m > 0.0
    ensures Times(k, total) / m == Times(k, total / m)
  {
    var q := total / m;
    assert total == q * m;
    assert k * total == k * q * m;
  }

  lemma {:induction false} ScaleTailStart(k: real, s: seq<real>, v: real)
    requires k > 0.0
    ensures TailStart(Scale(k, s), Times(k, v)) == TailStart(s, v)
  {
    if s != [] {
      ScaledComparison(k, v, s[0]);
      ScaleTailStart(k, s[1..], v);
      ScaleSlice(k, s, 1);
    }
  }

  lemma ScaleThreshold(k: real, s: seq<real>, c: real)
    requires k > 0.0 && s != [] && Confidence(c)
    ensures Threshold(Scale(k, s), c) == Times(k, Threshold(s, c))
  {
    ThresholdInterpolates(s, c);
    ThresholdInterpolates(Scale(k, s), c);
    var r := FracRank(|s|, c);
    ScaleBlend(k, s[r.Floor], s[Ceil(r)], r - r.Floor as real);
  }

  lemma ScaleBlend(k: real, x: real, y: real, f: real)
    ensures Times(k, x) * (1.0 - f) + Times(k, y) * f == Times(k, x * (1.0 - f) + y * f)
  {
  }

  lemma ScaleTailMean(k: real, s: seq<real>, c: real)
    requires k > 0.0 && s != [] && Sorted(s) && Sorted(Scale(k, s)) && Confidence(c)
    ensures TailMean(Scale(k, s), c) == Times(k, TailMean(s, c))
  {
    ScaleThreshold(k, s, c);
    ScaleTailStart(k, s, Threshold(s, c));
    ThresholdBounds(s, c);
    var t := TailStart(s, Threshold(s, c));
    ScaleSlice(k, s, t);
    ScaleMean(k, s[t..]);
  }

  lemma ScaledLosses(k: real, history: seq<real>)
    requires k > 0.0
    ensures SortedLosses(Scale(k, history)) == Scale(k, SortedLosses(history))
  {
    forall i | 0 <= i < |history| ensures Losses(Scale(k, history))[i] == Scale(k, Losses(history))[i] {
      assert Times(k, -history[i]) == -Times(k, history[i]);
    }
    assert Losses(Scale(k, history)) == Scale(k, Losses(history));
    ScaleSort(k, Losses(history));
  }

  /**
   Multiplying every return by a positive factor multiplies both numbers by it. Hence the
   square-root-of-time scaling may be applied before the estimate, as the source does, or after.
   */
  lemma RiskScales(history: seq<real>, k: real, c: real)
    requires k > 0.0 && Confidence(c)
    ensures var r := HistoricalVar(history, c);
      HistoricalVar(Scale(k, history), c) == Risk(Times(k, r.valueAtRisk), Times(k, r.conditional))
  {
    if history != [] {
      var s := SortedLosses(history);
      Anatomy(history, c);
      Anatomy(Scale(k, history), c);
      ScaledLosses(k, history);
      ScaleThreshold(k, s, c);
      ScaleTailMean(k, s, c);
      ScaledComparison(k, Threshold(s, c), 0.0);
      ScaledComparison(k, TailMean(s, c), 0.0);
    } else {
      assert Times(k, 0.0) == 0.0;
    }
  }

  // ---------------------------------------------------------------- worse returns

  ghost predicate Below(a: seq<real>, b: seq<real>) {
    |a| == |b| && forall i :: 0 <= i < |a| ==> a[i] <= b[i]
  }

  /** `worse` has, rank by rank, at least the losses of `better`. */
  ghost predicate AtLeastAsBad(better: seq<real>, worse: seq<real>) {
    Below(SortedLosses(better), SortedLosses(worse))
  }

  lemma InsertMonotone(x: real, y: real, s: seq<real>, t: seq<real>)
    requires Sorted(s) && Sorted(t) && Below(s, t) && x <= y
    ensures Below(Insert(x, s), Insert(y, t))
  {
    InsertPlaces(x, s);
    InsertPlaces(y, t);
    forall k | 0 <= k <= |s| ensures Insert(x, s)[k] <= Insert(y, t)[k] {
      assert Inserted(x, s, k) <= Inserted(y, t, k) by {
        assert k > 0 ==> s[k - 1] <= t[k - 1];
        assert k < |s| ==> s[k] <= t[k];
        assert 0 < k < |s| ==> t[k - 1] <= t[k] && s[k - 1] <= s[k];
      }
    }
  }

  lemma {:induction false} SortMonotone(a: seq<real>, b: seq<real>)
    requires Below(a, b)
    ensures Below(Sort(a), Sort(b))
  {
    if a != [] {
      var n := |a| - 1;
      SortMonotone(a[..n], b[..n]);
      SortSorts(a[..n]);
      SortSorts(b[..n]);
      InsertMonotone(a[n], b[n], Sort(a[..n]), Sort(b[..n]));
    }
  }

  /** Lowering returns one by one, in place, makes the sample at least as bad. */
  lemma PointwiseWorseIsWorse(better: seq<real>, worse: seq<real>)
    requires Below(worse, better)
    ensures AtLeastAsBad(better, worse)
  {
    SortMonotone(Losses(better), Losses(worse));
  }

  lemma ThresholdMonotone(a: seq<real>, b: seq<real>, c: real)
    requires a != [] && Below(a, b) && Confidence(c)
    ensures Threshold(a, c) <= Threshold(b, c)
  {
    ThresholdInterpolates(a, c);
    ThresholdInterpolates(b, c);
    var r := FracRank(|a|, c);
    if r.Floor != Ceil(r) {
      BlendMonotone(a[r.Floor], a[Ceil(r)], b[r.Floor], b[Ceil(r)], r - r.Floor as real);
    }
  }

  /** VaR never falls when the returns get worse. */
  lemma VarRisesWithLosses(better: seq<real>, worse: seq<real>, c: real)
    requires Confidence(c) && AtLeastAsBad(better, worse)
    ensures HistoricalVar(better, c).valueAtRisk <= HistoricalVar(worse, c).valueAtRisk
  {
    if better != [] {
      Anatomy(better, c);
      Anatomy(worse, c);
      ThresholdMonotone(SortedLosses(better), SortedLosses(worse), c);
    }
  }

  /** The first index that is in the tail whatever the losses are. */
  function TailCertain(n: nat, c: real): (h: nat)
    requires n >= 1 && Confidence(c)
    ensures h < n
  {
    Ceil(FracRank(n, c))
  }

  lemma TailStartsByCertain(s: seq<real>, c: real)
    requires s != [] && Sorted(s) && Confidence(c)
    ensures TailStart(s, Threshold(s, c)) <= TailCertain(|s|, c)
  {
    ThresholdInterpolates(s, c);
    InterpolationBracket(s, FracRank(|s|, c));
    TailIsSuffix(s, Threshold(s, c));
  }

  /**
   What a sorted sample must look like for no better sample to have a larger tail mean: no tie pulls
   extra losses into the tail, or the tail is flat, or its certain part is no loss at all.
   */
  predicate TieFree(s: seq<real>, c: real)
    requires s != [] && Confidence(c)
  {
    var h := TailCertain(|s|, c);
    h == 0 || s[h - 1] < Threshold(s, c)
  }

  predicate TailIsFlat(s: seq<real>, c: real)
    requires s != [] && Confidence(c)
  {
    s[|s| - 1] == Threshold(s, c)
  }

  predicate CertainTailHarmless(s: seq<real>, c: real)
    requires s != [] && Confidence(c)
  {
    Mean(s[TailCertain(|s|, c)..]) <= 0.0
  }

  lemma TailMeanMonotone(a: seq<real>, b: seq<real>, c: real)
    requires a != [] && Sorted(a) && Sorted(b) && Below(a, b) && Confidence(c)
    requires TieFree(b, c) || TailIsFlat(b, c) || CertainTailHarmless(b, c)
    ensures Max(TailMean(a, c), 0.0) <= Max(TailMean(b, c), 0.0)
  {
    TailMeanBelowCertain(a, b, c);
    if TieFree(b, c) {
      TailMeanAt(b, c, TailCertain(|b|, c));
    } else if TailIsFlat(b, c) {
      TailMeanAtLeastThreshold(b, c);
      MeanAtMost(b[TailCertain(|b|, c)..], b[|b| - 1]);
    }
  }

  /** The tail mean is the mean from index k on when k is where the losses reach the threshold. */
  lemma TailMeanAt(s: seq<real>, c: real, k: nat)
    requires s != [] && Sorted(s) && Confidence(c) && k < |s|
    requires k == 0 || s[k - 1] < Threshold(s, c)
    requires s[k] >= Threshold(s, c) || k == TailCertain(|s|, c)
    ensures TailMean(s, c) == Mean(s[k..])
  {
    TailIsSuffix(s, Threshold(s, c));
    TailStartsByCertain(s, c);
    assert TailStart(s, Threshold(s, c)) == k;
  }

  lemma TailMeanBelowCertain(a: seq<real>, b: seq<real>, c: real)
    requires a != [] && Sorted(a) && Below(a, b) && Confidence(c)
    ensures TailMean(a, c) <= Mean(b[TailCertain(|b|, c)..])
  {
    var h := TailCertain(|a|, c);
    TailStartsByCertain(a, c);
    SuffixMeansRise(a, TailStart(a, Threshold(a, c)), h);
    MeanDominated(a[h..], b[h..]);
  }

  lemma MeanAtMost(s: seq<real>, x: real)
    requires s != [] && forall i :: 0 <= i < |s| ==> s[i] <= x
    ensures Mean(s) <= x
  {
    SumAtMost(s, x);
    QuotientBetween(Sum(s), |s| as real, x);
  }

  /** The sample with everything below the certain tail pushed strictly under the threshold. */
  function Untied(s: seq<real>, c: real): (u: seq<real>)
    requires s != [] && Confidence(c)
    ensures |u| == |s|
  {
    var h, v := TailCertain(|s|, c), Threshold(s, c);
    seq(|s|, k requires 0 <= k < |s| => if k < h then Min(s[k], v - 1.0) else s[k])
  }

  lemma TieTouchesThreshold(s: seq<real>, c: real)
    requires s != [] && Sorted(s) && Confidence(c) && !TieFree(s, c)
    ensures var h, v := TailCertain(|s|, c), Threshold(s, c); s[h - 1] == v && s[h] == v
  {
    ThresholdInterpolates(s, c);
    var r := FracRank(|s|, c);
    var h := Ceil(r);
    assert s[h - 1] >= Interpolate(s, r);
    InterpolationBracket(s, r);
    assert s[h - 1] <= s[h];
    if r.Floor != h {
      var f := r - r.Floor as real;
      assert r.Floor == h - 1 && f > 0.0;
      assert Interpolate(s, r) == s[h - 1] * (1.0 - f) + s[h] * f;
      Blend(s[h - 1], s[h], f);
    } else {
      assert Interpolate(s, r) == s[h];
    }
  }

  lemma UntiedOrder(s: seq<real>, c: real)
    requires s != [] && Sorted(s) && Confidence(c)
    ensures Sorted(Untied(s, c)) && Below(Untied(s, c), s)
  {
  }

  lemma UntiedThreshold(s: seq<real>, c: real)
    requires s != [] && Sorted(s) && Confidence(c) && !TieFree(s, c)
    ensures Threshold(s, c) - 1.0 < Threshold(Untied(s, c), c) <= Threshold(s, c)
  {
    var h, u := TailCertain(|s|, c), Untied(s, c);
    TieTouchesThreshold(s, c);
    UntiedOrder(s, c);
    var r := FracRank(|s|, c);
    ThresholdInterpolates(u, c);
    InterpolationBracket(u, r);
    if r.Floor != h {
      Blend(u[h - 1], u[h], r - r.Floor as real);
    }
  }

  lemma UntiedTail(s: seq<real>, c: real)
    requires s != [] && Sorted(s) && Confidence(c) && !TieFree(s, c)
    ensures Sorted(Untied(s, c)) && Below(Untied(s, c), s)
    ensures TailMean(Untied(s, c), c) == Mean(s[TailCertain(|s|, c)..])
  {
    var h, u := TailCertain(|s|, c), Untied(s, c);
    UntiedOrder(s, c);
    UntiedThreshold(s, c);
    TieTouchesThreshold(s, c);
    TailMeanAt(u, c, h);
    assert u[h..] == s[h..];
  }

  lemma TiedTailMeanIsDiluted(s: seq<real>, c: real)
    requires s != [] && Sorted(s) && Confidence(c) && !TieFree(s, c) && !TailIsFlat(s, c)
    ensures TailMean(s, c) < Mean(s[TailCertain(|s|, c)..])
  {
    var h, v := TailCertain(|s|, c), Threshold(s, c);
    TieTouchesThreshold(s, c);
    ThresholdBounds(s, c);
    TailIsSuffix(s, v);
    SuffixMeansRise(s, TailStart(s, v), h - 1);
    OneLonger(s, h - 1);
  }

  /** On a sample outside the three cases the tail mean falls although every loss rose. */
  lemma UntiedHasLargerTailMean(s: seq<real>, c: real)
    requires s != [] && Sorted(s) && Confidence(c)
    requires !TieFree(s, c) && !TailIsFlat(s, c) && !CertainTailHarmless(s, c)
    ensures Sorted(Untied(s, c)) && Max(TailMean(Untied(s, c), c), 0.0) > Max(TailMean(s, c), 0.0)
  {
    UntiedTail(s, c);
    TiedTailMeanIsDiluted(s, c);
  }

  lemma LossesTwice(s: seq<real>)
    ensures Losses(Losses(s)) == s
  {
  }

  /** The mirror image of a list of losses as returns. */
  lemma LossesOfNegated(s: seq<real>)
    requires Sorted(s)
    ensures SortedLosses(Losses(s)) == s
  {
    LossesTwice(s);
    SortOfSorted(s);
  }

  ghost predicate NoBetterSampleShowsMore(worse: seq<real>, c: real)
    requires Confidence(c)
  {
    forall better: seq<real> :: AtLeastAsBad(better, worse) ==>
      HistoricalVar(better, c).conditional <= HistoricalVar(worse, c).conditional
  }

  /**
   CVaR is not monotone in the losses. For a given sample it is at least that of every better sample
   exactly when one of the three checks on the sorted losses holds.
   */
  lemma CvarMonotoneExactlyWithoutTies(worse: seq<real>, c: real)
    requires worse != [] && Confidence(c)
    ensures var s := SortedLosses(worse);
      NoBetterSampleShowsMore(worse, c) <==> TieFree(s, c) || TailIsFlat(s, c) || CertainTailHarmless(s, c)
  {
    var s := SortedLosses(worse);
    Anatomy(worse, c);
    if TieFree(s, c) || TailIsFlat(s, c) || CertainTailHarmless(s, c) {
      forall better: seq<real> | AtLeastAsBad(better, worse)
        ensures HistoricalVar(better, c).conditional <= HistoricalVar(worse, c).conditional
      {
        Anatomy(better, c);
        TailMeanMonotone(SortedLosses(better), s, c);
      }
    } else {
      var better := Losses(Untied(s, c));
      UntiedTail(s, c);
      LossesOfNegated(Untied(s, c));
      UntiedHasLargerTailMean(s, c);
      Anatomy(better, c);
      assert AtLeastAsBad(better, worse);
    }
  }

  /** The failure in the small: one loss rises from 0 to 1, ties with the median, and CVaR drops. */
  lemma CvarFallsWhenALossRises()
    ensures AtLeastAsBad([0.0, -1.0, -3.0], [-1.0, -1.0, -3.0])
    ensures HistoricalVar([0.0, -1.0, -3.0], 0.5).conditional == 2.0
    ensures HistoricalVar([-1.0, -1.0, -3.0], 0.5).conditional == 5.0 / 3.0
  {
    var better, worse := [0.0, -1.0, -3.0], [-1.0, -1.0, -3.0];
    PointwiseWorseIsWorse(better, worse);
    MedianCvar(better);
    MedianCvar(worse);
  }

  /** CVaR at one half of three losses in ascending order. */
  lemma MedianCvar(history: seq<real>)
    requires |history| == 3 && history[0] >= history[1] > history[2] && history[2] <= 0.0
    ensures HistoricalVar(history, 0.5).conditional == Max(0.0,
      if history[0] == history[1] then -(history[0] + history[1] + history[2]) / 3.0
      else -(history[1] + history[2]) / 2.0)
  {
    SortOfSorted(Losses(history));
    Anatomy(history, 0.5);
    MedianTailMean(Losses(history));
  }

  lemma MedianThreshold(s: seq<real>)
    requires |s| == 3
    ensures Threshold(s, 0.5) == s[1]
  {
    ThresholdInterpolates(s, 0.5);
    assert FracRank(3, 0.5) == 1.0;
  }

  lemma MedianTailMean(s: seq<real>)
    requires |s| == 3 && Sorted(s) && s[1] < s[2]
    ensures TailMean(s, 0.5) == if s[0] == s[1] then (s[0] + s[1] + s[2]) / 3.0 else (s[1] + s[2]) / 2.0
  {
    MedianThreshold(s);
    if s[0] == s[1] {
      TailMeanAt(s, 0.5, 0);
      SumOfThree(s);
      assert s[0..] == s;
    } else {
      TailMeanAt(s, 0.5, 1);
      SumOfTwo(s[1..]);
    }
  }

  lemma SumOfTwo(s: seq<real>)
    requires |s| == 2
    ensures Sum(s) == s[0] + s[1]
  {
    assert s[..1][..0] == [];
    assert Sum(s[..1]) == s[0];
  }

  lemma SumOfThree(s: seq<real>)
    requires |s| == 3
    ensures Sum(s) == s[0] + s[1] + s[2]
  {
    SumOfTwo(s[..2]);
  }

  // ---------------------------------------------------------------- the rolling engine

  const MIN_SAMPLES := 30

  datatype Method = Historical | MonteCarlo

  datatype Estimate = Estimate(risk: Risk, confidence: real, kind: Method, samples: nat)

  function LastN<T>(xs: seq<T>, n: nat): (ys: seq<T>)
    ensures |ys| == if |xs| <= n then |xs| else n
  {
    if |xs| <= n then xs else xs[|xs| - n..]
  }

  /**
   The bounded buffer of returns. `scale` is the square root of the horizon in steps, of which only the sign
   matters; the Monte-Carlo draw of a thin buffer is a parameter.
   */
  class HistoricalSimulationVaR {
    const window: nat
    const scale: real
    const confidence: real
    var buffer: seq<real>

    ghost predicate Valid()
      reads this
    {
      scale > 0.0 && Confidence(confidence) && |buffer| <= window
    }

    constructor (window: nat, scale: real, confidence: real)
      requires scale > 0.0 && Confidence(confidence)
      ensures Valid() && buffer == []
      ensures this.window == window && this.scale == scale && this.confidence == confidence
    {
      this.window, this.scale, this.confidence := window, scale, confidence;
      buffer := [];
    }

    method Update(ret: Option<real>)
      requires Valid()
      modifies this`buffer
      ensures Valid()
      ensures buffer == if ret.Some? then LastN(old(buffer) + [ret.value], window) else old(buffer)
    {
      if ret.Some? {
        buffer := buffer + [ret.value];
        if |buffer| > window {
          buffer := buffer[1..];
        }
      }
    }

    method EstimateRisk(monteCarlo: Risk) returns (e: Estimate)
      requires Valid()
      ensures e == EstimateOf(buffer, scale, confidence, monteCarlo)
    {
      if |buffer| >= MIN_SAMPLES {
        RiskScales(buffer, scale, confidence);
        e := Estimate(HistoricalVar(Scale(scale, buffer), confidence), confidence, Historical, |buffer|);
      } else {
        e := Estimate(monteCarlo, confidence, MonteCarlo, |buffer|);
      }
    }
  }

  /** The estimate of a buffer: its unscaled risk times the horizon factor once it is thick enough. */
  function EstimateOf(buffer: seq<real>, scale: real, c: real, monteCarlo: Risk): Estimate
    requires Confidence(c)
  {
    var r := HistoricalVar(buffer, c);
    if |buffer| >= MIN_SAMPLES
    then Estimate(Risk(Times(scale, r.valueAtRisk), Times(scale, r.conditional)), c, Historical, |buffer|)
    else Estimate(monteCarlo, c, MonteCarlo, |buffer|)
  }
}
