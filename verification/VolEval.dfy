/**
 The out-of-sample fit of KHKT_Evaluation/common/vol_eval.py: labels from the future, a baseline and a macro
 regressor from the past, a purge at the train boundary and a search over lags.

 Logarithm, square root and the world model are arbitrary functions; None is a missing value (NaN).
 */
module VolEval {
  import opened Basics
  import Metrics
  import opened Multipliers

  datatype Row = Row(price: Option<real>, signals: Macro)

  datatype Env = Env(log: real -> real, sqrt: real -> real, multiplier: Macro -> Option<real>)

  datatype Config = Config(
    window: int, horizon: int, sampleEvery: int, trainFrac: real, lags: seq<int>,
    fixedBeta: Option<real>, fixedLag: Option<int>, fitOnFull: bool)

  // ---------------------------------------------------------------- columns

  function ReturnAt(prices: seq<Option<real>>, log: real -> real, i: nat): Option<real>
    requires i < |prices|
  {
    if i == 0 || prices[i - 1].None? || prices[i].None? then None
    else
      var previous, current := prices[i - 1].value, prices[i].value;
      if previous <= 0.0 || current <= 0.0 then None else Some(log(current / previous))
  }

  function LogReturns(prices: seq<Option<real>>, log: real -> real): (r: seq<Option<real>>)
    ensures |r| == |prices|
  {
    seq(|prices|, i requires 0 <= i < |prices| => ReturnAt(prices, log, i))
  }

  function Finite(xs: seq<Option<real>>): (f: seq<real>)
    ensures |f| <= |xs|
  {
    if xs == [] then []
    else Finite(xs[..|xs| - 1]) + if xs[|xs| - 1].Some? then [xs[|xs| - 1].value] else []
  }

  /** The spread of the finite returns of a segment, when at least two and half the horizon are finite. */
  function SpreadOf(segment: seq<Option<real>>, horizon: int, sqrt: real -> real): Option<real> {
    var finite := Finite(segment);
    if |finite| >= MaxInt(2, horizon / 2) then Some(sqrt(Metrics.Variance(finite))) else None
  }

  /** The volatility label of row t: the spread of the returns t + 1 to t + horizon. */
  function ForwardVolAt(r: seq<Option<real>>, horizon: int, sqrt: real -> real, t: nat): Option<real>
    requires t < |r|
  {
    if horizon < 2 || t >= |r| - horizon then None
    else SpreadOf(r[t + 1..t + 1 + horizon], horizon, sqrt)
  }

  function ForwardVol(r: seq<Option<real>>, horizon: int, sqrt: real -> real): (v: seq<Option<real>>)
    ensures |v| == |r|
  {
    seq(|r|, t requires 0 <= t < |r| => ForwardVolAt(r, horizon, sqrt, t))
  }

  function Root(v: Option<real>, sqrt: real -> real): Option<real> {
    if v.None? then None else Some(sqrt(v.value))
  }

  /** The baseline: the spread of the latest returns, missing ones read as zero. */
  function HistVol(r: seq<Option<real>>, window: int, sqrt: real -> real): (v: seq<Option<real>>)
    ensures |v| == |r|
  {
    var variances := Metrics.RollingVariances(Metrics.ZeroFill(r), window);
    seq(|r|, t requires 0 <= t < |r| => Root(variances[t], sqrt))
  }

  /** The body of the label loop. */
  method SegmentVol(r: seq<Option<real>>, horizon: int, sqrt: real -> real, t: nat) returns (v: Option<real>)
    requires horizon >= 2 && t < |r| - horizon
    ensures v == ForwardVol(r, horizon, sqrt)[t]
  {
    v := None;
    var finite := Finite(r[t + 1..t + 1 + horizon]);
    if |finite| >= MaxInt(2, horizon / 2) {
      v := Some(sqrt(Metrics.Variance(finite)));
    }
  }

  method ForwardRealizedVol(r: seq<Option<real>>, horizon: int, sqrt: real -> real) returns (out: array<Option<real>>)
    ensures fresh(out) && out[..] == ForwardVol(r, horizon, sqrt)
  {
    out := new Option<real>[|r|](_ => None);
    ghost var want := ForwardVol(r, horizon, sqrt);
    if horizon < 2 || |r| < horizon {
      return;
    }
    for t := 0 to |r| - horizon
      invariant forall k :: 0 <= k < |r| ==> out[k] == if k < t then want[k] else None
      modifies out
    {
      var v := SegmentVol(r, horizon, sqrt, t);
      out[t] := v;
    }
  }

  method HistoricalVol(r: seq<Option<real>>, window: int, sqrt: real -> real) returns (v: seq<Option<real>>)
    ensures v == HistVol(r, window, sqrt)
  {
    var variances := Metrics.RealizedVariance(r, window);
    var vs := variances[..];
    v := seq(|r|, t requires 0 <= t < |r| => Root(vs[t], sqrt));
  }

  lemma {:induction false} FiniteWithoutGaps(xs: seq<Option<real>>)
    requires forall i :: 0 <= i < |xs| ==> xs[i].Some?
    ensures Finite(xs) == Metrics.ZeroFill(xs)
  {
    if xs != [] {
      FiniteWithoutGaps(xs[..|xs| - 1]);
      assert Metrics.ZeroFill(xs)[..|xs| - 1] == Metrics.ZeroFill(xs[..|xs| - 1]);
    }
  }

  lemma SpreadWithoutGaps(segment: seq<Option<real>>, horizon: int, sqrt: real -> real)
    requires |segment| == horizon && horizon >= 2
    requires forall i :: 0 <= i < |segment| ==> segment[i].Some?
    ensures SpreadOf(segment, horizon, sqrt) == Some(sqrt(Metrics.Variance(Metrics.ZeroFill(segment))))
  {
    FiniteWithoutGaps(segment);
  }

  lemma BaselineOfSegment(r: seq<Option<real>>, window: int, sqrt: real -> real, t: nat, segment: seq<Option<real>>)
    requires window >= 2 && window - 1 <= t < |r| && segment == r[t + 1 - window..t + 1]
    ensures HistVol(r, window, sqrt)[t] == Some(sqrt(Metrics.Variance(Metrics.ZeroFill(segment))))
  {
    assert Metrics.Window(Metrics.ZeroFill(r), t, window) == Metrics.ZeroFill(segment);
  }

  lemma LabelOfSegment(r: seq<Option<real>>, horizon: int, sqrt: real -> real, t: nat, segment: seq<Option<real>>)
    requires horizon >= 2 && t < |r| - horizon && segment == r[t + 1..t + 1 + horizon]
    requires forall k :: 0 <= k < |segment| ==> segment[k].Some?
    ensures ForwardVol(r, horizon, sqrt)[t] == Some(sqrt(Metrics.Variance(Metrics.ZeroFill(segment))))
  {
    SpreadWithoutGaps(segment, horizon, sqrt);
    assert ForwardVol(r, horizon, sqrt)[t] == SpreadOf(segment, horizon, sqrt);
  }

  lemma SegmentWithoutGaps(r: seq<Option<real>>, lo: nat, horizon: nat) returns (segment: seq<Option<real>>)
    requires lo + horizon <= |r| && forall i :: lo <= i < lo + horizon ==> r[i].Some?
    ensures segment == r[lo..lo + horizon] && forall k :: 0 <= k < |segment| ==> segment[k].Some?
  {
    segment := r[lo..lo + horizon];
    forall k | 0 <= k < |segment| ensures segment[k].Some? {
      assert segment[k] == r[lo + k];
    }
  }

  lemma LabelIsBaseline(r: seq<Option<real>>, horizon: int, sqrt: real -> real, t: nat, segment: seq<Option<real>>)
    requires horizon >= 2 && t < |r| - horizon && segment == r[t + 1..t + 1 + horizon]
    requires forall k :: 0 <= k < |segment| ==> segment[k].Some?
    ensures ForwardVol(r, horizon, sqrt)[t] == HistVol(r, horizon, sqrt)[t + horizon]
  {
    LabelOfSegment(r, horizon, sqrt, t, segment);
    BaselineOfSegment(r, horizon, sqrt, t + horizon, segment);
  }

  /** Over a stretch without gaps the label of row t is the baseline of row t + horizon. */
  lemma ForwardIsShiftedBackward(r: seq<Option<real>>, horizon: int, sqrt: real -> real, t: nat)
    requires t < |r| - horizon && horizon >= 2
    requires forall i :: t < i <= t + horizon ==> r[i].Some?
    ensures ForwardVol(r, horizon, sqrt)[t] == HistVol(r, horizon, sqrt)[t + horizon]
  {
    var segment := SegmentWithoutGaps(r, t + 1, horizon);
    LabelIsBaseline(r, horizon, sqrt, t, segment);
  }

  function LagSeries(x: seq<Option<real>>, lag: int): (y: seq<Option<real>>)
    ensures |y| == |x|
  {
    if lag <= 0 then x else seq(|x|, t requires 0 <= t < |x| => if t < lag then None else x[t - lag])
  }

  // ---------------------------------------------------------------- the split

  function TrainCount(n: nat, frac: real): (k: int)
    ensures k >= 8
  {
    MaxInt(8, MinInt(n - 8, RoundHalfEven(n as real * frac)))
  }

  /** Train rows after the purge of those whose label window crosses the split. */
  predicate InTrain(n: nat, c: Config, t: nat) {
    var split := TrainCount(n, c.trainFrac);
    t < split && t < MaxInt(0, split - c.horizon)
  }

  predicate InSearch(n: nat, c: Config, t: nat) {
    c.fitOnFull || InTrain(n, c, t)
  }

  lemma PurgedLabelsEndInTrain(n: nat, c: Config, t: nat)
    requires InTrain(n, c, t)
    ensures t + c.horizon < TrainCount(n, c.trainFrac)
  {
  }

  /** What the fit sees: labels, baseline, multipliers and the rows to use. */
  datatype Data = Data(target: seq<Option<real>>, base: seq<Option<real>>, mult: seq<Option<real>>, keep: seq<bool>)
  {
    predicate Valid() {
      |target| == |base| == |mult| == |keep|
    }
  }

  function Prices(rows: seq<Row>): (p: seq<Option<real>>)
    ensures |p| == |rows| && forall i :: 0 <= i < |rows| ==> p[i] == rows[i].price
  {
    seq(|rows|, i requires 0 <= i < |rows| => rows[i].price)
  }

  function Signals(rows: seq<Row>): (m: seq<Macro>)
    ensures |m| == |rows| && forall i :: 0 <= i < |rows| ==> m[i] == rows[i].signals
  {
    seq(|rows|, i requires 0 <= i < |rows| => rows[i].signals)
  }

  function SearchMask(n: nat, c: Config): (keep: seq<bool>)
    ensures |keep| == n && forall t :: 0 <= t < n ==> keep[t] == InSearch(n, c, t)
  {
    seq(n, t requires 0 <= t < n => InSearch(n, c, t))
  }

  function DataOf(rows: seq<Row>, e: Env, c: Config): (d: Data)
    ensures d.Valid() && |d.keep| == |rows|
  {
    var r := LogReturns(Prices(rows), e.log);
    Data(ForwardVol(r, c.horizon, e.sqrt), HistVol(r, c.window, e.sqrt),
         HeldMultipliers(Signals(rows), c.sampleEvery, e.multiplier), SearchMask(|rows|, c))
  }

  // ---------------------------------------------------------------- the fit

  /** One training point: regressor, label and baseline. */
  datatype Point = Point(x: real, target: real, base: real)
  {
    function Residual(): real {
      target - base
    }

    function XX(): (s: real)
      ensures s >= 0.0
    {
      x * x
    }

    function XY(): real {
      x * Residual()
    }

    function YY(): real {
      Residual() * Residual()
    }
  }

  function Sample(x: seq<Option<real>>, target: seq<Option<real>>, base: seq<Option<real>>, keep: seq<bool>): seq<Point>
    requires |x| == |target| == |base| == |keep|
  {
    if x == [] then []
    else
      var n := |x| - 1;
      Sample(x[..n], target[..n], base[..n], keep[..n]) +
      if keep[n] && x[n].Some? && target[n].Some? && base[n].Some?
      then [Point(x[n].value, target[n].value, base[n].value)] else []
  }

  function FiniteWhere(x: seq<Option<real>>, keep: seq<bool>): seq<real>
    requires |x| == |keep|
  {
    if x == [] then []
    else
      var n := |x| - 1;
      FiniteWhere(x[..n], keep[..n]) + if keep[n] && x[n].Some? then [x[n].value] else []
  }

  function TrainMean(d: Data): (mean: real)
    requires d.Valid()
    ensures mean > 0.0
  {
    var finite := FiniteWhere(d.mult, d.keep);
    if finite == [] || Mean(finite) <= 0.0 then 1.0 else Mean(finite)
  }

  function Centred(m: Option<real>, mean: real): Option<real>
    requires mean > 0.0
  {
    if m.None? then None else Some(m.value / mean - 1.0)
  }

  function Regressor(d: Data, lag: int): (x: seq<Option<real>>)
    requires d.Valid()
    ensures |x| == |d.mult|
  {
    var lagged, mean := LagSeries(d.mult, lag), TrainMean(d);
    seq(|lagged|, t requires 0 <= t < |lagged| => Centred(lagged[t], mean))
  }

  function SumXX(ps: seq<Point>): (s: real)
    ensures s >= 0.0
  {
    if ps == [] then 0.0 else SumXX(ps[..|ps| - 1]) + ps[|ps| - 1].XX()
  }

  function SumXY(ps: seq<Point>): real {
    if ps == [] then 0.0 else SumXY(ps[..|ps| - 1]) + ps[|ps| - 1].XY()
  }

  const MIN_POINTS := 8
  const TINY := 0.000000000000000001

  function OlsBeta(ps: seq<Point>): real {
    if |ps| < MIN_POINTS || SumXX(ps) < TINY then 0.0 else SumXY(ps) / SumXX(ps)
  }

  function AbsErrors(ps: seq<Point>, beta: real): real {
    if ps == [] then 0.0
    else
      var p := ps[|ps| - 1];
      AbsErrors(ps[..|ps| - 1], beta) + Abs(p.target - (p.base + beta * p.x))
  }

  /** None is the NaN of an empty sample. */
  function Mae(ps: seq<Point>, beta: real): Option<real> {
    if ps == [] then None else Some(AbsErrors(ps, beta) / |ps| as real)
  }

  datatype Candidate = Candidate(lag: int, beta: real, mae: Option<real>)

  function CandidateFor(d: Data, lag: int): Candidate
    requires d.Valid()
  {
    var ps := Sample(Regressor(d, lag), d.target, d.base, d.keep);
    Candidate(lag, OlsBeta(ps), Mae(ps, OlsBeta(ps)))
  }

  function Candidates(d: Data, lags: seq<int>): (cs: seq<Candidate>)
    requires d.Valid()
    ensures |cs| == |lags|
  {
    seq(|lags|, k requires 0 <= k < |lags| => CandidateFor(d, lags[k]))
  }

  /** Keeps a candidate only for a strictly smaller finite error; None in best.mae is infinity. */
  function Improve(best: Candidate, c: Candidate): Candidate {
    if c.mae.Some? && (best.mae.None? || c.mae.value < best.mae.value) then c else best
  }

  function Search(best: Candidate, cs: seq<Candidate>): Candidate {
    if cs == [] then best else Improve(Search(best, cs[..|cs| - 1]), cs[|cs| - 1])
  }

  datatype Fit = Fit(best: Candidate, trainMean: real, search: seq<Candidate>)

  function Start(c: Config): Candidate {
    Candidate(if c.fixedLag.Some? then c.fixedLag.value else 0,
              if c.fixedBeta.Some? then c.fixedBeta.value else 0.0, None)
  }

  function FitOf(d: Data, c: Config): Fit
    requires d.Valid()
  {
    if c.fixedBeta.None? || c.fixedLag.None? then
      var cs := Candidates(d, c.lags);
      Fit(Search(Start(c), cs), TrainMean(d), cs)
    else Fit(Start(c), TrainMean(d), [])
  }

  method SearchLags(d: Data, c: Config) returns (best: Candidate, search: seq<Candidate>)
    requires d.Valid()
    ensures search == Candidates(d, c.lags) && best == Search(Start(c), search)
  {
    ghost var all := Candidates(d, c.lags);
    best, search := Start(c), [];
    for k := 0 to |c.lags|
      invariant search == all[..k] && best == Search(Start(c), search)
    {
      var candidate := CandidateFor(d, c.lags[k]);
      best := Improve(best, candidate);
      search := search + [candidate];
      assert search[..k] == all[..k];
    }
  }

  /** The fit of one panel. */
  method FitOosBeta(rows: seq<Row>, e: Env, c: Config) returns (fit: Fit)
    ensures fit == FitOf(DataOf(rows, e, c), c)
  {
    var r := LogReturns(Prices(rows), e.log);
    var target := ForwardRealizedVol(r, c.horizon, e.sqrt);
    var base := HistoricalVol(r, c.window, e.sqrt);
    var mult := VolMultipliers(Signals(rows), c.sampleEvery, e.multiplier);
    var d := Data(target[..], base, mult[..], SearchMask(|rows|, c));
    assert d == DataOf(rows, e, c);
    if c.fixedBeta.None? || c.fixedLag.None? {
      var best, search := SearchLags(d, c);
      fit := Fit(best, TrainMean(d), search);
    } else {
      fit := Fit(Start(c), TrainMean(d), []);
    }
  }

  // ---------------------------------------------------------------- what the search finds

  /** Candidate k is the earliest of those with the smallest error. */
  ghost predicate FirstMinimum(cs: seq<Candidate>, k: nat)
    requires k < |cs|
  {
    && cs[k].mae.Some?
    && (forall j :: 0 <= j < |cs| && cs[j].mae.Some? ==> cs[k].mae.value <= cs[j].mae.value)
    && (forall j :: 0 <= j < k && cs[j].mae.Some? ==> cs[k].mae.value < cs[j].mae.value)
  }

  /** The search ends at the earliest lag of smallest error, or keeps the defaults when no lag has one. */
  lemma {:induction false} SearchFindsFirstMinimum(best: Candidate, cs: seq<Candidate>) returns (k: nat)
    requires best.mae.None?
    ensures k <= |cs|
    ensures k < |cs| ==> FirstMinimum(cs, k) && Search(best, cs) == cs[k]
    ensures k == |cs| ==> Search(best, cs) == best && forall j :: 0 <= j < |cs| ==> cs[j].mae.None?
  {
    if cs == [] {
      k := 0;
    } else {
      var n := |cs| - 1;
      var front := cs[..n];
      k := SearchFindsFirstMinimum(best, front);
      assert forall j :: 0 <= j < n ==> front[j] == cs[j];
      if k < n {
        ExtendMinimum(cs, k);
        if cs[n].mae.Some? && cs[n].mae.value < cs[k].mae.value {
          k := n;
        }
      } else if cs[n].mae.None? {
        k := n + 1;
      }
    }
  }

  lemma ExtendMinimum(cs: seq<Candidate>, k: nat)
    requires k < |cs| - 1 && FirstMinimum(cs[..|cs| - 1], k)
    ensures var n := |cs| - 1;
      if cs[n].mae.Some? && cs[n].mae.value < cs[k].mae.value then FirstMinimum(cs, n) else FirstMinimum(cs, k)
  {
    var n := |cs| - 1;
    assert forall j :: 0 <= j < n ==> cs[..n][j] == cs[j];
  }

  function Miss(p: Point, beta: real): real {
    Metrics.Square(p.Residual() - beta * p.x)
  }

  function SquaredErrors(ps: seq<Point>, beta: real): real {
    if ps == [] then 0.0 else SquaredErrors(ps[..|ps| - 1], beta) + Miss(ps[|ps| - 1], beta)
  }

  function SumYY(ps: seq<Point>): real {
    if ps == [] then 0.0 else SumYY(ps[..|ps| - 1]) + ps[|ps| - 1].YY()
  }

  /** The squared error of a slope, from three moments. */
  function Parabola(yy: real, xy: real, xx: real, beta: real): real {
    yy - 2.0 * (beta * xy) + beta * (beta * xx)
  }

  lemma ParabolaStep(yy: real, xy: real, xx: real, beta: real, p: Point)
    ensures Parabola(yy, xy, xx, beta) + Miss(p, beta) == Parabola(yy + p.YY(), xy + p.XY(), xx + p.XX(), beta)
  {
    assert Miss(p, beta) == p.YY() - 2.0 * (beta * p.XY()) + beta * (beta * p.XX());
  }

  lemma {:induction false} ErrorsAreParabola(ps: seq<Point>, beta: real)
    ensures SquaredErrors(ps, beta) == Parabola(SumYY(ps), SumXY(ps), SumXX(ps), beta)
  {
    if ps != [] {
      var front, p := ps[..|ps| - 1], ps[|ps| - 1];
      ErrorsAreParabola(front, beta);
      ParabolaStep(SumYY(front), SumXY(front), SumXX(front), beta, p);
    }
  }

  lemma VertexIsLowest(yy: real, xy: real, xx: real, beta: real)
    requires xx > 0.0
    ensures Parabola(yy, xy, xx, xy / xx) <= Parabola(yy, xy, xx, beta)
  {
    var best := xy / xx;
    assert best * xx == xy;
    assert Parabola(yy, xy, xx, beta) - Parabola(yy, xy, xx, best) == Metrics.Square(beta - best) * xx;
  }

  /** With enough points and spread the slope has the least squared error of all slopes. */
  lemma OlsBetaIsLeastSquares(ps: seq<Point>, beta: real)
    requires |ps| >= MIN_POINTS && SumXX(ps) >= TINY
    ensures SquaredErrors(ps, OlsBeta(ps)) <= SquaredErrors(ps, beta)
  {
    ErrorsAreParabola(ps, beta);
    ErrorsAreParabola(ps, OlsBeta(ps));
    VertexIsLowest(SumYY(ps), SumXY(ps), SumXX(ps), beta);
  }

  // ---------------------------------------------------------------- no look-ahead

  predicate SameBelow<T(==)>(a: seq<T>, b: seq<T>, k: int) {
    |a| == |b| && forall i :: 0 <= i < |a| && i < k ==> a[i] == b[i]
  }

  lemma ReturnsLookBack(a: seq<Option<real>>, b: seq<Option<real>>, log: real -> real, k: int)
    requires SameBelow(a, b, k)
    ensures SameBelow(LogReturns(a, log), LogReturns(b, log), k)
  {
  }

  lemma BaselineLooksBack(a: seq<Option<real>>, b: seq<Option<real>>, window: int, sqrt: real -> real, k: int)
    requires SameBelow(a, b, k)
    ensures SameBelow(HistVol(a, window, sqrt), HistVol(b, window, sqrt), k)
  {
    var za, zb := Metrics.ZeroFill(a), Metrics.ZeroFill(b);
    forall i | 0 <= i < |a| && i < k
      ensures Metrics.RollingVariances(za, window)[i] == Metrics.RollingVariances(zb, window)[i]
    {
      if window >= 2 && i >= window - 1 {
        assert Metrics.Window(za, i, window) == Metrics.Window(zb, i, window);
      }
    }
  }

  lemma MultipliersLookBack(a: seq<Macro>, b: seq<Macro>, every: int, multiplier: Macro -> Option<real>, k: int)
    requires SameBelow(a, b, k)
    ensures SameBelow(HeldMultipliers(a, every, multiplier), HeldMultipliers(b, every, multiplier), k)
  {
    forall i: nat | i < |a| && i < k ensures a[SampledRow(i, every)] == b[SampledRow(i, every)] {
      assert SampledRow(i, every) <= i;
    }
  }

  lemma LagLooksBack(a: seq<Option<real>>, b: seq<Option<real>>, lag: int, k: int)
    requires SameBelow(a, b, k)
    ensures SameBelow(LagSeries(a, lag), LagSeries(b, lag), k)
  {
  }

  lemma LabelsReachTheHorizon(a: seq<Option<real>>, b: seq<Option<real>>, horizon: int, sqrt: real -> real, k: int)
    requires SameBelow(a, b, k)
    ensures SameBelow(ForwardVol(a, horizon, sqrt), ForwardVol(b, horizon, sqrt), k - horizon)
  {
    forall t | 0 <= t < |a| && t < k - horizon
      ensures ForwardVolAt(a, horizon, sqrt, t) == ForwardVolAt(b, horizon, sqrt, t)
    {
      if horizon >= 2 && t < |a| - horizon {
        assert a[t + 1..t + 1 + horizon] == b[t + 1..t + 1 + horizon];
      }
    }
  }

  ghost predicate SameWhereKept(a: seq<Option<real>>, b: seq<Option<real>>, keep: seq<bool>) {
    |a| == |b| == |keep| && forall t :: 0 <= t < |keep| && keep[t] ==> a[t] == b[t]
  }

  lemma {:induction false} SampleOfKept(
    x: seq<Option<real>>, target: seq<Option<real>>, base: seq<Option<real>>,
    x': seq<Option<real>>, target': seq<Option<real>>, base': seq<Option<real>>, keep: seq<bool>)
    requires SameWhereKept(x, x', keep) && SameWhereKept(target, target', keep) && SameWhereKept(base, base', keep)
    ensures Sample(x, target, base, keep) == Sample(x', target', base', keep)
  {
    if keep != [] {
      var n := |keep| - 1;
      SampleOfKept(x[..n], target[..n], base[..n], x'[..n], target'[..n], base'[..n], keep[..n]);
    }
  }

  lemma {:induction false} FiniteOfKept(x: seq<Option<real>>, x': seq<Option<real>>, keep: seq<bool>)
    requires SameWhereKept(x, x', keep)
    ensures FiniteWhere(x, keep) == FiniteWhere(x', keep)
  {
    if keep != [] {
      var n := |keep| - 1;
      FiniteOfKept(x[..n], x'[..n], keep[..n]);
    }
  }

  /** Two data sets the fit cannot tell apart: same rows in use, same values there, same past multipliers. */
  ghost predicate SameForFit(d: Data, d': Data, k: int) {
    && d.Valid() && d'.Valid() && d.keep == d'.keep
    && SameWhereKept(d.target, d'.target, d.keep) && SameWhereKept(d.base, d'.base, d.keep)
    && SameBelow(d.mult, d'.mult, k)
    && forall t :: 0 <= t < |d.keep| && d.keep[t] ==> t < k
  }

  lemma SameTrainMean(d: Data, d': Data, k: int)
    requires SameForFit(d, d', k)
    ensures TrainMean(d) == TrainMean(d')
  {
    FiniteOfKept(d.mult, d'.mult, d.keep);
  }

  lemma SameRegressor(d: Data, d': Data, k: int, lag: int)
    requires d.Valid() && d'.Valid() && SameBelow(d.mult, d'.mult, k) && TrainMean(d) == TrainMean(d')
    ensures SameBelow(Regressor(d, lag), Regressor(d', lag), k)
  {
    LagLooksBack(d.mult, d'.mult, lag, k);
  }

  lemma SameCandidate(d: Data, d': Data, k: int, lag: int)
    requires SameForFit(d, d', k)
    ensures CandidateFor(d, lag) == CandidateFor(d', lag)
  {
    SameTrainMean(d, d', k);
    SameRegressor(d, d', k, lag);
    SampleOfKept(Regressor(d, lag), d.target, d.base, Regressor(d', lag), d'.target, d'.base, d.keep);
  }

  lemma SameFit(d: Data, d': Data, k: int, c: Config)
    requires SameForFit(d, d', k)
    ensures FitOf(d, c) == FitOf(d', c)
  {
    SameTrainMean(d, d', k);
    forall i | 0 <= i < |c.lags| ensures CandidateFor(d, c.lags[i]) == CandidateFor(d', c.lags[i]) {
      SameCandidate(d, d', k, c.lags[i]);
    }
    assert Candidates(d, c.lags) == Candidates(d', c.lags);
  }

  lemma RowReturnsLookBack(a: seq<Row>, b: seq<Row>, e: Env, k: int)
    requires SameBelow(a, b, k)
    ensures SameBelow(LogReturns(Prices(a), e.log), LogReturns(Prices(b), e.log), k)
  {
    ReturnsLookBack(Prices(a), Prices(b), e.log, k);
  }

  lemma RowMultipliersLookBack(a: seq<Row>, b: seq<Row>, e: Env, c: Config, k: int)
    requires SameBelow(a, b, k)
    ensures SameBelow(DataOf(a, e, c).mult, DataOf(b, e, c).mult, k)
  {
    MultipliersLookBack(Signals(a), Signals(b), c.sampleEvery, e.multiplier, k);
  }

  /**
   No look-ahead in the fit: two panels of one length that agree on the rows before the split give the same
   lag, slope, train mean, train error and whole search record, whatever their later rows hold.
   */
  lemma FitIgnoresTestRows(a: seq<Row>, b: seq<Row>, e: Env, c: Config)
    requires !c.fitOnFull && SameBelow(a, b, TrainCount(|a|, c.trainFrac))
    ensures FitOf(DataOf(a, e, c), c) == FitOf(DataOf(b, e, c), c)
  {
    var k := TrainCount(|a|, c.trainFrac);
    RowReturnsLookBack(a, b, e, k);
    RowMultipliersLookBack(a, b, e, c, k);
    var ra, rb := LogReturns(Prices(a), e.log), LogReturns(Prices(b), e.log);
    BaselineLooksBack(ra, rb, c.window, e.sqrt, k);
    LabelsReachTheHorizon(ra, rb, c.horizon, e.sqrt, k);
    var da, db := DataOf(a, e, c), DataOf(b, e, c);
    forall t: nat | t < |a| && da.keep[t] ensures t < k && t + c.horizon < k {
      PurgedLabelsEndInTrain(|a|, c, t);
    }
    assert da.keep == db.keep;
    SameFit(da, db, k, c);
  }

  /** The coupled forecast: baseline plus slope times regressor. */
  function ForecastAt(d: Data, fit: Fit, t: nat): Option<real>
    requires d.Valid() && t < |d.base|
  {
    Coupled(d.base[t], fit.best.beta, Regressor(d, fit.best.lag)[t])
  }

  function Coupled(base: Option<real>, beta: real, x: Option<real>): Option<real> {
    if base.None? || x.None? then None else Some(base.value + beta * x.value)
  }

  lemma SameForecast(d: Data, d': Data, fit: Fit, t: nat)
    requires d.Valid() && d'.Valid() && t < |d.base| == |d'.base| && d.base[t] == d'.base[t]
    requires SameBelow(d.mult, d'.mult, t + 1) && TrainMean(d) == TrainMean(d')
    ensures ForecastAt(d, fit, t) == ForecastAt(d', fit, t)
  {
    SameRegressor(d, d', t + 1, fit.best.lag);
    assert Regressor(d, fit.best.lag)[t] == Regressor(d', fit.best.lag)[t];
  }

  /** No look-ahead in the forecast: at row t it depends on the rows before the split and on rows up to t. */
  lemma ForecastLooksBack(a: seq<Row>, b: seq<Row>, e: Env, c: Config, t: nat)
    requires !c.fitOnFull && t < |a|
    requires SameBelow(a, b, MaxInt(TrainCount(|a|, c.trainFrac), t + 1))
    ensures var da, db := DataOf(a, e, c), DataOf(b, e, c);
      ForecastAt(da, FitOf(da, c), t) == ForecastAt(db, FitOf(db, c), t)
  {
    FitIgnoresTestRows(a, b, e, c);
    RowReturnsLookBack(a, b, e, t + 1);
    RowMultipliersLookBack(a, b, e, c, t + 1);
    BaselineLooksBack(LogReturns(Prices(a), e.log), LogReturns(Prices(b), e.log), c.window, e.sqrt, t + 1);
    SameForecast(DataOf(a, e, c), DataOf(b, e, c), FitOf(DataOf(a, e, c), c), t);
  }

  // ---------------------------------------------------------------- a fit over all rows does look ahead

  /** How many of the multipliers are v. */
  function CountOf(x: seq<Option<real>>, v: real): (k: nat)
    ensures k <= |x|
  {
    if x == [] then 0 else CountOf(x[..|x| - 1], v) + if x[|x| - 1] == Some(v) then 1 else 0
  }

  lemma {:induction false} CountsOne(x: seq<Option<real>>, v: real, t: nat)
    requires t < |x| && x[t] == Some(v)
    ensures CountOf(x, v) >= 1
  {
    if t < |x| - 1 {
      CountsOne(x[..|x| - 1], v, t);
    }
  }

  lemma {:induction false} CountsNone(x: seq<Option<real>>, v: real)
    requires forall i :: 0 <= i < |x| ==> x[i] != Some(v)
    ensures CountOf(x, v) == 0
  {
    if x != [] {
      CountsNone(x[..|x| - 1], v);
    }
  }

  /** n values u, k of them raised to v. */
  function Mixed(n: nat, k: nat, u: real, v: real): real {
    n as real * u + k as real * (v - u)
  }

  lemma MixedStep(n: nat, k: nat, u: real, v: real)
    ensures Mixed(n + 1, k, u, v) == Mixed(n, k, u, v) + u
    ensures Mixed(n + 1, k + 1, u, v) == Mixed(n, k, u, v) + v
  {
  }

  lemma {:induction false} MixedSum(x: seq<Option<real>>, keep: seq<bool>, u: real, v: real)
    requires |x| == |keep| && u != v
    requires forall i :: 0 <= i < |x| ==> keep[i] && (x[i] == Some(u) || x[i] == Some(v))
    ensures |FiniteWhere(x, keep)| == |x| && Sum(FiniteWhere(x, keep)) == Mixed(|x|, CountOf(x, v), u, v)
  {
    if x != [] {
      var n := |x| - 1;
      MixedSum(x[..n], keep[..n], u, v);
      MixedStep(n, CountOf(x[..n], v), u, v);
      assert FiniteWhere(x, keep)[..n] == FiniteWhere(x[..n], keep[..n]);
    }
  }

  lemma MixedMean(n: nat, k: nat, u: real, v: real)
    requires k <= n && n > 0 && u > 0.0 && v > 0.0 && u != v
    ensures Mixed(n, k, u, v) / n as real > 0.0
    ensures Mixed(n, k, u, v) / n as real == u <==> k == 0
  {
    var extra := k as real * (v - u);
    MixedIsPositive(n as real, k as real, u, v);
    ExtraIsNothing(k as real, v - u);
    PositiveQuotient(Mixed(n, k, u, v), n as real);
    QuotientOf(n as real, u, extra);
  }

  lemma ExtraIsNothing(x: real, y: real)
    requires x >= 0.0 && y != 0.0
    ensures x * y == 0.0 <==> x == 0.0
  {
    if x > 0.0 && y > 0.0 {
      assert x * y > 0.0;
    } else if x > 0.0 {
      assert x * (-y) > 0.0;
    }
  }

  lemma QuotientOf(m: real, x: real, extra: real)
    requires m > 0.0
    ensures (m * x + extra) / m == x <==> extra == 0.0
  {
    var q := (m * x + extra) / m;
    assert q * m == m * x + extra;
    if q == x {
      assert extra == 0.0;
    } else {
      ExtraIsNothing(m, q - x);
      assert m * (q - x) == extra;
    }
  }

  lemma MixedIsPositive(m: real, j: real, u: real, v: real)
    requires 0.0 <= j <= m && m > 0.0 && u > 0.0 && v > 0.0
    ensures m * u + j * (v - u) > 0.0
  {
    assert m * u + j * (v - u) == (m - j) * u + j * v;
    if j > 0.0 {
      assert j * v > 0.0;
      Mul(u, 0.0, m - j);
    } else {
      assert m * u > 0.0;
    }
  }

  lemma PositiveQuotient(x: real, m: real)
    requires x > 0.0 && m > 0.0
    ensures x / m > 0.0
  {
  }

  lemma MeanOfMixed(d: Data, u: real, v: real)
    requires d.Valid() && d.mult != [] && u > 0.0 && v > 0.0 && u != v
    requires forall i :: 0 <= i < |d.keep| ==> d.keep[i] && (d.mult[i] == Some(u) || d.mult[i] == Some(v))
    ensures TrainMean(d) == u <==> CountOf(d.mult, v) == 0
  {
    MixedSum(d.mult, d.keep, u, v);
    MixedMean(|d.mult|, CountOf(d.mult, v), u, v);
  }

  /** Row t comes after the split and its macro values are sampled. */
  predicate SampledTestRow(n: nat, c: Config, t: nat) {
    TrainCount(n, c.trainFrac) <= t < n && IsSampled(t, c.sampleEvery)
  }

  /** On panels of n rows the fit depends on the rows before the split only. */
  ghost predicate IgnoresTestRows(n: nat, e: Env, c: Config) {
    forall a: seq<Row>, b: seq<Row> ::
      |a| == n && SameBelow(a, b, TrainCount(n, c.trainFrac)) ==> FitOf(DataOf(a, e, c), c) == FitOf(DataOf(b, e, c), c)
  }

  /** The panel that is quiet before the split and loud from it on. */
  function LoudFrom(n: nat, split: int, quiet: Row, loud: Row): (rows: seq<Row>)
    ensures |rows| == n && forall i :: 0 <= i < n ==> rows[i] == if i < split then quiet else loud
  {
    seq(n, i => if i < split then quiet else loud)
  }

  lemma LoudMultipliers(n: nat, split: int, quiet: Row, loud: Row, e: Env, c: Config)
    ensures var d := DataOf(LoudFrom(n, split, quiet, loud), e, c);
      forall i :: 0 <= i < n ==>
        d.mult[i] == e.multiplier(Key((if SampledRow(i, c.sampleEvery) < split then quiet else loud).signals))
  {
  }

  /** Over all rows the train mean is that of a quiet panel exactly when no row takes the loud multiplier. */
  lemma MeanOfLoudFrom(n: nat, split: int, e: Env, c: Config, quiet: Row, loud: Row, u: real, v: real)
    requires c.fitOnFull && n > 0 && u > 0.0 && v > 0.0 && u != v
    requires e.multiplier(Key(quiet.signals)) == Some(u) && e.multiplier(Key(loud.signals)) == Some(v)
    ensures var d := DataOf(LoudFrom(n, split, quiet, loud), e, c); TrainMean(d) == u <==> CountOf(d.mult, v) == 0
  {
    LoudMultipliers(n, split, quiet, loud, e, c);
    MeanOfMixed(DataOf(LoudFrom(n, split, quiet, loud), e, c), u, v);
  }

  /** With the flag the train mean tells a quiet panel from one that turns loud at the split. */
  lemma TestRowsMoveMean(n: nat, e: Env, c: Config, t: nat, quiet: Row, loud: Row, u: real, v: real)
    returns (a: seq<Row>, b: seq<Row>)
    requires c.fitOnFull && SampledTestRow(n, c, t) && u > 0.0 && v > 0.0 && u != v
    requires e.multiplier(Key(quiet.signals)) == Some(u) && e.multiplier(Key(loud.signals)) == Some(v)
    ensures |a| == n && SameBelow(a, b, TrainCount(n, c.trainFrac))
    ensures TrainMean(DataOf(a, e, c)) != TrainMean(DataOf(b, e, c))
  {
    var split := TrainCount(n, c.trainFrac);
    a, b := LoudFrom(n, n, quiet, loud), LoudFrom(n, split, quiet, loud);
    LoudMultipliers(n, n, quiet, loud, e, c);
    LoudMultipliers(n, split, quiet, loud, e, c);
    HeldFromBefore(t, c.sampleEvery);
    CountsNone(DataOf(a, e, c).mult, v);
    CountsOne(DataOf(b, e, c).mult, v, t);
    MeanOfLoudFrom(n, n, e, c, quiet, loud, u, v);
    MeanOfLoudFrom(n, split, e, c, quiet, loud, u, v);
  }

  /**
   For every configuration, on panels with a sampled test row and a world model that gives two different
   positive multipliers, the fit ignores the test rows exactly when the flag for event windows is off.
   */
  lemma FullFitLooksAhead(n: nat, e: Env, c: Config, t: nat, quiet: Row, loud: Row, u: real, v: real)
    requires SampledTestRow(n, c, t) && u > 0.0 && v > 0.0 && u != v
    requires e.multiplier(Key(quiet.signals)) == Some(u) && e.multiplier(Key(loud.signals)) == Some(v)
    ensures IgnoresTestRows(n, e, c) <==> !c.fitOnFull
  {
    if c.fitOnFull {
      var a, b := TestRowsMoveMean(n, e, c, t, quiet, loud, u, v);
      assert FitOf(DataOf(a, e, c), c).trainMean != FitOf(DataOf(b, e, c), c).trainMean;
    } else {
      forall a: seq<Row>, b: seq<Row> | |a| == n && SameBelow(a, b, TrainCount(n, c.trainFrac))
        ensures FitOf(DataOf(a, e, c), c) == FitOf(DataOf(b, e, c), c)
      {
        FitIgnoresTestRows(a, b, e, c);
      }
    }
  }
}
