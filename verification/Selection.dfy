/**
 The choice of a correction in KHKT_Evaluation/rq1_v2/model.py: every ridge penalty and shrinkage is tried on the
 validation rows, a stable one of largest gain is refitted and predicts the test rows.

 The ridge fit and the square root are arbitrary functions; a fitted model corrects row by row.
 */
module Selection {
  import opened Basics

  datatype Env<!X, !M> = Env(fit: (seq<X>, seq<real>, real) -> M, correct: (M, X) -> real, root: real -> real)

  datatype Config = Config(
    alphas: seq<real>, shrinkages: seq<real>, blocks: nat, requiredWins: int, minGain: real, metrics: seq<string>)

  datatype Input<X> = Input(x: seq<X>, y: seq<real>, b0: seq<real>, train: seq<bool>, valid: seq<bool>, test: seq<bool>)
  {
    /** One entry a row everywhere, and some row to validate on. */
    predicate Valid() {
      |x| == |y| == |b0| == |train| == |valid| == |test| && true in valid
    }
  }

  // ---------------------------------------------------------------- rows and losses

  /** xs[mask] */
  function Where<T>(xs: seq<T>, mask: seq<bool>): seq<T>
    requires |xs| == |mask|
  {
    if xs == [] then []
    else Where(xs[..|xs| - 1], mask[..|xs| - 1]) + if mask[|xs| - 1] then [xs[|xs| - 1]] else []
  }

  function Count(mask: seq<bool>): nat {
    if mask == [] then 0 else Count(mask[..|mask| - 1]) + if mask[|mask| - 1] then 1 else 0
  }

  lemma {:induction false} WhereSize<T>(xs: seq<T>, mask: seq<bool>)
    requires |xs| == |mask|
    ensures |Where(xs, mask)| == Count(mask)
  {
    if xs != [] {
      WhereSize(xs[..|xs| - 1], mask[..|xs| - 1]);
    }
  }

  lemma {:induction false} SomeCounted(mask: seq<bool>)
    requires true in mask
    ensures Count(mask) > 0
  {
    var n := |mask| - 1;
    if !mask[n] {
      var k :| 0 <= k < |mask| && mask[k];
      assert mask[..n][k];
      SomeCounted(mask[..n]);
    }
  }

  function Either(a: seq<bool>, b: seq<bool>): (m: seq<bool>)
    requires |a| == |b|
    ensures |m| == |a| && forall i :: 0 <= i < |m| ==> (m[i] <==> a[i] || b[i])
  {
    seq(|a|, i requires 0 <= i < |a| => a[i] || b[i])
  }

  function Minus(a: seq<real>, b: seq<real>): (d: seq<real>)
    requires |a| == |b|
    ensures |d| == |a| && forall i :: 0 <= i < |d| ==> d[i] == a[i] - b[i]
  {
    seq(|a|, i requires 0 <= i < |a| => a[i] - b[i])
  }

  function Magnitudes(es: seq<real>): (ms: seq<real>)
    ensures |ms| == |es|
  {
    seq(|es|, i requires 0 <= i < |es| => Abs(es[i]))
  }

  function Squares(es: seq<real>): (ms: seq<real>)
    ensures |ms| == |es|
  {
    seq(|es|, i requires 0 <= i < |es| => es[i] * es[i])
  }

  const MAE := "mae"
  const RMSE := "rmse"
  const FLOOR := 0.000000000001

  function Loss(metric: string, es: seq<real>, root: real -> real): real
    requires es != []
  {
    if metric == MAE then Mean(Magnitudes(es)) else root(Mean(Squares(es)))
  }

  predicate Known(metrics: seq<string>) {
    metrics != [] && forall k :: 0 <= k < |metrics| ==> metrics[k] == MAE || metrics[k] == RMSE
  }

  function Gain(base: real, loss: real): real {
    (base - loss) / Max(base, FLOOR)
  }

  /** The smallest relative gain over the metrics that count. */
  function LeastGain(metrics: seq<string>, es: seq<real>, bs: seq<real>, root: real -> real): real
    requires metrics != [] && es != [] && bs != []
  {
    var m := metrics[|metrics| - 1];
    var g := Gain(Loss(m, bs, root), Loss(m, es, root));
    if |metrics| == 1 then g else Min(LeastGain(metrics[..|metrics| - 1], es, bs, root), g)
  }

  predicate Beats(metrics: seq<string>, es: seq<real>, bs: seq<real>, root: real -> real)
    requires es != [] && bs != []
  {
    forall k :: 0 <= k < |metrics| ==> Loss(metrics[k], es, root) < Loss(metrics[k], bs, root)
  }

  // ---------------------------------------------------------------- validation blocks

  /** Where block k of array_split starts, all blocks having q rows and the first r one more. */
  function Bound(q: nat, r: nat, k: nat): nat {
    if k == 0 then 0 else Bound(q, r, k - 1) + q + if k - 1 < r then 1 else 0
  }

  lemma {:induction false} BoundIs(q: nat, r: nat, k: nat)
    ensures Bound(q, r, k) == k * q + MinInt(k, r)
  {
    if k > 0 {
      BoundIs(q, r, k - 1);
      assert k * q == (k - 1) * q + q;
    }
  }

  lemma {:induction false} BoundsRise(q: nat, r: nat, k: nat, l: nat)
    requires k <= l
    ensures Bound(q, r, k) <= Bound(q, r, l)
  {
    if k < l {
      BoundsRise(q, r, k, l - 1);
    }
  }

  lemma Division(n: nat, p: nat)
    requires p >= 1
    ensures n / p >= 0 && 0 <= n % p < p && p * (n / p) + n % p == n
  {
  }

  /** p blocks cover n rows from the first to the last. */
  lemma BlocksCover(n: nat, p: nat)
    requires p >= 1
    ensures n / p >= 0 && n % p >= 0 && Bound(n / p, n % p, 0) == 0 && Bound(n / p, n % p, p) == n
  {
    Division(n, p);
    BoundIs(n / p, n % p, p);
  }

  function BlockStart(n: nat, p: nat, k: nat): (b: nat)
    requires p >= 1 && k <= p
    ensures b <= n
  {
    BlocksCover(n, p);
    BoundsRise(n / p, n % p, k, p);
    Bound(n / p, n % p, k)
  }

  lemma BlockInside(n: nat, p: nat, k: nat)
    requires p >= 1 && k < p
    ensures BlockStart(n, p, k) <= BlockStart(n, p, k + 1)
  {
    Division(n, p);
    BoundsRise(n / p, n % p, k, k + 1);
  }

  function Block(es: seq<real>, p: nat, k: nat): (b: seq<real>)
    requires p >= 1 && k < p
    ensures |b| == BlockStart(|es|, p, k + 1) - BlockStart(|es|, p, k)
  {
    BlockInside(|es|, p, k);
    es[BlockStart(|es|, p, k)..BlockStart(|es|, p, k + 1)]
  }

  /** The first k blocks laid end to end. */
  function Joined(es: seq<real>, p: nat, k: nat): seq<real>
    requires p >= 1 && k <= p
  {
    if k == 0 then [] else Joined(es, p, k - 1) + Block(es, p, k - 1)
  }

  lemma {:induction false} JoinedIsPrefix(es: seq<real>, p: nat, k: nat)
    requires p >= 1 && k <= p
    ensures Joined(es, p, k) == es[..BlockStart(|es|, p, k)]
  {
    if k > 0 {
      JoinedIsPrefix(es, p, k - 1);
      BlockInside(|es|, p, k - 1);
    }
  }

  /** The blocks are consecutive and lose no validation row. */
  lemma BlocksRejoin(es: seq<real>, p: nat)
    requires p >= 1
    ensures Joined(es, p, p) == es
  {
    JoinedIsPrefix(es, p, p);
    BlocksCover(|es|, p);
  }

  /** Block k is not empty and every metric gets better on it. */
  predicate Won(c: Config, es: seq<real>, bs: seq<real>, root: real -> real, k: nat)
    requires c.blocks >= 1 && |es| == |bs| && k < c.blocks
  {
    var e, b := Block(es, c.blocks, k), Block(bs, c.blocks, k);
    e != [] && Beats(c.metrics, e, b, root)
  }

  /** The non-empty ones among the first k blocks on which every metric gets better. */
  function Wins(c: Config, es: seq<real>, bs: seq<real>, root: real -> real, k: nat): nat
    requires c.blocks >= 1 && |es| == |bs| && k <= c.blocks
  {
    if k == 0 then 0 else Wins(c, es, bs, root, k - 1) + if Won(c, es, bs, root, k - 1) then 1 else 0
  }

  // ---------------------------------------------------------------- candidates

  datatype Candidate = Candidate(alpha: real, shrinkage: real, gain: real, wins: nat, eligible: bool)

  function Corrected<X, M>(env: Env<X, M>, model: M, shrinkage: real, b0: real, x: X): real {
    Max(0.0, b0 + shrinkage * env.correct(model, x))
  }

  function Predictions<X, M>(env: Env<X, M>, model: M, shrinkage: real, b0: seq<real>, xs: seq<X>): (ps: seq<real>)
    requires |b0| == |xs|
    ensures |ps| == |xs|
  {
    seq(|xs|, i requires 0 <= i < |xs| => Corrected(env, model, shrinkage, b0[i], xs[i]))
  }

  function FitOn<X, M>(env: Env<X, M>, d: Input<X>, mask: seq<bool>, alpha: real): M
    requires d.Valid() && |mask| == |d.x|
  {
    env.fit(Where(d.x, mask), Where(Minus(d.y, d.b0), mask), alpha)
  }

  /** The validation rows' truth, baseline and features. */
  datatype Held<X> = Held(y: seq<real>, b0: seq<real>, x: seq<X>)
  {
    predicate Valid() {
      |y| == |b0| == |x| && y != []
    }
  }

  function HeldOf<X>(d: Input<X>): (h: Held<X>)
    requires d.Valid()
    ensures h.Valid()
  {
    WhereSize(d.y, d.valid);
    WhereSize(d.b0, d.valid);
    WhereSize(d.x, d.valid);
    SomeCounted(d.valid);
    Held(Where(d.y, d.valid), Where(d.b0, d.valid), Where(d.x, d.valid))
  }

  function Tried<X, M>(env: Env<X, M>, c: Config, h: Held<X>, model: M, alpha: real, shrinkage: real): Candidate
    requires c.blocks >= 1 && Known(c.metrics) && h.Valid()
  {
    var es := Minus(h.y, Predictions(env, model, shrinkage, h.b0, h.x));
    var bs := Minus(h.y, h.b0);
    var gain := LeastGain(c.metrics, es, bs, env.root);
    var wins := Wins(c, es, bs, env.root, c.blocks);
    Candidate(alpha, shrinkage, gain, wins, gain >= c.minGain && wins >= c.requiredWins)
  }

  /** The candidates of one penalty, for the first k shrinkages. */
  function RowOf<X, M>(env: Env<X, M>, c: Config, h: Held<X>, model: M, alpha: real, k: nat): (cs: seq<Candidate>)
    requires c.blocks >= 1 && Known(c.metrics) && h.Valid() && k <= |c.shrinkages|
    ensures |cs| == k
  {
    if k == 0 then []
    else RowOf(env, c, h, model, alpha, k - 1) + [Tried(env, c, h, model, alpha, c.shrinkages[k - 1])]
  }

  /** The fits on the train rows, one for each penalty. */
  function Models<X, M>(env: Env<X, M>, c: Config, d: Input<X>): (ms: seq<M>)
    requires d.Valid()
    ensures |ms| == |c.alphas|
  {
    seq(|c.alphas|, i requires 0 <= i < |c.alphas| => FitOn(env, d, d.train, c.alphas[i]))
  }

  /** The candidates of the first k penalties. */
  function Grid<X, M>(env: Env<X, M>, c: Config, h: Held<X>, models: seq<M>, k: nat): seq<Candidate>
    requires c.blocks >= 1 && Known(c.metrics) && h.Valid() && k <= |c.alphas| == |models|
  {
    if k == 0 then []
    else
      Grid(env, c, h, models, k - 1) + RowOf(env, c, h, models[k - 1], c.alphas[k - 1], |c.shrinkages|)
  }

  /** A later candidate replaces the best so far only if it is eligible and gains more. */
  function Best(cs: seq<Candidate>): (b: Option<nat>)
    ensures b.Some? ==> b.value < |cs| && cs[b.value].eligible
  {
    if cs == [] then None
    else
      var n := |cs| - 1;
      var b := Best(cs[..n]);
      if cs[n].eligible && (b.None? || cs[n].gain > cs[b.value].gain) then Some(n) else b
  }

  datatype Choice = Choice(alpha: real, shrinkage: real)

  function ChoiceOf(cs: seq<Candidate>): Option<Choice> {
    var b := Best(cs);
    if b.None? then None else Some(Choice(cs[b.value].alpha, cs[b.value].shrinkage))
  }

  /** Unknown metrics are an error; otherwise predictions for the test rows and the record of the search. */
  datatype Outcome = BadMetrics | Predicted(test: seq<real>, choice: Option<Choice>, candidates: seq<Candidate>)

  function Outcomes<X, M>(env: Env<X, M>, c: Config, d: Input<X>): Outcome
    requires c.blocks >= 1 && d.Valid()
  {
    if !Known(c.metrics) then BadMetrics
    else
      var cs := Grid(env, c, HeldOf(d), Models(env, c, d), |c.alphas|);
      Predicted(TestRows(env, d, ChoiceOf(cs)), ChoiceOf(cs), cs)
  }

  function TestRows<X, M>(env: Env<X, M>, d: Input<X>, choice: Option<Choice>): seq<real>
    requires d.Valid()
  {
    WhereSize(d.b0, d.test);
    WhereSize(d.x, d.test);
    if choice.None? then Where(d.b0, d.test)
    else
      var model := FitOn(env, d, Either(d.train, d.valid), choice.value.alpha);
      Predictions(env, model, choice.value.shrinkage, Where(d.b0, d.test), Where(d.x, d.test))
  }

  // ---------------------------------------------------------------- the loops

  method CountWins(c: Config, es: seq<real>, bs: seq<real>, root: real -> real) returns (wins: nat)
    requires c.blocks >= 1 && |es| == |bs|
    ensures wins == Wins(c, es, bs, root, c.blocks)
  {
    wins := 0;
    for k := 0 to c.blocks
      invariant wins == Wins(c, es, bs, root, k)
    {
      if Won(c, es, bs, root, k) {
        wins := wins + 1;
      }
    }
  }

  method Try<X, M>(env: Env<X, M>, c: Config, h: Held<X>, model: M, alpha: real, shrinkage: real)
    returns (candidate: Candidate)
    requires c.blocks >= 1 && Known(c.metrics) && h.Valid()
    ensures candidate == Tried(env, c, h, model, alpha, shrinkage)
  {
    var es := Minus(h.y, Predictions(env, model, shrinkage, h.b0, h.x));
    var bs := Minus(h.y, h.b0);
    var gain := LeastGain(c.metrics, es, bs, env.root);
    var wins := CountWins(c, es, bs, env.root);
    candidate := Candidate(alpha, shrinkage, gain, wins, gain >= c.minGain && wins >= c.requiredWins);
  }

  lemma BestNext(cs: seq<Candidate>, x: Candidate)
    ensures var b := Best(cs);
      Best(cs + [x]) == if x.eligible && (b.None? || x.gain > cs[b.value].gain) then Some(|cs|) else b
  {
    assert (cs + [x])[..|cs|] == cs;
  }

  lemma RowNext<X, M>(
    env: Env<X, M>, c: Config, h: Held<X>, model: M, alpha: real, cs: seq<Candidate>, j: nat, x: Candidate)
    requires c.blocks >= 1 && Known(c.metrics) && h.Valid() && j < |c.shrinkages|
    requires x == Tried(env, c, h, model, alpha, c.shrinkages[j])
    ensures cs + RowOf(env, c, h, model, alpha, j + 1) == cs + RowOf(env, c, h, model, alpha, j) + [x]
  {
  }

  /** One pass of the loop over the penalties. */
  method TryShrinkages<X, M>(
    env: Env<X, M>, c: Config, h: Held<X>, model: M, alpha: real, cs0: seq<Candidate>, best0: Option<nat>)
    returns (cs: seq<Candidate>, best: Option<nat>)
    requires c.blocks >= 1 && Known(c.metrics) && h.Valid() && best0 == Best(cs0)
    ensures cs == cs0 + RowOf(env, c, h, model, alpha, |c.shrinkages|) && best == Best(cs)
  {
    cs, best := cs0, best0;
    for j := 0 to |c.shrinkages|
      invariant cs == cs0 + RowOf(env, c, h, model, alpha, j) && best == Best(cs)
    {
      var candidate := Try(env, c, h, model, alpha, c.shrinkages[j]);
      RowNext(env, c, h, model, alpha, cs0, j, candidate);
      best := Better(cs, best, candidate);
      cs := cs + [candidate];
    }
  }

  method Better(cs: seq<Candidate>, best: Option<nat>, candidate: Candidate) returns (better: Option<nat>)
    requires best == Best(cs)
    ensures better == Best(cs + [candidate])
  {
    BestNext(cs, candidate);
    better := if candidate.eligible && (best.None? || candidate.gain > cs[best.value].gain) then Some(|cs|) else best;
  }

  /** The search over penalties and shrinkages. */
  method Search<X, M>(env: Env<X, M>, c: Config, d: Input<X>, h: Held<X>, ghost models: seq<M>)
    returns (cs: seq<Candidate>, best: Option<nat>)
    requires c.blocks >= 1 && Known(c.metrics) && d.Valid() && h.Valid() && |models| == |c.alphas|
    requires forall i :: 0 <= i < |models| ==> models[i] == FitOn(env, d, d.train, c.alphas[i])
    ensures cs == Grid(env, c, h, models, |c.alphas|) && best == Best(cs)
  {
    cs, best := [], None;
    for i := 0 to |c.alphas|
      invariant cs == Grid(env, c, h, models, i) && best == Best(cs)
    {
      var model := FitOn(env, d, d.train, c.alphas[i]);
      cs, best := TryShrinkages(env, c, h, model, c.alphas[i], cs, best);
    }
  }

  method SelectPredict<X, M>(env: Env<X, M>, c: Config, d: Input<X>) returns (r: Outcome)
    requires c.blocks >= 1 && d.Valid()
    ensures r == Outcomes(env, c, d)
  {
    if !Known(c.metrics) {
      return BadMetrics;
    }
    var cs, best := Search(env, c, d, HeldOf(d), Models(env, c, d));
    var choice := if best.None? then None else Some(Choice(cs[best.value].alpha, cs[best.value].shrinkage));
    r := Predicted(TestRows(env, d, choice), choice, cs);
  }

  // ---------------------------------------------------------------- what is chosen

  /** The choice is the first of the eligible candidates of largest gain, and there is one if any is eligible. */
  lemma {:induction false} BestIsFirstLargest(cs: seq<Candidate>)
    ensures Best(cs).Some? <==> exists k :: 0 <= k < |cs| && cs[k].eligible
    ensures Best(cs).Some? ==> forall k :: 0 <= k < |cs| && cs[k].eligible ==>
      cs[k].gain <= cs[Best(cs).value].gain && (k < Best(cs).value ==> cs[k].gain < cs[Best(cs).value].gain)
  {
    if cs != [] {
      var n := |cs| - 1;
      var front := cs[..n];
      BestIsFirstLargest(front);
      assert forall k :: 0 <= k < n ==> front[k] == cs[k];
    }
  }

  lemma {:induction false} LeastGainBounds(
    metrics: seq<string>, es: seq<real>, bs: seq<real>, root: real -> real, k: nat)
    requires es != [] && bs != [] && k < |metrics|
    ensures LeastGain(metrics, es, bs, root) <= Gain(Loss(metrics[k], bs, root), Loss(metrics[k], es, root))
  {
    if k < |metrics| - 1 {
      LeastGainBounds(metrics[..|metrics| - 1], es, bs, root, k);
    }
  }

  lemma GainMeans(base: real, loss: real, g: real)
    requires Gain(base, loss) >= g
    ensures loss <= base - Times(g, Max(base, FLOOR))
  {
    var m := Max(base, FLOOR);
    var q := (base - loss) / m;
    assert q * m == base - loss;
    Mul(m, g, q);
  }

  /** A candidate that is eligible keeps every metric that counts below the baseline by the required share of it. */
  lemma EligibleBeatsBaseline<X, M>(
    env: Env<X, M>, c: Config, h: Held<X>, model: M, alpha: real, shrinkage: real, k: nat)
    requires c.blocks >= 1 && Known(c.metrics) && h.Valid() && k < |c.metrics|
    requires Tried(env, c, h, model, alpha, shrinkage).eligible
    ensures var base := Loss(c.metrics[k], Minus(h.y, h.b0), env.root);
      Loss(c.metrics[k], Minus(h.y, Predictions(env, model, shrinkage, h.b0, h.x)), env.root)
        <= base - Times(c.minGain, Max(base, FLOOR))
  {
    var es, bs := Minus(h.y, Predictions(env, model, shrinkage, h.b0, h.x)), Minus(h.y, h.b0);
    LeastGainBounds(c.metrics, es, bs, env.root, k);
    GainMeans(Loss(c.metrics[k], bs, env.root), Loss(c.metrics[k], es, env.root), c.minGain);
  }

  // ---------------------------------------------------------------- no leakage

  /** The two inputs have the same split and agree on every row of the mask. */
  predicate AgreeOn<X(==)>(d: Input<X>, d': Input<X>, mask: seq<bool>) {
    && |d.x| == |d'.x| == |d.y| == |d'.y| == |d.b0| == |d'.b0| == |mask|
    && forall i :: 0 <= i < |mask| && mask[i] ==> d.x[i] == d'.x[i] && d.y[i] == d'.y[i] && d.b0[i] == d'.b0[i]
  }

  predicate SameSplit<X>(d: Input<X>, d': Input<X>) {
    d.train == d'.train && d.valid == d'.valid && d.test == d'.test
  }

  lemma {:induction false} SameWhere<T>(xs: seq<T>, ys: seq<T>, mask: seq<bool>)
    requires |xs| == |ys| == |mask| && forall i :: 0 <= i < |mask| && mask[i] ==> xs[i] == ys[i]
    ensures Where(xs, mask) == Where(ys, mask)
  {
    if xs != [] {
      var n := |xs| - 1;
      SameWhere(xs[..n], ys[..n], mask[..n]);
    }
  }

  lemma SameFit<X, M>(env: Env<X, M>, d: Input<X>, d': Input<X>, mask: seq<bool>, alpha: real)
    requires d.Valid() && d'.Valid() && AgreeOn(d, d', mask)
    ensures FitOn(env, d, mask, alpha) == FitOn(env, d', mask, alpha)
  {
    SameWhere(d.x, d'.x, mask);
    SameWhere(Minus(d.y, d.b0), Minus(d'.y, d'.b0), mask);
  }

  lemma SameHeld<X>(d: Input<X>, d': Input<X>)
    requires d.Valid() && d'.Valid() && SameSplit(d, d') && AgreeOn(d, d', d.valid)
    ensures HeldOf(d) == HeldOf(d')
  {
    SameWhere(d.x, d'.x, d.valid);
    SameWhere(d.y, d'.y, d.valid);
    SameWhere(d.b0, d'.b0, d.valid);
  }

  lemma SameModels<X, M>(env: Env<X, M>, c: Config, d: Input<X>, d': Input<X>)
    requires d.Valid() && d'.Valid() && SameSplit(d, d') && AgreeOn(d, d', d.train)
    ensures Models(env, c, d) == Models(env, c, d')
  {
    forall i | 0 <= i < |c.alphas| ensures Models(env, c, d)[i] == Models(env, c, d')[i] {
      SameFit(env, d, d', d.train, c.alphas[i]);
    }
  }

  lemma AgreeOnParts<X>(d: Input<X>, d': Input<X>)
    requires d.Valid() && AgreeOn(d, d', Either(d.train, d.valid))
    ensures AgreeOn(d, d', d.train) && AgreeOn(d, d', d.valid)
  {
    var either := Either(d.train, d.valid);
    assert forall i :: 0 <= i < |either| && (d.train[i] || d.valid[i]) ==> either[i];
  }

  /** No leakage into the search: rows outside train and validation change neither candidates nor choice. */
  lemma ChoiceIgnoresTestRows<X, M>(env: Env<X, M>, c: Config, d: Input<X>, d': Input<X>)
    requires c.blocks >= 1 && Known(c.metrics) && d.Valid() && d'.Valid()
    requires SameSplit(d, d') && AgreeOn(d, d', Either(d.train, d.valid))
    ensures Outcomes(env, c, d).candidates == Outcomes(env, c, d').candidates
    ensures Outcomes(env, c, d).choice == Outcomes(env, c, d').choice
  {
    AgreeOnParts(d, d');
    SameHeld(d, d');
    SameModels(env, c, d, d');
  }

  /**
   No leakage into the predictions: two inputs that agree on the train and validation rows, and on the features
   and the baseline of the test rows, give the same outcome, whatever the truth on the test rows.
   */
  lemma OutcomeIgnoresTestTruth<X, M>(env: Env<X, M>, c: Config, d: Input<X>, d': Input<X>)
    requires c.blocks >= 1 && d.Valid() && d'.Valid() && SameSplit(d, d')
    requires AgreeOn(d, d', Either(d.train, d.valid))
    requires forall i :: 0 <= i < |d.test| && d.test[i] ==> d.x[i] == d'.x[i] && d.b0[i] == d'.b0[i]
    ensures Outcomes(env, c, d) == Outcomes(env, c, d')
  {
    if Known(c.metrics) {
      ChoiceIgnoresTestRows(env, c, d, d');
      SameWhere(d.x, d'.x, d.test);
      SameWhere(d.b0, d'.b0, d.test);
      var choice := Outcomes(env, c, d).choice;
      if choice.Some? {
        SameFit(env, d, d', Either(d.train, d.valid), choice.value.alpha);
      }
    }
  }

  /** On disjoint sets the truth on the test rows may be anything. */
  lemma TestTruthIsNeverRead<X, M>(env: Env<X, M>, c: Config, d: Input<X>, y: seq<real>)
    requires c.blocks >= 1 && d.Valid() && |y| == |d.y|
    requires forall i :: 0 <= i < |y| && d.test[i] ==> !d.train[i] && !d.valid[i]
    requires forall i :: 0 <= i < |y| && !d.test[i] ==> y[i] == d.y[i]
    ensures Outcomes(env, c, d) == Outcomes(env, c, d.(y := y))
  {
    OutcomeIgnoresTestTruth(env, c, d, d.(y := y));
  }
}
