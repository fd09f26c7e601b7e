/** Patience stopping of training/early_stop.py. Scores are exact reals. */
module EarlyStop {
  import opened Basics

  datatype Rule = Rule(patience: int, minDelta: real, maximize: bool)

  /** best is None before the first check; badChecks counts the failures since the last improvement. */
  datatype State = State(best: Option<real>, bestEpoch: nat, badChecks: nat, epoch: nat)

  const FRESH := State(None, 0, 0, 0)

  predicate IsBetter(r: Rule, best: Option<real>, value: real) {
    best.None? || if r.maximize then value > best.value + r.minDelta else value < best.value - r.minDelta
  }

  function Observe(r: Rule, s: State, value: real): State {
    if IsBetter(r, s.best, value) then State(Some(value), s.epoch + 1, 0, s.epoch + 1)
    else s.(badChecks := s.badChecks + 1, epoch := s.epoch + 1)
  }

  /** What the check that led to s from a state with this best returns. */
  predicate Stops(r: Rule, before: State, value: real) {
    !IsBetter(r, before.best, value) && before.badChecks + 1 >= r.patience
  }

  datatype EarlyStopping = EarlyStopping(epoch: nat, bestLoss: real)

  class EarlyStopper {
    const rule: Rule
    var best: Option<real>
    var bestEpoch: nat
    var badChecks: nat
    var epoch: nat

    function View(): State
      reads this
    {
      State(best, bestEpoch, badChecks, epoch)
    }

    constructor (r: Rule)
      ensures View() == FRESH && rule == r
    {
      rule := r;
      best, bestEpoch, badChecks, epoch := None, 0, 0, 0;
    }

    method Update(value: real) returns (stop: bool)
      modifies this
      ensures View() == Observe(rule, old(View()), value)
      ensures stop <==> Stops(rule, old(View()), value)
    {
      epoch := epoch + 1;
      if IsBetter(rule, best, value) {
        best := Some(value);
        bestEpoch := epoch;
        badChecks := 0;
        return false;
      }
      badChecks := badChecks + 1;
      stop := badChecks >= rule.patience;
    }

    /** Some is the exception. */
    method Check(value: real) returns (raised: Option<EarlyStopping>)
      modifies this
      ensures View() == Observe(rule, old(View()), value)
      ensures raised.Some? <==> Stops(rule, old(View()), value)
      ensures raised.Some? ==> best.Some? && raised.value == EarlyStopping(epoch, best.value)
    {
      var stop := Update(value);
      raised := if stop then Some(EarlyStopping(epoch, best.value)) else None;
    }
  }

  // ---------------------------------------------------------------- runs

  function After(r: Rule, vs: seq<real>): State {
    if vs == [] then FRESH else Observe(r, After(r, vs[..|vs| - 1]), vs[|vs| - 1])
  }

  predicate ImprovedAt(r: Rule, vs: seq<real>, i: nat)
    requires i < |vs|
  {
    IsBetter(r, After(r, vs[..i]).best, vs[i])
  }

  predicate StopsAt(r: Rule, vs: seq<real>, i: nat)
    requires i < |vs|
  {
    Stops(r, After(r, vs[..i]), vs[i])
  }

  lemma AfterPrefix(r: Rule, vs: seq<real>, i: nat)
    requires i < |vs|
    ensures After(r, vs[..i + 1]) == Observe(r, After(r, vs[..i]), vs[i])
  {
    assert vs[..i + 1][..i] == vs[..i];
  }

  /** The fields say when the latest improvement was, what it scored and how many checks failed since. */
  lemma {:induction false} FieldsDescribeTheRun(r: Rule, vs: seq<real>, n: nat)
    requires 1 <= n <= |vs|
    ensures var s := After(r, vs[..n]);
      && s.epoch == n && 1 <= s.bestEpoch <= n && s.badChecks == n - s.bestEpoch
      && s.best == Some(vs[s.bestEpoch - 1]) && ImprovedAt(r, vs, s.bestEpoch - 1)
      && forall i :: s.bestEpoch <= i < n ==> !ImprovedAt(r, vs, i)
  {
    AfterPrefix(r, vs, n - 1);
    if n > 1 {
      FieldsDescribeTheRun(r, vs, n - 1);
    } else {
      assert vs[..0] == [];
    }
  }

  /** A check stops the run exactly when it and the whole latest patience of checks failed to improve. */
  lemma StopsExactlyAfterPatience(r: Rule, vs: seq<real>, n: nat)
    requires n < |vs|
    ensures StopsAt(r, vs, n) <==>
      !ImprovedAt(r, vs, n) && forall i :: MaxInt(0, n + 1 - r.patience) <= i <= n ==> !ImprovedAt(r, vs, i)
  {
    if n == 0 {
      assert vs[..0] == [];
      assert ImprovedAt(r, vs, 0);
    } else {
      FieldsDescribeTheRun(r, vs, n);
    }
  }

  function Minimum(vs: seq<real>): (m: real)
    requires vs != []
    ensures m in vs && forall i :: 0 <= i < |vs| ==> m <= vs[i]
  {
    if |vs| == 1 then vs[0] else Min(Minimum(vs[..|vs| - 1]), vs[|vs| - 1])
  }

  /** Ignoring small gains costs at most min_delta: the true minimum is within it of the recorded best. */
  lemma {:induction false} BestIsNearMinimum(r: Rule, vs: seq<real>)
    requires vs != [] && !r.maximize
    ensures var best := After(r, vs).best;
      best.Some? && (best.value - r.minDelta <= Minimum(vs) <= best.value <==> r.minDelta >= 0.0)
  {
    var n := |vs| - 1;
    if n == 0 {
      assert After(r, vs[..0]) == FRESH;
    } else {
      BestIsNearMinimum(r, vs[..n]);
    }
  }

  function Negated(vs: seq<real>): (ns: seq<real>)
    ensures |ns| == |vs| && forall i :: 0 <= i < |vs| ==> ns[i] == -vs[i]
  {
    seq(|vs|, i requires 0 <= i < |vs| => -vs[i])
  }

  function Mirror(s: State): State {
    s.(best := if s.best.None? then None else Some(-s.best.value))
  }

  /** Max mode on scores is min mode on their negatives, check by check. */
  lemma {:induction false} MaxModeMirrorsMinMode(r: Rule, vs: seq<real>)
    ensures After(r.(maximize := !r.maximize), Negated(vs)) == Mirror(After(r, vs))
    ensures vs != [] ==> StopsAt(r.(maximize := !r.maximize), Negated(vs), |vs| - 1) == StopsAt(r, vs, |vs| - 1)
  {
    if vs != [] {
      var n := |vs| - 1;
      MaxModeMirrorsMinMode(r, vs[..n]);
      assert Negated(vs)[..n] == Negated(vs[..n]);
    }
  }

  // ---------------------------------------------------------------- the run must stop

  function Patience(r: Rule): (p: nat)
    ensures p >= 1
  {
    MaxInt(1, r.patience)
  }

  /** Improvements after the first check. */
  function Gains(r: Rule, vs: seq<real>): nat {
    if |vs| <= 1 then 0 else Gains(r, vs[..|vs| - 1]) + if ImprovedAt(r, vs, |vs| - 1) then 1 else 0
  }

  lemma OneMoreGain(k: nat, d: real)
    ensures Times((k + 1) as real, d) == Times(k as real, d) + d
  {
  }

  /** Every gain lowers the best by more than min_delta. */
  lemma {:induction false} GainsLowerTheBest(r: Rule, vs: seq<real>)
    requires vs != [] && !r.maximize && r.minDelta >= 0.0
    ensures var best := After(r, vs).best;
      best.Some? && best.value <= vs[0] - Times(Gains(r, vs) as real, r.minDelta) && best.value in vs
  {
    var n := |vs| - 1;
    if n == 0 {
      assert After(r, vs[..0]) == FRESH;
    } else {
      GainsLowerTheBest(r, vs[..n]);
      OneMoreGain(Gains(r, vs[..n]), r.minDelta);
    }
  }

  /** Without a stop, fewer than patience checks fail between gains. */
  lemma {:induction false} ChecksPerGain(r: Rule, vs: seq<real>)
    requires vs != [] && forall i :: 0 <= i < |vs| ==> !StopsAt(r, vs, i)
    ensures After(r, vs).badChecks <= Patience(r) - 1
    ensures |vs| <= Patience(r) * Gains(r, vs) + 1 + After(r, vs).badChecks
  {
    var n := |vs| - 1;
    assert !StopsAt(r, vs, n);
    if n == 0 {
      assert After(r, vs[..0]) == FRESH;
    } else {
      forall i | 0 <= i < n ensures !StopsAt(r, vs[..n], i) {
        assert vs[..n][..i] == vs[..i];
        assert !StopsAt(r, vs, i);
      }
      ChecksPerGain(r, vs[..n]);
      OneMore(Patience(r), Gains(r, vs[..n]));
    }
  }

  lemma OneMore(p: nat, k: nat)
    ensures p * (k + 1) == p * k + p
  {
  }

  lemma GainsAreBounded(k: nat, d: real, drop: real)
    requires d > 0.0 && Times(k as real, d) <= drop
    ensures k <= (drop / d).Floor
  {
    CancelFactor(k as real, drop / d, d);
  }

  lemma CancelFactor(x: real, y: real, d: real)
    requires d > 0.0 && x * d <= y * d
    ensures x <= y
  {
  }

  lemma MoreGainsMoreChecks(p: nat, k: nat, bound: nat)
    requires k <= bound
    ensures p * (k + 1) <= p * (bound + 1)
  {
  }

  /** Scores bounded below force a stop: a run that has not stopped is at most this long. */
  lemma MustStop(r: Rule, vs: seq<real>, low: real)
    requires vs != [] && !r.maximize && r.minDelta > 0.0
    requires forall i :: 0 <= i < |vs| ==> low <= vs[i]
    requires |vs| > Patience(r) * (((vs[0] - low) / r.minDelta).Floor + 1)
    ensures exists i :: 0 <= i < |vs| && StopsAt(r, vs, i)
  {
    if forall i :: 0 <= i < |vs| ==> !StopsAt(r, vs, i) {
      GainsLowerTheBest(r, vs);
      ChecksPerGain(r, vs);
      var k := Gains(r, vs);
      GainsAreBounded(k, r.minDelta, vs[0] - low);
      OneMore(Patience(r), k);
      MoreGainsMoreChecks(Patience(r), k, ((vs[0] - low) / r.minDelta).Floor);
      assert false;
    }
  }

  lemma StopInPrefix(r: Rule, vs: seq<real>, i: nat)
    requires i < |vs|
    ensures StopsAt(r, vs[..i + 1], i) == StopsAt(r, vs, i)
  {
    assert vs[..i + 1][..i] == vs[..i];
  }

  lemma MirroredStop(r: Rule, vs: seq<real>, i: nat)
    requires i < |vs|
    ensures StopsAt(r.(maximize := !r.maximize), Negated(vs), i) == StopsAt(r, vs, i)
  {
    MaxModeMirrorsMinMode(r, vs[..i + 1]);
    assert Negated(vs[..i + 1]) == Negated(vs)[..i + 1];
    StopInPrefix(r, vs, i);
    StopInPrefix(r.(maximize := !r.maximize), Negated(vs), i);
  }

  /** The same in max mode for scores bounded above. */
  lemma MustStopInMaxMode(r: Rule, vs: seq<real>, high: real)
    requires vs != [] && r.maximize && r.minDelta > 0.0
    requires forall i :: 0 <= i < |vs| ==> vs[i] <= high
    requires |vs| > Patience(r) * (((high - vs[0]) / r.minDelta).Floor + 1)
    ensures exists i :: 0 <= i < |vs| && StopsAt(r, vs, i)
  {
    var flipped, ns := r.(maximize := false), Negated(vs);
    MustStop(flipped, ns, -high);
    var i :| 0 <= i < |ns| && StopsAt(flipped, ns, i);
    MirroredStop(r, vs, i);
  }

  // ---------------------------------------------------------------- when a stop can be forced

  predicate FromAbove(vs: seq<real>, first: real, low: real) {
    vs != [] && vs[0] == first && forall i :: 0 <= i < |vs| ==> low <= vs[i]
  }

  ghost predicate StopsSomewhere(r: Rule, vs: seq<real>) {
    exists i :: 0 <= i < |vs| && StopsAt(r, vs, i)
  }

  ghost predicate ForcedWithin(r: Rule, first: real, low: real, n: nat) {
    forall vs: seq<real> :: FromAbove(vs, first, low) && |vs| > n ==> StopsSomewhere(r, vs)
  }

  /** Every run of scores from `first`, none below `low`, stops if it is long enough. */
  ghost predicate ForcesStop(r: Rule, first: real, low: real) {
    exists n: nat :: ForcedWithin(r, first, low, n)
  }

  /** Each score closes half of the gap to low; with a negative min_delta even a constant one counts. */
  function Gap(first: real, low: real, minDelta: real, i: nat): real {
    if i == 0 || minDelta < 0.0 then first - low else Gap(first, low, minDelta, i - 1) / 2.0
  }

  function Approaching(first: real, low: real, minDelta: real, n: nat): (vs: seq<real>)
    ensures |vs| == n && forall i :: 0 <= i < n ==> vs[i] == low + Gap(first, low, minDelta, i)
  {
    seq(n, i requires 0 <= i < n => low + Gap(first, low, minDelta, i))
  }

  lemma Half(x: real)
    requires x > 0.0
    ensures 0.0 < x / 2.0 < x
  {
  }

  lemma {:induction false} GapShrinks(first: real, low: real, minDelta: real, i: nat)
    requires first > low || (first == low && minDelta < 0.0)
    ensures Gap(first, low, minDelta, i) >= 0.0
    ensures first > low ==> Gap(first, low, minDelta, i) > 0.0
    ensures minDelta <= 0.0 ==> Gap(first, low, minDelta, i + 1) < Gap(first, low, minDelta, i) - minDelta
  {
    if i > 0 {
      GapShrinks(first, low, minDelta, i - 1);
    }
    if minDelta >= 0.0 {
      Half(Gap(first, low, minDelta, i));
    }
  }

  /** Every score of such a run improves on the one before, so it never stops. */
  lemma {:induction false} ApproachImproves(r: Rule, first: real, low: real, n: nat, i: nat)
    requires !r.maximize && r.minDelta <= 0.0 && (first > low || (first == low && r.minDelta < 0.0)) && i < n
    ensures var vs := Approaching(first, low, r.minDelta, n);
      !StopsAt(r, vs, i) && After(r, vs[..i + 1]).best == Some(vs[i])
  {
    var vs := Approaching(first, low, r.minDelta, n);
    AfterPrefix(r, vs, i);
    if i == 0 {
      assert vs[..0] == [];
    } else {
      ApproachImproves(r, first, low, n, i - 1);
      GapShrinks(first, low, r.minDelta, i - 1);
      assert ImprovedAt(r, vs, i);
    }
  }

  lemma NeverForced(r: Rule, first: real, low: real, n: nat)
    requires !r.maximize && r.minDelta <= 0.0 && (first > low || (first == low && r.minDelta < 0.0))
    ensures !ForcedWithin(r, first, low, n)
  {
    var vs := Approaching(first, low, r.minDelta, n + 1);
    forall i | 0 <= i < |vs| ensures !StopsAt(r, vs, i) && low <= vs[i] {
      ApproachImproves(r, first, low, n + 1, i);
      GapShrinks(first, low, r.minDelta, i);
    }
    assert FromAbove(vs, first, low);
    assert !StopsSomewhere(r, vs);
  }

  /** From the bound itself nothing can improve by more than zero. */
  lemma StuckAtBound(r: Rule, vs: seq<real>, low: real)
    requires !r.maximize && r.minDelta == 0.0 && FromAbove(vs, low, low) && |vs| > Patience(r)
    ensures StopsSomewhere(r, vs)
  {
    var n := Patience(r);
    FieldsDescribeTheRun(r, vs, n + 1);
    var e := After(r, vs[..n + 1]).bestEpoch - 1;
    if e > 0 {
      BestAtMostFirst(r, vs[..e]);
    }
    assert e == 0;
    StopsExactlyAfterPatience(r, vs, n);
    assert StopsAt(r, vs, n);
  }

  lemma BestAtMostFirst(r: Rule, vs: seq<real>)
    requires vs != [] && !r.maximize && r.minDelta == 0.0
    ensures After(r, vs).best.Some? && After(r, vs).best.value <= vs[0]
  {
    GainsLowerTheBest(r, vs);
    assert Times(Gains(r, vs) as real, 0.0) == 0.0;
  }

  lemma ForcedFrom(r: Rule, first: real, low: real) returns (n: nat)
    requires !r.maximize && (r.minDelta > 0.0 || first < low || (first == low && r.minDelta == 0.0))
    ensures ForcedWithin(r, first, low, n)
  {
    if first < low {
      n := 0;
    } else if r.minDelta > 0.0 {
      n := Patience(r) * (((first - low) / r.minDelta).Floor + 1);
      forall vs: seq<real> | FromAbove(vs, first, low) && |vs| > n ensures StopsSomewhere(r, vs) {
        MustStop(r, vs, low);
      }
    } else {
      n := Patience(r);
      forall vs: seq<real> | FromAbove(vs, first, low) && |vs| > n ensures StopsSomewhere(r, vs) {
        StuckAtBound(r, vs, low);
      }
    }
  }

  /**
   In min mode scores bounded below force a stop exactly when min_delta is positive, but for a first score at
   the bound, where zero is enough, and one below it, which no run has.
   */
  lemma StopForcedExactlyWhen(r: Rule, first: real, low: real)
    requires !r.maximize
    ensures ForcesStop(r, first, low) <==> r.minDelta > 0.0 || first < low || (first == low && r.minDelta == 0.0)
  {
    if r.minDelta > 0.0 || first < low || (first == low && r.minDelta == 0.0) {
      var n := ForcedFrom(r, first, low);
    } else {
      forall n: nat ensures !ForcedWithin(r, first, low, n) {
        NeverForced(r, first, low, n);
      }
    }
  }

  predicate FromBelow(vs: seq<real>, first: real, high: real) {
    vs != [] && vs[0] == first && forall i :: 0 <= i < |vs| ==> vs[i] <= high
  }

  ghost predicate ForcedWithinInMaxMode(r: Rule, first: real, high: real, n: nat) {
    forall vs: seq<real> :: FromBelow(vs, first, high) && |vs| > n ==> StopsSomewhere(r, vs)
  }

  ghost predicate ForcesStopInMaxMode(r: Rule, first: real, high: real) {
    exists n: nat :: ForcedWithinInMaxMode(r, first, high, n)
  }

  lemma NegatedTwice(vs: seq<real>)
    ensures Negated(Negated(vs)) == vs
  {
  }

  lemma MirroredStopSomewhere(r: Rule, vs: seq<real>)
    requires StopsSomewhere(r.(maximize := !r.maximize), Negated(vs))
    ensures StopsSomewhere(r, vs)
  {
    var i :| 0 <= i < |vs| && StopsAt(r.(maximize := !r.maximize), Negated(vs), i);
    MirroredStop(r, vs, i);
  }

  lemma ForcedInBothModes(r: Rule, first: real, high: real, n: nat)
    requires r.maximize
    ensures ForcedWithinInMaxMode(r, first, high, n) <==> ForcedWithin(r.(maximize := false), -first, -high, n)
  {
    if ForcedWithin(r.(maximize := false), -first, -high, n) {
      forall vs: seq<real> | FromBelow(vs, first, high) && |vs| > n ensures StopsSomewhere(r, vs) {
        assert FromAbove(Negated(vs), -first, -high);
        MirroredStopSomewhere(r, vs);
      }
    }
    if ForcedWithinInMaxMode(r, first, high, n) {
      forall vs: seq<real> | FromAbove(vs, -first, -high) && |vs| > n
        ensures StopsSomewhere(r.(maximize := false), vs)
      {
        assert FromBelow(Negated(vs), first, high);
        NegatedTwice(vs);
        MirroredStopSomewhere(r.(maximize := false), vs);
      }
    }
  }

  /** The same in max mode for scores bounded above. */
  lemma StopForcedInMaxModeExactlyWhen(r: Rule, first: real, high: real)
    requires r.maximize
    ensures ForcesStopInMaxMode(r, first, high) <==>
      r.minDelta > 0.0 || first > high || (first == high && r.minDelta == 0.0)
  {
    var flipped, from, low := r.(maximize := false), -first, -high;
    StopForcedExactlyWhen(flipped, from, low);
    if n: nat :| ForcedWithinInMaxMode(r, first, high, n) {
      ForcedInBothModes(r, first, high, n);
    }
    if n: nat :| ForcedWithin(flipped, from, low, n) {
      ForcedInBothModes(r, first, high, n);
    }
  }
}
