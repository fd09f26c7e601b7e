/**
 Event features of KHKT_Evaluation/rq1_v2/innovations.py: the decay of pulses along the panel, once as a direct
 accumulation cut off at a maximum age and once as a running recurrence.

 The weight of an age, a power of two in the source, is any non-negative function.
 */
module EventDecay {
  import opened Basics
  import opened ReleasePulses

  // ---------------------------------------------------------------- decay by accumulation

  const QUIET := 0.000000000000001

  /** Some column of the pulse is not negligible. */
  predicate Live(pulse: seq<real>) {
    exists c :: 0 <= c < |pulse| && Abs(pulse[c]) > QUIET
  }

  type Weight = real -> real

  ghost predicate NonNegative(w: Weight) {
    forall a :: w(a) >= 0.0
  }

  ghost predicate Increasing(times: seq<real>) {
    forall i, j :: 0 <= i < j < |times| ==> times[i] <= times[j]
  }

  datatype Panel = Panel(times: seq<real>, pulses: seq<seq<real>>)
  {
    ghost predicate Valid() {
      |times| == |pulses| && Increasing(times) && forall t :: 0 <= t < |pulses| ==> |pulses[t]| == WIDTH
    }
  }

  /** Event p still counts at row t. */
  predicate Counts(x: Panel, maxAge: real, p: nat, t: nat)
    requires p < |x.times| && t < |x.times| && |x.times| == |x.pulses|
  {
    p <= t && Live(x.pulses[p]) && x.times[t] - x.times[p] <= maxAge
  }

  /** What an event of size v at row p adds at row t. */
  function Share(x: Panel, maxAge: real, w: Weight, p: nat, t: nat, v: real): real
    requires p < |x.times| && t < |x.times| && |x.times| == |x.pulses|
  {
    if Counts(x, maxAge, p, t) then Times(w(x.times[t] - x.times[p]), v) else 0.0
  }

  /** The weighted sum at row t over the events before row n that still count, each of its given size. */
  function EventSum(x: Panel, maxAge: real, w: Weight, sizes: seq<real>, t: nat, n: nat): real
    requires n <= |x.times| == |x.pulses| == |sizes| && t < |x.times|
  {
    if n == 0 then 0.0
    else EventSum(x, maxAge, w, sizes, t, n - 1) + Share(x, maxAge, w, n - 1, t, sizes[n - 1])
  }

  /** The direction and the size of each pulse in one column. */
  function Signed(x: Panel, c: nat): (v: seq<real>)
    requires c < WIDTH && forall k :: 0 <= k < |x.pulses| ==> |x.pulses[k]| == WIDTH
    ensures |v| == |x.pulses|
  {
    seq(|x.pulses|, k requires 0 <= k < |x.pulses| => x.pulses[k][c])
  }

  function Magnitude(x: Panel, c: nat): (v: seq<real>)
    requires c < WIDTH && forall k :: 0 <= k < |x.pulses| ==> |x.pulses[k]| == WIDTH
    ensures |v| == |x.pulses|
  {
    seq(|x.pulses|, k requires 0 <= k < |x.pulses| => Abs(x.pulses[k][c]))
  }

  /** How many rows from p on are within the maximum age; on an ordered index they are the first ones. */
  method KeptRows(x: Panel, maxAge: real, p: nat) returns (kept: nat)
    requires x.Valid() && p < |x.times|
    ensures p + kept <= |x.times|
    ensures forall t :: p <= t < |x.times| ==> (x.times[t] - x.times[p] <= maxAge <==> t < p + kept)
  {
    kept := 0;
    for t := p to |x.times|
      invariant kept <= t - p
      invariant forall k :: p <= k < t ==> (x.times[k] - x.times[p] <= maxAge <==> k < p + kept)
    {
      if x.times[t] - x.times[p] <= maxAge {
        assert t > p ==> x.times[t - 1] - x.times[p] <= x.times[t] - x.times[p];
        kept := kept + 1;
      }
    }
  }

  /** One event added in place to the rows it reaches. */
  method AddEvent(x: Panel, maxAge: real, w: Weight, sizes: seq<real>, p: nat, kept: nat, column: array<real>)
    requires x.Valid() && p < |x.times| == |sizes| == column.Length && Live(x.pulses[p])
    requires p + kept <= |x.times|
    requires forall t :: p <= t < |x.times| ==> (x.times[t] - x.times[p] <= maxAge <==> t < p + kept)
    requires forall t :: 0 <= t < |x.times| ==> column[t] == EventSum(x, maxAge, w, sizes, t, p)
    modifies column
    ensures forall t :: 0 <= t < |x.times| ==> column[t] == EventSum(x, maxAge, w, sizes, t, p + 1)
  {
    for t := p to p + kept
      invariant forall k :: 0 <= k < |x.times| ==>
        column[k] == EventSum(x, maxAge, w, sizes, k, if p <= k < t then p + 1 else p)
    {
      assert Counts(x, maxAge, p, t);
      column[t] := column[t] + Times(w(x.times[t] - x.times[p]), sizes[p]);
    }
    forall k | 0 <= k < |x.times| && !(p <= k < p + kept)
      ensures column[k] == EventSum(x, maxAge, w, sizes, k, p + 1)
    {
      assert !Counts(x, maxAge, p, k);
    }
  }

  /** A negligible pulse adds nothing anywhere. */
  lemma SkippedEvent(x: Panel, maxAge: real, w: Weight, sizes: seq<real>, p: nat, t: nat)
    requires p < |x.times| == |x.pulses| == |sizes| && t < |x.times| && !Live(x.pulses[p])
    ensures EventSum(x, maxAge, w, sizes, t, p + 1) == EventSum(x, maxAge, w, sizes, t, p)
  {
  }

  /** One pass of the loop over the events. */
  method AddLiveEvent(x: Panel, maxAge: real, w: Weight, sizes: seq<real>, p: nat, column: array<real>)
    requires x.Valid() && p < |x.times| == |sizes| == column.Length
    requires forall t :: 0 <= t < |x.times| ==> column[t] == EventSum(x, maxAge, w, sizes, t, p)
    modifies column
    ensures forall t :: 0 <= t < |x.times| ==> column[t] == EventSum(x, maxAge, w, sizes, t, p + 1)
  {
    if Live(x.pulses[p]) {
      var kept := KeptRows(x, maxAge, p);
      AddEvent(x, maxAge, w, sizes, p, kept, column);
    } else {
      forall t | 0 <= t < |x.times| ensures column[t] == EventSum(x, maxAge, w, sizes, t, p + 1) {
        SkippedEvent(x, maxAge, w, sizes, p, t);
      }
    }
  }

  /** The accumulated columns are the direct weighted sums over the events no older than the maximum age. */
  method Accumulate(x: Panel, maxAge: real, w: Weight, c: nat) returns (signed: array<real>, magnitude: array<real>)
    requires x.Valid() && c < WIDTH
    ensures fresh(signed) && fresh(magnitude) && signed.Length == magnitude.Length == |x.times|
    ensures forall t :: 0 <= t < |x.times| ==>
      && signed[t] == EventSum(x, maxAge, w, Signed(x, c), t, |x.times|)
      && magnitude[t] == EventSum(x, maxAge, w, Magnitude(x, c), t, |x.times|)
  {
    var values, sizes := Signed(x, c), Magnitude(x, c);
    signed := new real[|x.times|](_ => 0.0);
    magnitude := new real[|x.times|](_ => 0.0);
    for p := 0 to |x.times|
      invariant forall t :: 0 <= t < |x.times| ==> signed[t] == EventSum(x, maxAge, w, values, t, p)
      invariant forall t :: 0 <= t < |x.times| ==> magnitude[t] == EventSum(x, maxAge, w, sizes, t, p)
    {
      AddLiveEvent(x, maxAge, w, values, p, signed);
      AddLiveEvent(x, maxAge, w, sizes, p, magnitude);
    }
  }

  lemma WeighedMagnitude(weight: real, v: real)
    requires weight >= 0.0
    ensures Abs(Times(weight, v)) == Times(weight, Abs(v)) >= 0.0
  {
    if v < 0.0 {
      assert weight * v == -(weight * (-v));
      assert weight * (-v) >= 0.0;
    } else {
      assert weight * v >= 0.0;
    }
  }

  /** The signed column is bounded by the magnitude column. */
  lemma {:induction false} SignedWithinMagnitude(x: Panel, maxAge: real, w: Weight, c: nat, t: nat, n: nat)
    requires x.Valid() && NonNegative(w) && n <= |x.times| && t < |x.times| && c < WIDTH
    ensures Abs(EventSum(x, maxAge, w, Signed(x, c), t, n)) <= EventSum(x, maxAge, w, Magnitude(x, c), t, n)
  {
    if n > 0 {
      SignedWithinMagnitude(x, maxAge, w, c, t, n - 1);
      WeighedMagnitude(w(x.times[t] - x.times[n - 1]), x.pulses[n - 1][c]);
    }
  }

  /** With no event that still counts, a column is exactly zero. */
  lemma {:induction false} NothingLiveIsZero(x: Panel, maxAge: real, w: Weight, sizes: seq<real>, t: nat, n: nat)
    requires x.Valid() && n <= |x.times| == |sizes| && t < |x.times|
    requires forall p :: 0 <= p < n ==> !Counts(x, maxAge, p, t)
    ensures EventSum(x, maxAge, w, sizes, t, n) == 0.0
  {
    if n > 0 {
      NothingLiveIsZero(x, maxAge, w, sizes, t, n - 1);
    }
  }

  /** Events after row t add nothing at row t. */
  lemma {:induction false} LaterEventsAddNothing(x: Panel, maxAge: real, w: Weight, sizes: seq<real>, t: nat, n: nat)
    requires x.Valid() && t < n <= |x.times| == |sizes|
    ensures EventSum(x, maxAge, w, sizes, t, n) == EventSum(x, maxAge, w, sizes, t, t + 1)
  {
    if n > t + 1 {
      LaterEventsAddNothing(x, maxAge, w, sizes, t, n - 1);
      assert !Counts(x, maxAge, n - 1, t);
    }
  }

  lemma {:induction false} SamePrefixSameSums(
    x: Panel, y: Panel, maxAge: real, w: Weight, a: seq<real>, b: seq<real>, t: nat, n: nat)
    requires x.Valid() && y.Valid() && n <= t + 1 && t < |x.times| == |a| && t < |y.times| == |b|
    requires x.times[..t + 1] == y.times[..t + 1] && x.pulses[..t + 1] == y.pulses[..t + 1] && a[..t + 1] == b[..t + 1]
    ensures EventSum(x, maxAge, w, a, t, n) == EventSum(y, maxAge, w, b, t, n)
  {
    if n > 0 {
      SamePrefixSameSums(x, y, maxAge, w, a, b, t, n - 1);
      assert x.times[n - 1] == x.times[..t + 1][n - 1] == y.times[n - 1];
      assert x.pulses[n - 1] == x.pulses[..t + 1][n - 1] == y.pulses[n - 1];
      assert a[n - 1] == a[..t + 1][n - 1] == b[n - 1];
      assert x.times[t] == x.times[..t + 1][t] == y.times[t];
    }
  }

  /** Two panels of any lengths that agree up to row t carry the same features at row t. */
  lemma DecayLooksOnlyBack(x: Panel, y: Panel, maxAge: real, w: Weight, c: nat, t: nat)
    requires x.Valid() && y.Valid() && t < |x.times| && t < |y.times| && c < WIDTH
    requires x.times[..t + 1] == y.times[..t + 1] && x.pulses[..t + 1] == y.pulses[..t + 1]
    ensures EventSum(x, maxAge, w, Signed(x, c), t, |x.times|) == EventSum(y, maxAge, w, Signed(y, c), t, |y.times|)
    ensures EventSum(x, maxAge, w, Magnitude(x, c), t, |x.times|) ==
      EventSum(y, maxAge, w, Magnitude(y, c), t, |y.times|)
  {
    forall k | 0 <= k <= t ensures x.pulses[k] == y.pulses[k] {
      assert x.pulses[..t + 1][k] == y.pulses[..t + 1][k];
    }
    LaterEventsAddNothing(x, maxAge, w, Signed(x, c), t, |x.times|);
    LaterEventsAddNothing(y, maxAge, w, Signed(y, c), t, |y.times|);
    SamePrefixSameSums(x, y, maxAge, w, Signed(x, c), Signed(y, c), t, t + 1);
    LaterEventsAddNothing(x, maxAge, w, Magnitude(x, c), t, |x.times|);
    LaterEventsAddNothing(y, maxAge, w, Magnitude(y, c), t, |y.times|);
    SamePrefixSameSums(x, y, maxAge, w, Magnitude(x, c), Magnitude(y, c), t, t + 1);
  }

  // ---------------------------------------------------------------- from panel rows to features

  ghost predicate FiveWide(impact: Impact) {
    forall a, b :: |impact(a, b)| == WIDTH
  }

  /** The pulse column of a panel of raw rows. */
  function PulsePanel(times: seq<real>, rows: seq<Row>, names: nat, impact: Impact): (x: Panel)
    requires |times| == |rows| && forall t :: 0 <= t < |rows| ==> |rows[t].values| == names && |rows[t].stamps| == names
    ensures x.times == times && |x.pulses| == |rows|
    ensures forall t :: 0 <= t < |rows| ==> x.pulses[t] == PulseOf(rows[..t + 1], names, impact)
  {
    Panel(times, seq(|rows|, t requires 0 <= t < |rows| => PulseOf(rows[..t + 1], names, impact)))
  }

  lemma PulsePanelIsValid(times: seq<real>, rows: seq<Row>, names: nat, impact: Impact)
    requires |times| == |rows| && Increasing(times) && Shaped(rows, names) && FiveWide(impact)
    ensures PulsePanel(times, rows, names, impact).Valid()
  {
  }

  lemma PulsesLookOnlyBack(
    times: seq<real>, rows: seq<Row>, times': seq<real>, rows': seq<Row>, names: nat, impact: Impact, t: nat)
    requires |times| == |rows| && Shaped(rows, names) && |times'| == |rows'| && Shaped(rows', names)
    requires t < |rows| && t < |rows'| && rows[..t + 1] == rows'[..t + 1]
    ensures PulsePanel(times, rows, names, impact).pulses[..t + 1] ==
      PulsePanel(times', rows', names, impact).pulses[..t + 1]
  {
    var x, y := PulsePanel(times, rows, names, impact), PulsePanel(times', rows', names, impact);
    forall k | 0 <= k <= t ensures x.pulses[k] == y.pulses[k] {
      assert rows[..k + 1] == rows[..t + 1][..k + 1] && rows'[..k + 1] == rows'[..t + 1][..k + 1];
    }
  }

  /**
   No look-ahead from raw data to features: two panels of rows, of any lengths, whose times, values and release
   stamps agree up to row t carry the same decayed features at row t.
   */
  lemma FeaturesLookOnlyBack(
    times: seq<real>, rows: seq<Row>, times': seq<real>, rows': seq<Row>, names: nat, impact: Impact,
    maxAge: real, w: Weight, c: nat, t: nat)
    requires |times| == |rows| && Increasing(times) && Shaped(rows, names)
    requires |times'| == |rows'| && Increasing(times') && Shaped(rows', names)
    requires FiveWide(impact) && c < WIDTH && t < |rows| && t < |rows'|
    requires times[..t + 1] == times'[..t + 1] && rows[..t + 1] == rows'[..t + 1]
    ensures var x, y := PulsePanel(times, rows, names, impact), PulsePanel(times', rows', names, impact);
      && x.Valid() && y.Valid()
      && EventSum(x, maxAge, w, Signed(x, c), t, |rows|) == EventSum(y, maxAge, w, Signed(y, c), t, |rows'|)
      && EventSum(x, maxAge, w, Magnitude(x, c), t, |rows|) == EventSum(y, maxAge, w, Magnitude(y, c), t, |rows'|)
  {
    PulsePanelIsValid(times, rows, names, impact);
    PulsePanelIsValid(times', rows', names, impact);
    PulsesLookOnlyBack(times, rows, times', rows', names, impact, t);
    DecayLooksOnlyBack(
      PulsePanel(times, rows, names, impact), PulsePanel(times', rows', names, impact), maxAge, w, c, t);
  }

  // ---------------------------------------------------------------- decay by recurrence

  /** The weight of a sum of ages is the product of the weights, and of age zero one. */
  ghost predicate Exponential(w: Weight) {
    w(0.0) == 1.0 && forall a, b :: a >= 0.0 && b >= 0.0 ==> Multiplies(w, a, b)
  }

  predicate Multiplies(w: Weight, a: real, b: real) {
    w(a + b) == Times(w(a), w(b))
  }

  /** The closed form at age `at` of the first n pulses. */
  function Decayed(times: seq<real>, pulse: seq<real>, w: Weight, at: real, n: nat): real
    requires n <= |times| == |pulse|
  {
    if n == 0 then 0.0
    else Decayed(times, pulse, w, at, n - 1) + Times(w(at - times[n - 1]), pulse[n - 1])
  }

  lemma Distribute(k: real, d: real, a: real, v: real)
    ensures Times(k, d + Times(a, v)) == Times(k, d) + Times(Times(a, k), v)
  {
  }

  /** Letting time pass multiplies the closed form by the weight of the elapsed time. */
  lemma {:induction false} DecayedLater(
    times: seq<real>, pulse: seq<real>, w: Weight, at: real, later: real, n: nat)
    requires n <= |times| == |pulse| && Exponential(w) && later >= at
    requires forall k :: 0 <= k < n ==> times[k] <= at
    ensures Decayed(times, pulse, w, later, n) == Times(w(later - at), Decayed(times, pulse, w, at, n))
  {
    if n == 0 {
      assert Times(w(later - at), 0.0) == 0.0;
    } else {
      DecayedLater(times, pulse, w, at, later, n - 1);
      var a, dt := at - times[n - 1], later - at;
      assert Multiplies(w, a, dt);
      assert a + dt == later - times[n - 1];
      Distribute(w(dt), Decayed(times, pulse, w, at, n - 1), w(a), pulse[n - 1]);
    }
  }

  /** One row of the recurrence: the old state fades, the new pulse joins. */
  function Faded(times: seq<real>, w: Weight, t: nat, state: real): real
    requires t < |times|
  {
    if t == 0 then state else Times(w(times[t] - times[t - 1]), state)
  }

  lemma DecayedNext(times: seq<real>, pulse: seq<real>, w: Weight, t: nat)
    requires t < |times| == |pulse| && Increasing(times) && Exponential(w)
    ensures t > 0 ==>
      Decayed(times, pulse, w, times[t], t + 1) ==
        Faded(times, w, t, Decayed(times, pulse, w, times[t - 1], t)) + pulse[t]
    ensures t == 0 ==> Decayed(times, pulse, w, times[t], t + 1) == Faded(times, w, t, 0.0) + pulse[t]
  {
    if t > 0 {
      DecayedLater(times, pulse, w, times[t - 1], times[t], t);
    }
    assert times[t] - times[t] == 0.0;
    assert Times(1.0, pulse[t]) == pulse[t];
  }

  /** The running state is the closed-form sum over all pulses up to its row. */
  method RunningDecay(times: seq<real>, pulse: seq<real>, w: Weight) returns (values: seq<real>)
    requires |times| == |pulse| && Increasing(times) && Exponential(w)
    ensures |values| == |times|
    ensures forall t :: 0 <= t < |times| ==> values[t] == Decayed(times, pulse, w, times[t], t + 1)
  {
    var state := 0.0;
    values := [];
    for t := 0 to |times|
      invariant |values| == t
      invariant t == 0 ==> state == 0.0
      invariant t > 0 ==> state == Decayed(times, pulse, w, times[t - 1], t)
      invariant forall k :: 0 <= k < t ==> values[k] == Decayed(times, pulse, w, times[k], k + 1)
    {
      DecayedNext(times, pulse, w, t);
      state := Faded(times, w, t, state);
      state := state + pulse[t];
      values := values + [state];
    }
  }
}
