/**
 The release features of KHKT_Evaluation/rq1_v2/innovations.py: the change at each release, standardised by the
 changes seen before it, and its running decay. A missing or infinite value is None, the root an arbitrary function.
 */
module ReleaseInnovations {
  import opened Basics
  import E = EventDecay

  /** One feature's column: its value and its publication stamp in each row of the panel. */
  datatype Row = Row(value: Option<real>, stamp: Option<int>)

  type Root = real -> real

  const MIN_CHANGES := 4
  const LEAST_SCALE := 0.000001
  const BOUND := 5.0

  // ---------------------------------------------------------------- columns

  /** A stamp that differs from the row before. */
  predicate Fresh(rows: seq<Row>, t: nat)
    requires t < |rows|
  {
    rows[t].stamp.Some? && (t == 0 || rows[t - 1].stamp != rows[t].stamp)
  }

  /** The values of the fresh rows, in order. */
  function Released(rows: seq<Row>): seq<Option<real>> {
    if rows == [] then []
    else
      var n := |rows| - 1;
      Released(rows[..n]) + if Fresh(rows, n) then [rows[n].value] else []
  }

  function Minus(a: Option<real>, b: Option<real>): Option<real> {
    if a.Some? && b.Some? then Some(a.value - b.value) else None
  }

  function Diff(xs: seq<Option<real>>): (ds: seq<Option<real>>)
    ensures |ds| == |xs|
  {
    seq(|xs|, k requires 0 <= k < |xs| => if k == 0 then None else Minus(xs[k], xs[k - 1]))
  }

  function Present(xs: seq<Option<real>>): seq<real> {
    if xs == [] then []
    else Present(xs[..|xs| - 1]) + if xs[|xs| - 1].Some? then [xs[|xs| - 1].value] else []
  }

  function SquaresAround(xs: seq<real>, m: real): real {
    if xs == [] then 0.0
    else SquaresAround(xs[..|xs| - 1], m) + (xs[|xs| - 1] - m) * (xs[|xs| - 1] - m)
  }

  /** The sample deviation of the values that are there, if there are enough. */
  function Spread(xs: seq<Option<real>>, root: Root): Option<real> {
    var ys := Present(xs);
    if |ys| < MIN_CHANGES then None
    else Some(root(SquaresAround(ys, Mean(ys)) / (|ys| as real - 1.0)))
  }

  function Expanding(xs: seq<Option<real>>, root: Root): (ss: seq<Option<real>>)
    ensures |ss| == |xs|
  {
    seq(|xs|, k requires 0 <= k < |xs| => Spread(xs[..k + 1], root))
  }

  function Shift(xs: seq<Option<real>>): (ys: seq<Option<real>>)
    ensures |ys| == |xs|
  {
    seq(|xs|, k requires 0 <= k < |xs| => if k == 0 then None else xs[k - 1])
  }

  function Clip(x: real): (y: real)
    ensures -BOUND <= y <= BOUND
  {
    Max(-BOUND, Min(BOUND, x))
  }

  function Standardised(change: Option<real>, scale: Option<real>): (y: real)
    ensures -BOUND <= y <= BOUND
  {
    if change.None? || scale.None? then 0.0 else Clip(change.value / Max(scale.value, LEAST_SCALE))
  }

  function Innovations(values: seq<Option<real>>, root: Root): (ys: seq<real>)
    ensures |ys| == |values|
  {
    var changes := Diff(values);
    var scale := Shift(Expanding(changes, root));
    seq(|values|, k requires 0 <= k < |values| => Standardised(changes[k], scale[k]))
  }

  lemma {:induction false} RankInRange(rows: seq<Row>, t: nat)
    requires t < |rows|
    ensures |Released(rows[..t])| + (if Fresh(rows, t) then 1 else 0) == |Released(rows[..t + 1])| <= |Released(rows)|
    decreases |rows|
  {
    var n := |rows| - 1;
    if t < n {
      assert rows[..n][..t] == rows[..t] && rows[..n][..t + 1] == rows[..t + 1];
      RankInRange(rows[..n], t);
      assert Fresh(rows[..n], t) == Fresh(rows, t);
    } else {
      assert rows[..t + 1] == rows;
    }
  }

  /** The innovations put back on the rows of the panel, zero on rows that release nothing. */
  function Pulses(rows: seq<Row>, root: Root): (ps: seq<real>)
    ensures |ps| == |rows|
  {
    var ys := Innovations(Released(rows), root);
    seq(|rows|, t requires 0 <= t < |rows| =>
      if Fresh(rows, t) then (RankInRange(rows, t); ys[|Released(rows[..t])|]) else 0.0)
  }

  // ---------------------------------------------------------------- no look-ahead

  /** The scale of a release is the deviation of the changes before it; its own change is not among them. */
  lemma ScaleIsOfEarlierChanges(values: seq<Option<real>>, root: Root, k: nat)
    requires k < |values|
    ensures Innovations(values, root)[k] ==
      Standardised(Diff(values)[k], if k == 0 then None else Spread(Diff(values)[..k], root))
  {
  }

  lemma DiffOfPrefix(values: seq<Option<real>>, k: nat)
    requires k <= |values|
    ensures Diff(values[..k]) == Diff(values)[..k]
  {
  }

  lemma InnovationsLookBack(values: seq<Option<real>>, values': seq<Option<real>>, root: Root, k: nat)
    requires k < |values| && k < |values'| && values[..k + 1] == values'[..k + 1]
    ensures Innovations(values, root)[k] == Innovations(values', root)[k]
  {
    ScaleIsOfEarlierChanges(values, root, k);
    ScaleIsOfEarlierChanges(values', root, k);
    DiffOfPrefix(values, k + 1);
    DiffOfPrefix(values', k + 1);
    assert Diff(values)[..k + 1][..k] == Diff(values)[..k] && Diff(values)[..k + 1][k] == Diff(values)[k];
    assert Diff(values')[..k + 1][..k] == Diff(values')[..k] && Diff(values')[..k + 1][k] == Diff(values')[k];
  }

  lemma {:induction false} ReleasedGrows(rows: seq<Row>, t: nat)
    requires t <= |rows|
    ensures Released(rows[..t]) <= Released(rows)
    decreases |rows|
  {
    if t < |rows| {
      var n := |rows| - 1;
      assert rows[..n][..t] == rows[..t];
      ReleasedGrows(rows[..n], t);
    } else {
      assert rows[..t] == rows;
    }
  }

  /** The pulse of row t is that of the panel cut off after row t. */
  lemma PulseOfCutPanel(rows: seq<Row>, root: Root, t: nat)
    requires t < |rows|
    ensures Pulses(rows, root)[t] == Pulses(rows[..t + 1], root)[t]
  {
    var cut := rows[..t + 1];
    assert cut[..t] == rows[..t];
    assert Fresh(cut, t) == Fresh(rows, t);
    if Fresh(rows, t) {
      var k := |Released(rows[..t])|;
      RankInRange(rows, t);
      RankInRange(cut, t);
      ReleasedGrows(rows, t + 1);
      assert Released(rows)[..k + 1] == Released(cut)[..k + 1];
      InnovationsLookBack(Released(rows), Released(cut), root, k);
    }
  }

  /** Every pulse depends on the rows up to its own only. */
  lemma PulsesLookOnlyBack(rows: seq<Row>, rows': seq<Row>, root: Root, t: nat)
    requires t < |rows| && t < |rows'| && rows[..t + 1] == rows'[..t + 1]
    ensures Pulses(rows, root)[..t + 1] == Pulses(rows', root)[..t + 1]
  {
    forall k: nat | k <= t ensures Pulses(rows, root)[k] == Pulses(rows', root)[k] {
      assert rows[..k + 1] == rows[..t + 1][..k + 1] && rows'[..k + 1] == rows'[..t + 1][..k + 1];
      PulseOfCutPanel(rows, root, k);
      PulseOfCutPanel(rows', root, k);
    }
  }

  lemma {:induction false} DecayedOfPrefix(
    times: seq<real>, pulse: seq<real>, times': seq<real>, pulse': seq<real>, w: E.Weight, at: real, n: nat)
    requires n <= |times| == |pulse| && n <= |times'| == |pulse'|
    requires times[..n] == times'[..n] && pulse[..n] == pulse'[..n]
    ensures E.Decayed(times, pulse, w, at, n) == E.Decayed(times', pulse', w, at, n)
  {
    if n > 0 {
      assert times[..n][n - 1] == times'[..n][n - 1] && pulse[..n][n - 1] == pulse'[..n][n - 1];
      assert times[..n - 1] == times[..n][..n - 1] && times'[..n - 1] == times'[..n][..n - 1];
      assert pulse[..n - 1] == pulse[..n][..n - 1] && pulse'[..n - 1] == pulse'[..n][..n - 1];
      DecayedOfPrefix(times, pulse, times', pulse', w, at, n - 1);
    }
  }

  /**
   No look-ahead from raw columns to release features: two panels whose times, values and stamps agree up to row t
   have the same innovation and the same decayed innovations at row t.
   */
  lemma ReleaseFeaturesLookOnlyBack(
    times: seq<real>, rows: seq<Row>, times': seq<real>, rows': seq<Row>, root: Root, w: E.Weight, t: nat)
    requires t < |rows| == |times| && t < |rows'| == |times'|
    requires times[..t + 1] == times'[..t + 1] && rows[..t + 1] == rows'[..t + 1]
    ensures Pulses(rows, root)[t] == Pulses(rows', root)[t]
    ensures E.Decayed(times, Pulses(rows, root), w, times[t], t + 1) ==
      E.Decayed(times', Pulses(rows', root), w, times'[t], t + 1)
  {
    PulsesLookOnlyBack(rows, rows', root, t);
    assert Pulses(rows, root)[..t + 1][t] == Pulses(rows', root)[..t + 1][t];
    assert times[..t + 1][t] == times'[..t + 1][t];
    DecayedOfPrefix(times, Pulses(rows, root), times', Pulses(rows', root), w, times[t], t + 1);
  }

  /** The three decay columns: each row holds the running state, which is the closed form. */
  method DecayColumn(times: seq<real>, rows: seq<Row>, root: Root, w: E.Weight) returns (values: seq<real>)
    requires |times| == |rows| && E.Increasing(times) && E.Exponential(w)
    ensures |values| == |times|
    ensures forall t :: 0 <= t < |times| ==> values[t] == E.Decayed(times, Pulses(rows, root), w, times[t], t + 1)
  {
    values := E.RunningDecay(times, Pulses(rows, root), w);
  }
}
