/**
 The volatility multiplier column of KHKT_Evaluation/common/world_bridge.py: macro rows are sampled every few
 rows, looked up once per distinct key and held in between.

 The world model that turns a key into a multiplier is an arbitrary function; None is a value that is
 missing or not finite.
 */
module Multipliers {
  import opened Basics

  datatype Macro = Macro(
    fed: Option<real>, y10: Option<real>, gdp: Option<real>, unemployment: Option<real>,
    vix: Option<real>, spread: Option<real>, highYield: Option<real>)

  /** Python's round: to the nearest integer, ties to the even one. */
  function RoundHalfEven(x: real): (r: int)
    ensures Abs(r as real - x) <= 0.5
    ensures Abs(r as real - x) == 0.5 ==> r % 2 == 0
  {
    var low := x.Floor;
    var part := x - low as real;
    if part < 0.5 || (part == 0.5 && low % 2 == 0) then low else low + 1
  }

  function Rounded(x: Option<real>, scale: real): Option<real>
    requires scale > 0.0
  {
    if x.None? then None else Some(RoundHalfEven(x.value * scale) as real / scale)
  }

  /** The memo key: three decimals, two for the volatility index. */
  function Key(m: Macro): Macro {
    Macro(Rounded(m.fed, 1000.0), Rounded(m.y10, 1000.0), Rounded(m.gdp, 1000.0), Rounded(m.unemployment, 1000.0),
          Rounded(m.vix, 100.0), Rounded(m.spread, 1000.0), Rounded(m.highYield, 1000.0))
  }

  function Step(sampleEvery: int): (step: nat)
    ensures step >= 1
  {
    MaxInt(1, sampleEvery)
  }

  /** The row whose macro values row i uses. */
  function SampledRow(i: nat, sampleEvery: int): (j: nat)
    ensures j <= i < j + Step(sampleEvery)
  {
    var step := Step(sampleEvery);
    ModBounds(i, step);
    i - i % step
  }

  function HeldMultipliers(
    rows: seq<Macro>, sampleEvery: int, multiplier: Macro -> Option<real>): (out: seq<Option<real>>)
    ensures |out| == |rows|
  {
    seq(|rows|, i requires 0 <= i < |rows| => multiplier(Key(rows[SampledRow(i, sampleEvery)])))
  }

  lemma ModBounds(i: nat, step: nat)
    requires step >= 1
    ensures 0 <= i % step < step && i % step <= i
  {
    if i < step {
      assert i / step == 0;
    }
  }

  /** Between two multiples of step there is none. */
  lemma NextMultiple(i: nat, step: nat, k: nat)
    requires step >= 1 && i % step == 0 && i < k <= i + step
    ensures k % step == if k == i + step then 0 else k - i
  {
    var q := i / step;
    assert i == step * q;
    if k == i + step {
      assert k == step * (q + 1);
      ModUnique(k, step, q + 1, 0);
    } else {
      ModUnique(k, step, q, k - i);
    }
  }

  lemma ModUnique(k: nat, step: nat, q: nat, r: nat)
    requires r < step && k == step * q + r
    ensures k % step == r
  {
    var d := k / step - q;
    assert step * d == r - k % step;
    AtLeastOneStep(step, d);
  }

  lemma AtLeastOneStep(step: nat, d: int)
    ensures d >= 1 ==> step * d >= step
    ensures d <= -1 ==> step * d <= -(step as int)
  {
  }

  predicate IsSampled(i: nat, sampleEvery: int) {
    i % Step(sampleEvery) == 0
  }

  /** A row that is not sampled itself uses the sample of the row before it. */
  lemma HeldFromBefore(i: nat, sampleEvery: int)
    ensures IsSampled(i, sampleEvery) ==> SampledRow(i, sampleEvery) == i
    ensures !IsSampled(i, sampleEvery) ==> i >= 1 && SampledRow(i, sampleEvery) == SampledRow(i - 1, sampleEvery)
  {
    var step := Step(sampleEvery);
    ModBounds(i, step);
    if i % step != 0 {
      ModUnique(i - 1, step, i / step, i % step - 1);
    }
  }

  /** Every row gets the multiplier of its sampled row; the cache and the hold change nothing. */
  method VolMultipliers(rows: seq<Macro>, sampleEvery: int, multiplier: Macro -> Option<real>)
    returns (out: array<Option<real>>)
    ensures fresh(out) && out[..] == HeldMultipliers(rows, sampleEvery, multiplier)
  {
    var n := |rows|;
    out := new Option<real>[n](_ => Some(1.0));
    var cache: map<Macro, Option<real>> := map[];
    var step := Step(sampleEvery);
    var i := 0;
    while i < n
      invariant 0 <= i && IsSampled(i, sampleEvery)
      invariant forall k :: 0 <= k < n && k < i && IsSampled(k, sampleEvery) ==> out[k] == multiplier(Key(rows[k]))
      invariant forall key :: key in cache ==> cache[key] == multiplier(key)
    {
      var key := Key(rows[i]);
      if key !in cache {
        cache := cache[key := multiplier(key)];
      }
      out[i] := cache[key];
      forall k | i < k <= i + step ensures IsSampled(k, sampleEvery) <==> k == i + step {
        NextMultiple(i, step, k);
      }
      i := i + step;
    }
    HoldSamples(rows, sampleEvery, multiplier, out);
  }

  /** The second loop: rows between samples repeat the last one. */
  method HoldSamples(rows: seq<Macro>, sampleEvery: int, multiplier: Macro -> Option<real>, out: array<Option<real>>)
    requires out.Length == |rows|
    requires forall k :: 0 <= k < |rows| && IsSampled(k, sampleEvery) ==> out[k] == multiplier(Key(rows[k]))
    modifies out
    ensures out[..] == HeldMultipliers(rows, sampleEvery, multiplier)
  {
    ghost var held := HeldMultipliers(rows, sampleEvery, multiplier);
    var last := if |rows| > 0 then out[0] else Some(1.0);
    for i := 0 to |rows|
      invariant forall k :: 0 <= k < i ==> out[k] == held[k]
      invariant forall k :: i <= k < |rows| && IsSampled(k, sampleEvery) ==> out[k] == multiplier(Key(rows[k]))
      invariant i > 0 ==> last == held[i - 1]
    {
      HeldFromBefore(i, sampleEvery);
      if IsSampled(i, sampleEvery) {
        last := out[i];
      } else {
        out[i] := last;
      }
    }
  }
}
