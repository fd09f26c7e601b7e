/** What the Sentinel guarantees over whole runs of fills, tickers, directives, syncs and operator calls. */
module SentinelRuns {
  import opened Basics
  import opened SentinelManager
  import L = Ledger
  import C = CircuitBreakers
  import V = ValueAtRisk
  import M = Metrics

  datatype Event =
    | Filled(fill: L.Fill)
    | Ticked(symbol: string, price: L.Field, beat: Heartbeat)
    | Directed(maxDrawdown: L.Field, varLimit: L.Field, latencyLimit: L.Field)
    | CapitalSynced(base: real)
    | WalletSynced(equity: real, unrealized: real, symbols: seq<string>, positions: map<string, L.Position>)
    | OperatorReset
    | Cycled(monteCarlo: V.Risk)
    | ModeRead
    | Paused(on: bool)

  datatype Stamped = At(now: real, event: Event)

  function Step(c: Config, s: State, e: Stamped): State
    requires c.Valid()
  {
    match e.event
    case Filled(f) => OnFill(c, s, f, e.now)
    case Ticked(symbol, price, beat) => OnTicker(c, s, symbol, price, beat, e.now)
    case Directed(dd, vl, ll) => OnDirective(c, s, dd, vl, ll)
    case CapitalSynced(base) => OnCapitalSync(s, base)
    case WalletSynced(eq, upnl, symbols, positions) => OnWalletSync(s, eq, upnl, symbols, positions)
    case OperatorReset => Reset(s)
    case Cycled(mc) => Cycle(c, s, mc, e.now)
    case ModeRead => s.(breaker := C.Observe(c.Breaker(), s.breaker, e.now))
    case Paused(on) => s.(paused := on)
  }

  function Run(c: Config, s: State, es: seq<Stamped>): State
    requires c.Valid()
  {
    if es == [] then s else Step(c, Run(c, s, es[..|es| - 1]), es[|es| - 1])
  }

  function After(c: Config, es: seq<Stamped>): State
    requires c.Valid()
  {
    Run(c, Initial(c), es)
  }

  lemma {:induction false} RunAppend(c: Config, s: State, es: seq<Stamped>, fs: seq<Stamped>)
    requires c.Valid()
    ensures Run(c, s, es + fs) == Run(c, Run(c, s, es), fs)
  {
    if fs == [] {
      assert es + fs == es;
    } else {
      var n := |fs| - 1;
      RunAppend(c, s, es, fs[..n]);
      assert (es + fs)[..|es + fs| - 1] == es + fs[..n];
    }
  }

  /** The event makes the Sentinel recompute its equity. */
  predicate Revalues(e: Event) {
    || (e.Filled? && L.Decode(e.fill).Matched?)
    || (e.Ticked? && e.price.Num? && !e.beat.BadStamp?)
  }

  /** What a revaluation does, field by field. */
  lemma RevalueEffect(c: Config, s: State, now: real)
    ensures var s' := Revalue(c, s, now);
      && s'.capital == s.capital && s'.books == s.books && s'.paused == s.paused && s'.softBreach == s.softBreach
      && s'.maxDrawdown == s.maxDrawdown && s'.varLimit == s.varLimit && s'.latencyLimit == s.latencyLimit
      && s'.equity == L.Equity(s.capital, s.books) && s'.peak == Max(s.peak, s'.equity)
      && (Drawdown(s'.peak, s'.equity) >= s.maxDrawdown ==> s'.frozen)
      && (if !s.frozen && s'.frozen
          then s'.unfreezeAt == now + c.cooldown && s'.breaker == C.OnTrip(c.Breaker(), s.breaker, DRAWDOWN_CAUSE, now)
          else s'.frozen == s.frozen && s'.unfreezeAt == s.unfreezeAt && s'.breaker == s.breaker)
  {
  }

  /** The state a revaluing event hands to the revaluation. */
  function Prepared(c: Config, s: State, e: Stamped): State
    requires Revalues(e.event)
  {
    match e.event
    case Filled(f) => s.(books := L.Apply(s.books, L.Decode(f).trade))
    case Ticked(symbol, price, beat) =>
      Beat(c, s.(books := L.Remark(s.books, L.Upper(symbol), price.value)), beat, e.now)
  }

  lemma RevaluingStep(c: Config, s: State, e: Stamped)
    requires c.Valid() && Revalues(e.event)
    ensures Step(c, s, e) == Revalue(c, Prepared(c, s, e), e.now)
    ensures Prepared(c, s, e) == s.(books := Prepared(c, s, e).books, breaker := Prepared(c, s, e).breaker)
  {
    RevalueEffect(c, Prepared(c, s, e), e.now);
  }

  // ---------------------------------------------------------------- thresholds

  predicate InEnvelope(limit: real, baseline: real, lo: real, hi: real) {
    if baseline >= 0.0 then Times(lo, baseline) <= limit <= Times(hi, baseline) else limit < 0.0
  }

  predicate LimitsInEnvelope(c: Config, s: State) {
    && InEnvelope(s.maxDrawdown, c.maxDrawdown, 0.3, 1.0)
    && InEnvelope(s.varLimit, c.varLimit, 0.3, 1.0)
    && InEnvelope(s.latencyLimit, c.latencyLimit, 0.5, 1.5)
  }

  lemma OnlyDirectivesMoveLimits(c: Config, s: State, e: Stamped)
    requires c.Valid() && !e.event.Directed?
    ensures var s' := Step(c, s, e);
      s'.maxDrawdown == s.maxDrawdown && s'.varLimit == s.varLimit && s'.latencyLimit == s.latencyLimit
  {
    if Revalues(e.event) {
      RevaluingStep(c, s, e);
      RevalueEffect(c, Prepared(c, s, e), e.now);
    }
  }

  /** Directives keep each limit in its envelope around the operator's baseline. */
  lemma {:induction false} LimitsStayInEnvelope(c: Config, es: seq<Stamped>)
    requires c.Valid()
    ensures LimitsInEnvelope(c, After(c, es))
  {
    if es != [] {
      var n := |es| - 1;
      LimitsStayInEnvelope(c, es[..n]);
      if es[n].event.Directed? {
        assert After(c, es) == Step(c, After(c, es[..n]), es[n]);
      } else {
        OnlyDirectivesMoveLimits(c, After(c, es[..n]), es[n]);
      }
    }
  }

  /**
   Whatever directives came before, a processed fill or ticker that leaves the drawdown at or above the
   operator's baseline leaves the Sentinel frozen.
   */
  lemma BaselineDrawdownFreezes(c: Config, es: seq<Stamped>)
    requires c.Valid() && es != [] && Revalues(es[|es| - 1].event)
    ensures var s := After(c, es); Drawdown(s.peak, s.equity) >= c.maxDrawdown ==> s.frozen
  {
    var n := |es| - 1;
    LimitsStayInEnvelope(c, es[..n]);
    RevaluingGoverns(c, After(c, es[..n]), es[n]);
  }

  lemma RevaluingGoverns(c: Config, s: State, e: Stamped)
    requires c.Valid() && Revalues(e.event)
    ensures var s' := Step(c, s, e); Drawdown(s'.peak, s'.equity) >= s.maxDrawdown ==> s'.frozen
  {
    RevaluingStep(c, s, e);
    RevalueEffect(c, Prepared(c, s, e), e.now);
  }

  // ---------------------------------------------------------------- freezing

  predicate ResetFree(es: seq<Stamped>) {
    forall k :: 0 <= k < |es| ==> !es[k].event.OperatorReset?
  }

  predicate AllBefore(es: seq<Stamped>, deadline: real) {
    forall k :: 0 <= k < |es| ==> es[k].now < deadline
  }

  /** Without an operator reset the freeze itself lasts until its deadline. */
  lemma {:induction false} FreezeLasts(c: Config, s: State, es: seq<Stamped>)
    requires c.Valid() && s.frozen && ResetFree(es) && AllBefore(es, s.unfreezeAt)
    ensures Run(c, s, es).frozen && Run(c, s, es).unfreezeAt == s.unfreezeAt
  {
    if es != [] {
      var n := |es| - 1;
      FreezeLasts(c, s, es[..n]);
      StepKeepsFreeze(c, Run(c, s, es[..n]), es[n]);
    }
  }

  lemma StepKeepsFreeze(c: Config, s: State, e: Stamped)
    requires c.Valid() && s.frozen && !e.event.OperatorReset? && e.now < s.unfreezeAt
    ensures Step(c, s, e).frozen && Step(c, s, e).unfreezeAt == s.unfreezeAt
  {
    if Revalues(e.event) {
      RevaluingStep(c, s, e);
      RevalueEffect(c, Prepared(c, s, e), e.now);
    }
  }

  /** Operator resets included, a breaker opened at t stays OPEN until t + cooldown. */
  lemma {:induction false} OpenBreakerLasts(c: Config, s: State, es: seq<Stamped>, t: real)
    requires c.Valid() && s.breaker.state.OPEN? && s.breaker.openedAt == Some(t)
    requires AllBefore(es, t + c.cooldown)
    ensures Run(c, s, es).breaker.state.OPEN? && Run(c, s, es).breaker.openedAt == Some(t)
  {
    if es != [] {
      var n := |es| - 1;
      OpenBreakerLasts(c, s, es[..n], t);
      StepKeepsOpenBreaker(c, Run(c, s, es[..n]), es[n], t);
    }
  }

  lemma StepKeepsOpenBreaker(c: Config, s: State, e: Stamped, t: real)
    requires c.Valid() && s.breaker.state.OPEN? && s.breaker.openedAt == Some(t) && e.now < t + c.cooldown
    ensures Step(c, s, e).breaker.state.OPEN? && Step(c, s, e).breaker.openedAt == Some(t)
  {
    if Revalues(e.event) {
      RevaluingStep(c, s, e);
      var p := Prepared(c, s, e);
      assert p.breaker.state.OPEN? && p.breaker.openedAt == Some(t);
      RevalueEffect(c, p, e.now);
    }
  }

  /** An event at which the Sentinel freezes. */
  predicate Freezes(c: Config, s: State, e: Stamped)
    requires c.Valid()
  {
    !s.frozen && Step(c, s, e).frozen
  }

  lemma FreezeTripsBreaker(c: Config, s: State, e: Stamped)
    requires c.Valid() && Freezes(c, s, e)
    ensures var s' := Step(c, s, e);
      && s'.unfreezeAt == e.now + c.cooldown
      && s'.breaker.state.OPEN?
      && (s.breaker.state.OPEN? || s'.breaker.openedAt == Some(e.now))
  {
    assert Revalues(e.event);
    RevaluingStep(c, s, e);
    RevalueEffect(c, Prepared(c, s, e), e.now);
  }

  /**
   Once frozen at time t the resolved mode is FROZEN at every moment before t + cooldown, unless the
   operator resets; and even if the operator resets, provided the freeze found the breaker not already
   OPEN, because the reset re-arms the freeze but not the breaker it tripped.
   */
  lemma FrozenModeLasts(c: Config, before: seq<Stamped>, e: Stamped, later: seq<Stamped>, now: real)
    requires c.Valid() && Freezes(c, After(c, before), e)
    requires ResetFree(later) || !After(c, before).breaker.state.OPEN?
    requires AllBefore(later, e.now + c.cooldown) && now < e.now + c.cooldown
    ensures ModeAt(c, After(c, before + [e] + later), now) == FROZEN
  {
    var s := After(c, before);
    var s' := Step(c, s, e);
    RunAppend(c, Initial(c), before, [e]);
    assert [e][..0] == [];
    assert Run(c, s, [e]) == Step(c, Run(c, s, []), e);
    RunAppend(c, Initial(c), before + [e], later);
    FreezeTripsBreaker(c, s, e);
    if ResetFree(later) {
      FreezeLasts(c, s', later);
    } else {
      OpenBreakerLasts(c, s', later, e.now);
    }
  }

  /**
   An operator reset does not lift FROZEN by itself: right after it the mode is FROZEN exactly when the
   breaker is still OPEN and its own cooldown has not elapsed.
   */
  lemma ResetLiftsOnlyTheFreeze(c: Config, s: State, now: real)
    ensures ModeAt(c, Reset(s), now) == FROZEN <==>
      s.breaker.state.OPEN? && (s.breaker.openedAt.None? || now - s.breaker.openedAt.value < c.cooldown)
  {
  }

  const COIN := "BTC"

  /** One unit bought with the whole capital. */
  function BuyOne(c: Config): L.Fill {
    L.Fill(None, Some(COIN), Some("LONG"), L.Num(1.0), L.Num(c.startingCapital), L.Absent)
  }

  lemma BuyDecodes(c: Config)
    ensures L.Upper(COIN) == COIN
    ensures L.Decode(BuyOne(c)) == L.Matched(L.Trade(COIN, true, false, 1.0, c.startingCapital, 0.0))
  {
    assert L.Upper(COIN) == COIN;
    assert "LONG" <= "LONG" && !L.EndsWith("LONG", "CLOSE");
  }

  lemma Bought(c: Config, t: real)
    requires c.Valid() && c.startingCapital > 0.0 && c.maxDrawdown > 0.0
    ensures var k, s := c.startingCapital, Step(c, Initial(c), At(t, Filled(BuyOne(c))));
      && s.books == L.OneSymbol(COIN, L.Position(1.0, k), k) && s.capital == k && s.peak == k
      && s.maxDrawdown == c.maxDrawdown && !s.frozen && !s.breaker.state.OPEN?
  {
    var k := c.startingCapital;
    BuyDecodes(c);
    L.FirstBuyIsBooked(COIN, k);
    L.OneUnitGain(COIN, k, k);
    assert Drawdown(k, k) == 0.0;
  }

  /** A ticker that wipes the position out. */
  lemma CrashFreezes(c: Config, s: State, t: real)
    requires c.Valid() && c.startingCapital > 0.0 && c.maxDrawdown <= 1.0
    requires var k := c.startingCapital;
      && s.books == L.OneSymbol(COIN, L.Position(1.0, k), k) && s.capital == k && s.peak == k
      && s.maxDrawdown == c.maxDrawdown && !s.frozen
    ensures Freezes(c, s, At(t, Ticked(COIN, L.Num(0.0), NoStamp)))
  {
    var k := c.startingCapital;
    BuyDecodes(c);
    assert map[COIN := k][COIN := 0.0] == map[COIN := 0.0];
    assert L.Remark(s.books, COIN, 0.0) == L.OneSymbol(COIN, L.Position(1.0, k), 0.0);
    L.OneUnitGain(COIN, k, 0.0);
    assert Drawdown(k, 0.0) == 1.0;
  }

  lemma ThawedByReset(c: Config, es: seq<Stamped>)
    requires c.Valid() && es != [] && es[|es| - 1].event.OperatorReset?
    ensures !After(c, es).frozen
  {
  }

  lemma AfterBuying(c: Config, buy: Stamped)
    requires c.Valid()
    ensures After(c, [buy]) == Step(c, Initial(c), buy)
  {
    assert [buy][..0] == [];
    assert Run(c, Initial(c), []) == Initial(c);
  }

  /** A buy, a crash and an operator reset: the freeze is gone and the mode is FROZEN all the same. */
  lemma ResetAfterFreezeStaysFrozen(c: Config, t: real, now: real) returns (es: seq<Stamped>)
    requires c.Valid() && c.startingCapital > 0.0 && 0.0 < c.maxDrawdown <= 1.0 && c.cooldown > 0.0
    requires now < t + c.cooldown
    ensures es != [] && es[|es| - 1] == At(t, OperatorReset)
    ensures !After(c, es).frozen && ModeAt(c, After(c, es), now) == FROZEN
  {
    var buy, crash := At(t, Filled(BuyOne(c))), At(t, Ticked(COIN, L.Num(0.0), NoStamp));
    AfterBuying(c, buy);
    Bought(c, t);
    CrashFreezes(c, After(c, [buy]), t);
    FrozenModeLasts(c, [buy], crash, [At(t, OperatorReset)], now);
    es := [buy] + [crash] + [At(t, OperatorReset)];
    ThawedByReset(c, es);
  }

  /** The first unpaused pass of the loop at or after the deadline lifts the freeze and the drawdown. */
  lemma CycleRearms(c: Config, s: State, monteCarlo: V.Risk, now: real)
    requires c.Valid() && s.frozen && !s.paused
    ensures var s' := Cycle(c, s, monteCarlo, now);
      && (s'.frozen <==> now < s.unfreezeAt)
      && (!s'.frozen ==> Drawdown(s'.peak, s'.equity) == 0.0)
  {
  }

  // ---------------------------------------------------------------- the VaR brake

  /**
   After an unpaused pass REDUCE_ONLY is requested exactly when at least MIN_SAMPLES portfolio returns
   are buffered and their historical VaR, scaled to the horizon, exceeds the limit; the Monte-Carlo draw
   never decides.
   */
  lemma SoftBreachIsHistorical(c: Config, s: State, draw: V.Risk, other: V.Risk, now: real)
    requires c.Valid() && !s.paused
    ensures Cycle(c, s, draw, now).softBreach <==>
      |s.buffer| >= V.MIN_SAMPLES &&
      V.HistoricalVar(V.Scale(c.scale, s.buffer), c.confidence).valueAtRisk > s.varLimit
    ensures Cycle(c, s, draw, now) == Cycle(c, s, other, now)
  {
    V.RiskScales(s.buffer, c.scale, c.confidence);
  }

  // ---------------------------------------------------------------- peak and drawdown

  /** The event restarts the peak from the current equity. */
  predicate Rebases(s: State, e: Stamped) {
    match e.event
    case OperatorReset => true
    case Cycled(_) => !s.paused && s.frozen && e.now >= s.unfreezeAt
    case CapitalSynced(base) => s.books.symbols == [] && base > 0.0
    case _ => false
  }

  predicate MovesEquity(e: Event) {
    Revalues(e) || (e.WalletSynced? && e.equity > 0.0)
  }

  /** Rebases set the peak to the equity, other moves of the equity raise it, nothing else touches either. */
  lemma StepMovesPeak(c: Config, s: State, e: Stamped)
    requires c.Valid()
    ensures var s' := Step(c, s, e);
      && (Rebases(s, e) ==> s'.peak == s'.equity)
      && (!Rebases(s, e) && MovesEquity(e.event) ==> s'.peak == Max(s.peak, s'.equity))
      && (!Rebases(s, e) && !MovesEquity(e.event) ==> s'.peak == s.peak && s'.equity == s.equity)
  {
    if Revalues(e.event) {
      RevaluingStep(c, s, e);
      RevalueEffect(c, Prepared(c, s, e), e.now);
    }
  }

  lemma {:induction false} PeakCoversEquity(c: Config, es: seq<Stamped>)
    requires c.Valid()
    ensures After(c, es).equity <= After(c, es).peak
  {
    if es != [] {
      var n := |es| - 1;
      PeakCoversEquity(c, es[..n]);
      StepMovesPeak(c, After(c, es[..n]), es[n]);
    }
  }

  /** The equity values since the last rebase, that one included. */
  function Curve(c: Config, es: seq<Stamped>): (curve: seq<real>)
    requires c.Valid()
    ensures curve != []
  {
    if es == [] then [c.startingCapital]
    else
      var before := es[..|es| - 1];
      var e := es[|es| - 1];
      if Rebases(After(c, before), e) then [After(c, es).equity]
      else if MovesEquity(e.event) then Curve(c, before) + [After(c, es).equity]
      else Curve(c, before)
  }

  /** The worst drawdown the Sentinel has seen since the last rebase. */
  function Worst(c: Config, es: seq<Stamped>): real
    requires c.Valid()
  {
    if es == [] then 0.0
    else
      var before := es[..|es| - 1];
      var s := After(c, es);
      if Rebases(After(c, before), es[|es| - 1]) then 0.0
      else Max(Worst(c, before), Drawdown(s.peak, s.equity))
  }

  lemma {:induction false} PeakIsCurvePeak(c: Config, es: seq<Stamped>)
    requires c.Valid()
    ensures var curve, s := Curve(c, es), After(c, es);
      curve != [] && curve[|curve| - 1] == s.equity && M.Peaks(curve)[|curve| - 1] == s.peak
  {
    if es == [] {
      assert [c.startingCapital][..0] == [];
    } else {
      var n := |es| - 1;
      PeakIsCurvePeak(c, es[..n]);
      var s := After(c, es);
      StepMovesPeak(c, After(c, es[..n]), es[n]);
      M.PeaksExtend(Curve(c, es[..n]), s.equity);
      assert [s.equity][..0] == [];
    }
  }

  /** The Sentinel's drawdown is the evaluation's exactly at its peak or when the peak clears the floor. */
  lemma DrawdownIsFallExactlyWhen(peak: real, equity: real)
    requires equity <= peak
    ensures Drawdown(peak, equity) == M.Fall(peak, equity) <==> peak >= M.FLOOR || equity == peak
  {
    M.FallSign(peak, equity);
    var fall := peak - equity;
    if peak <= 0.0 {
      SameQuotient(fall, M.FLOOR);
    } else if peak < M.FLOOR {
      SameDenominator(fall, peak, M.FLOOR);
    }
  }

  lemma SameQuotient(x: real, d: real)
    requires d > 0.0
    ensures x / d == 0.0 <==> x == 0.0
  {
  }

  lemma SameDenominator(x: real, p: real, q: real)
    requires 0.0 < p < q && x >= 0.0
    ensures Max(0.0, x / p) == x / q <==> x == 0.0
  {
    if x > 0.0 {
      M.CrossDivideStrictly(x, q, x, p);
    }
  }

  /** Row k is at its peak, or the peak clears the evaluation's floor. */
  predicate ComparableAt(curve: seq<real>, k: nat)
    requires k < |curve|
  {
    M.Peaks(curve)[k] >= M.FLOOR || curve[k] == M.Peaks(curve)[k]
  }

  predicate Comparable(curve: seq<real>) {
    forall k :: 0 <= k < |curve| ==> ComparableAt(curve, k)
  }

  /** The two definitions give the same drawdown at every row of a curve exactly when it is comparable. */
  lemma RowsAgreeExactlyWhenComparable(curve: seq<real>)
    ensures (forall k :: 0 <= k < |curve| ==> Drawdown(M.Peaks(curve)[k], curve[k]) == M.Falls(curve)[k])
      <==> Comparable(curve)
  {
    forall k | 0 <= k < |curve|
      ensures Drawdown(M.Peaks(curve)[k], curve[k]) == M.Falls(curve)[k] <==> ComparableAt(curve, k)
    {
      M.PeakIsPrefixMaximum(curve, k);
      DrawdownIsFallExactlyWhen(M.Peaks(curve)[k], curve[k]);
    }
  }

  lemma CurvesAboveFloorAreComparable(curve: seq<real>)
    requires curve != [] && curve[0] >= M.FLOOR
    ensures Comparable(curve)
  {
    forall k | 0 <= k < |curve| ensures ComparableAt(curve, k) {
      M.PeakIsPrefixMaximum(curve, k);
    }
  }

  lemma ComparableBefore(curve: seq<real>, x: real)
    requires curve != [] && Comparable(curve + [x])
    ensures Comparable(curve)
  {
    M.PeaksExtend(curve, x);
    forall k | 0 <= k < |curve| ensures ComparableAt(curve, k) {
      assert ComparableAt(curve + [x], k);
    }
  }

  /**
   Between rebases the Sentinel's online drawdown is the evaluation's: on a comparable equity curve the worst
   one it has seen is the curve's maximum drawdown.
   */
  lemma {:induction false} OnlineDrawdownIsCurveDrawdown(c: Config, es: seq<Stamped>)
    requires c.Valid()
    ensures Comparable(Curve(c, es)) ==> M.MaxDrawdown(Curve(c, es)) == Some(Worst(c, es))
  {
    if es == [] {
      SingletonDrawdown(c.startingCapital);
    } else if Comparable(Curve(c, es)) {
      var n := |es| - 1;
      var s := After(c, es);
      PeakIsCurvePeak(c, es);
      if Rebases(After(c, es[..n]), es[n]) {
        SingletonDrawdown(s.equity);
      } else {
        PeakCoversEquity(c, es);
        var curve := Curve(c, es[..n]);
        if MovesEquity(es[n].event) {
          ComparableBefore(curve, s.equity);
          assert ComparableAt(curve + [s.equity], |curve|);
          CurveDrawdownExtends(curve, s.equity, s.peak);
        } else {
          assert ComparableAt(curve, |curve| - 1);
          LastFallCounts(curve, s.equity, s.peak);
          StepMovesPeak(c, After(c, es[..n]), es[n]);
        }
        OnlineDrawdownIsCurveDrawdown(c, es[..n]);
      }
    }
  }

  /** So it is for every curve that starts at the floor or above. */
  lemma OnlineDrawdownAboveFloor(c: Config, es: seq<Stamped>)
    requires c.Valid() && Curve(c, es)[0] >= M.FLOOR
    ensures M.MaxDrawdown(Curve(c, es)) == Some(Worst(c, es))
  {
    CurvesAboveFloorAreComparable(Curve(c, es));
    OnlineDrawdownIsCurveDrawdown(c, es);
  }

  lemma SingletonDrawdown(x: real)
    ensures M.MaxDrawdown([x]) == Some(0.0)
  {
    assert [x][..0] == [];
    assert M.Peaks([x]) == [x];
    assert M.Fall(x, x) == 0.0;
    assert M.Falls([x]) == [0.0];
  }

  lemma LastFallCounts(curve: seq<real>, equity: real, peak: real)
    requires curve != [] && curve[|curve| - 1] == equity && M.Peaks(curve)[|curve| - 1] == peak
    requires equity <= peak && (peak >= M.FLOOR || equity == peak)
    ensures Drawdown(peak, equity) <= M.MaxDrawdown(curve).value
  {
    DrawdownIsFallExactlyWhen(peak, equity);
    assert M.Falls(curve)[|curve| - 1] == M.Fall(peak, equity);
  }

  lemma CurveDrawdownExtends(curve: seq<real>, equity: real, peak: real)
    requires curve != [] && peak == M.Peaks(curve + [equity])[|curve|]
    requires equity <= peak && (peak >= M.FLOOR || equity == peak)
    ensures M.MaxDrawdown(curve + [equity]).value == Max(M.MaxDrawdown(curve).value, Drawdown(peak, equity))
  {
    DrawdownIsFallExactlyWhen(peak, equity);
    M.FallsExtend(curve, equity);
    M.MaximumExtends(M.Falls(curve), M.Fall(peak, equity));
  }

  // ---------------------------------------------------------------- equity

  predicate AddsUp(s: State) {
    s.equity == s.capital + s.books.realized + s.unrealized && s.prevEquity == s.equity
  }

  /** Over any run, syncs included, equity is capital plus realised plus unrealised, and the next return's base. */
  lemma {:induction false} EquityAlwaysAddsUp(c: Config, es: seq<Stamped>)
    requires c.Valid()
    ensures AddsUp(After(c, es))
  {
    if es != [] {
      var n := |es| - 1;
      EquityAlwaysAddsUp(c, es[..n]);
      StepAddsUp(c, After(c, es[..n]), es[n]);
    }
  }

  lemma StepAddsUp(c: Config, s: State, e: Stamped)
    requires c.Valid() && AddsUp(s)
    ensures AddsUp(Step(c, s, e))
  {
    if Revalues(e.event) {
      RevaluingStep(c, s, e);
      RevalueAddsUp(c, Prepared(c, s, e), e.now);
    } else if !e.event.CapitalSynced? && !e.event.WalletSynced? {
      QuietStep(c, s, e);
    }
  }

  /** What neither revalues nor synchronises moves no money. */
  lemma QuietStep(c: Config, s: State, e: Stamped)
    requires c.Valid() && !Revalues(e.event) && !e.event.CapitalSynced? && !e.event.WalletSynced?
    ensures var s' := Step(c, s, e);
      && s'.equity == s.equity && s'.prevEquity == s.prevEquity && s'.capital == s.capital
      && s'.unrealized == s.unrealized && s'.books.realized == s.books.realized
  {
  }

  lemma RevalueAddsUp(c: Config, s: State, now: real)
    ensures AddsUp(Revalue(c, s, now))
  {
    assert AddsUp(Valued(c, s));
  }

  predicate SyncFree(es: seq<Stamped>) {
    forall k :: 0 <= k < |es| ==> !es[k].event.CapitalSynced? && !es[k].event.WalletSynced?
  }

  /** The run as the ledger sees it. */
  function MarketEvents(es: seq<Stamped>): seq<L.Event> {
    if es == [] then []
    else
      var rest, e := MarketEvents(es[..|es| - 1]), es[|es| - 1].event;
      if e.Filled? then rest + [L.Filled(e.fill)]
      else if e.Ticked? && e.price.Num? then rest + [L.Ticked(e.symbol, e.price.value)]
      else rest
  }

  lemma {:induction false} BooksFollowLedger(c: Config, es: seq<Stamped>)
    requires c.Valid() && SyncFree(es)
    ensures After(c, es).books == L.BooksAfter(MarketEvents(es))
    ensures After(c, es).capital == c.startingCapital
  {
    if es != [] {
      var n := |es| - 1;
      BooksFollowLedger(c, es[..n]);
      StepBooks(c, After(c, es[..n]), es[n]);
      var rest := MarketEvents(es[..n]);
      var m := MarketEvents(es);
      if m != rest {
        assert m[..|m| - 1] == rest;
      }
    }
  }

  function BooksAfterEvent(b: L.Books, e: Event): L.Books {
    match e
    case Filled(f) => L.Book(b, L.Filled(f))
    case Ticked(symbol, price, _) => if price.Num? then L.Book(b, L.Ticked(symbol, price.value)) else b
    case _ => b
  }

  lemma StepBooks(c: Config, s: State, e: Stamped)
    requires c.Valid() && !e.event.CapitalSynced? && !e.event.WalletSynced?
    ensures Step(c, s, e).capital == s.capital
    ensures Step(c, s, e).books == BooksAfterEvent(s.books, e.event)
  {
    if Revalues(e.event) {
      RevaluingStep(c, s, e);
      RevalueEffect(c, Prepared(c, s, e), e.now);
    }
  }

  /**
   The published equity is execution truth: after any processed fill or ticker of a run whose fills were
   all faithful, it equals the exchange's cash plus the holdings at the mark.
   */
  lemma EquityIsExecutionTruth(c: Config, es: seq<Stamped>)
    requires c.Valid() && SyncFree(es) && es != [] && Revalues(es[|es| - 1].event)
    requires L.AlwaysFaithful(MarketEvents(es))
    ensures var s, x := After(c, es), L.AccountAfter(c.startingCapital, MarketEvents(es));
      s.equity == x.cash + L.Worth(s.books.symbols, x, s.books.marks)
  {
    BooksFollowLedger(c, es);
    L.EquityIdentity(c.startingCapital, MarketEvents(es));
    EquityIsFresh(c, es);
  }

  lemma EquityIsFresh(c: Config, es: seq<Stamped>)
    requires c.Valid() && es != [] && Revalues(es[|es| - 1].event)
    ensures var s := After(c, es); s.equity == L.Equity(s.capital, s.books)
  {
    var n := |es| - 1;
    RevaluingStep(c, After(c, es[..n]), es[n]);
    RevalueEffect(c, Prepared(c, After(c, es[..n]), es[n]), es[n].now);
  }
}
