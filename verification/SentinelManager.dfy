/**
 The risk governor of sentinel/manager.py: it replays fills into the ledger, revalues on every fill and
 ticker, freezes on drawdown, and resolves one system mode from the freeze, the VaR breach and the
 breaker.

 Monotonic time, the latency reading and the Monte-Carlo draw are parameters.
 */
module SentinelManager {
  import opened Basics
  import L = Ledger
  import C = CircuitBreakers
  import V = ValueAtRisk

  datatype SystemMode = NORMAL | REDUCE_ONLY | FROZEN

  datatype Config = Config(
    startingCapital: real,
    maxDrawdown: real,
    varLimit: real,
    latencyLimit: real,
    cooldown: real,
    window: nat,
    scale: real,
    confidence: real)
  {
    ghost predicate Valid() {
      scale > 0.0 && V.Confidence(confidence)
    }

    function Breaker(): C.Config {
      C.Config(3, cooldown, true)
    }
  }

  datatype State = State(
    capital: real,
    maxDrawdown: real,
    varLimit: real,
    latencyLimit: real,
    buffer: seq<real>,
    breaker: C.Breaker,
    books: L.Books,
    unrealized: real,
    equity: real,
    prevEquity: real,
    peak: real,
    softBreach: bool,
    frozen: bool,
    unfreezeAt: real,
    paused: bool)

  function Initial(c: Config): State {
    State(c.startingCapital, c.maxDrawdown, c.varLimit, c.latencyLimit, [], C.FRESH, L.EMPTY, 0.0,
          c.startingCapital, c.startingCapital, c.startingCapital, false, false, 0.0, false)
  }

  // ---------------------------------------------------------------- one event

  function Drawdown(peak: real, equity: real): (d: real)
    ensures d >= 0.0
  {
    if peak <= 0.0 then 0.0 else Max(0.0, (peak - equity) / peak)
  }

  const DRAWDOWN_CAUSE := "drawdown breached limit"
  const LATENCY_CAUSE := "latency above limit"

  /** The portfolio return between two equities; none from a base that is not positive, or without a move. */
  function Growth(prev: real, current: real): Option<real> {
    if prev > 0.0 && current != prev then Some((current - prev) / prev) else None
  }

  function Push(buffer: seq<real>, ret: Option<real>, window: nat): seq<real> {
    if ret.Some? then V.LastN(buffer + [ret.value], window) else buffer
  }

  /** Equity recomputed from the ledger, its return fed to the VaR buffer, the peak raised. */
  function Valued(c: Config, s: State): State {
    var unrealized := L.Unrealized(s.books.symbols, s.books.positions, s.books.marks);
    var equity := s.capital + s.books.realized + unrealized;
    s.(unrealized := unrealized, buffer := Push(s.buffer, Growth(s.prevEquity, equity), c.window),
       prevEquity := equity, equity := equity, peak := Max(s.peak, equity))
  }

  function Governed(c: Config, s: State, now: real): State {
    if Drawdown(s.peak, s.equity) >= s.maxDrawdown && !s.frozen then
      s.(frozen := true, unfreezeAt := now + c.cooldown,
         breaker := C.OnTrip(c.Breaker(), s.breaker, DRAWDOWN_CAUSE, now))
    else s
  }

  function Revalue(c: Config, s: State, now: real): State {
    Governed(c, Valued(c, s), now)
  }

  function OnFill(c: Config, s: State, f: L.Fill, now: real): State {
    var d := L.Decode(f);
    if d.Matched? then Revalue(c, s.(books := L.Apply(s.books, d.trade)), now) else s
  }

  /** The event_ms field: absent or zero, unreadable, or a latency in milliseconds against the clock. */
  datatype Heartbeat = NoStamp | BadStamp | Latency(ms: real)

  function Beat(c: Config, s: State, h: Heartbeat, now: real): State {
    if !h.Latency? then s
    else if Max(0.0, h.ms) > s.latencyLimit then
      s.(breaker := C.OnFailure(c.Breaker(), s.breaker, LATENCY_CAUSE, now))
    else
      s.(breaker := C.OnSuccess(c.Breaker(), s.breaker, now))
  }

  /** An unreadable price changes nothing; an unreadable stamp stops after the mark was written. */
  function OnTicker(c: Config, s: State, symbol: string, price: L.Field, h: Heartbeat, now: real): State {
    if !price.Num? then s
    else
      var s := s.(books := L.Remark(s.books, L.Upper(symbol), price.value));
      if h.BadStamp? then s else Revalue(c, Beat(c, s, h, now), now)
  }

  function Clamp(v: L.Field, baseline: real, lo: real, hi: real): real {
    if !v.Num? then baseline else Max(baseline * lo, Min(baseline * hi, v.value))
  }

  function OnDirective(c: Config, s: State, maxDrawdown: L.Field, varLimit: L.Field, latencyLimit: L.Field): State {
    s.(maxDrawdown := Clamp(maxDrawdown, c.maxDrawdown, 0.3, 1.0),
       varLimit := Clamp(varLimit, c.varLimit, 0.3, 1.0),
       latencyLimit := Clamp(latencyLimit, c.latencyLimit, 0.5, 1.5))
  }

  function OnCapitalSync(s: State, base: real): State {
    if s.books.symbols != [] || base <= 0.0 then s
    else s.(capital := base, equity := base, prevEquity := base, peak := base, unrealized := 0.0,
            books := s.books.(realized := 0.0))
  }

  function OnWalletSync(
    s: State, equity: real, unrealized: real, symbols: seq<string>, positions: map<string, L.Position>): State
  {
    if equity <= 0.0 then s
    else s.(books := s.books.(symbols := symbols, positions := positions,
                              realized := equity - s.capital - unrealized),
            unrealized := unrealized, equity := equity, prevEquity := equity, peak := Max(s.peak, equity))
  }

  function Reset(s: State): State {
    s.(peak := s.equity, frozen := false, softBreach := false)
  }

  /** The freeze is lifted at its deadline, and the drawdown measured from the present equity on. */
  function Rearmed(s: State, now: real): State {
    if s.frozen && now >= s.unfreezeAt then s.(peak := s.equity, frozen := false) else s
  }

  /** One pass of the risk loop. */
  function Cycle(c: Config, s: State, monteCarlo: V.Risk, now: real): State
    requires c.Valid()
  {
    if s.paused then s
    else
      var est := V.EstimateOf(s.buffer, c.scale, c.confidence, monteCarlo);
      var soft := est.samples >= V.MIN_SAMPLES && est.risk.valueAtRisk > s.varLimit;
      Rearmed(s.(softBreach := soft, breaker := C.Observe(c.Breaker(), s.breaker, now)), now)
  }

  function ModeAt(c: Config, s: State, now: real): SystemMode {
    var b := C.Observe(c.Breaker(), s.breaker, now);
    if b.state.OPEN? || s.frozen then FROZEN
    else if s.softBreach || b.state.HALF_OPEN? then REDUCE_ONLY
    else NORMAL
  }

  // ---------------------------------------------------------------- the object

  class Sentinel {
    const config: Config
    const risk: V.HistoricalSimulationVaR
    const breaker: C.CircuitBreaker
    var capital: real
    var maxDrawdown: real
    var varLimit: real
    var latencyLimit: real
    var books: L.Books  // _positions, _marks and _realized_total
    var unrealized: real
    var equity: real
    var prevEquity: real
    var peak: real
    var softBreach: bool
    var frozen: bool
    var unfreezeAt: real
    var paused: bool

    ghost predicate Valid()
      reads this, risk
    {
      && config.Valid() && risk.Valid()
      && breaker.config == config.Breaker()
      && risk.window == config.window && risk.scale == config.scale && risk.confidence == config.confidence
      && L.Indexed(books.symbols, books.positions)
    }

    ghost function View(): State
      reads this, risk, breaker
    {
      State(capital, maxDrawdown, varLimit, latencyLimit, risk.buffer, breaker.View(),
            books, unrealized, equity, prevEquity, peak,
            softBreach, frozen, unfreezeAt, paused)
    }

    constructor (config: Config)
      requires config.Valid()
      ensures Valid() && View() == Initial(config) && this.config == config
      ensures fresh(risk) && fresh(breaker)
    {
      this.config := config;
      risk := new V.HistoricalSimulationVaR(config.window, config.scale, config.confidence);
      breaker := new C.CircuitBreaker(config.Breaker());
      capital, equity := config.startingCapital, config.startingCapital;
      prevEquity, peak := config.startingCapital, config.startingCapital;
      maxDrawdown, varLimit, latencyLimit := config.maxDrawdown, config.varLimit, config.latencyLimit;
      books, unrealized := L.EMPTY, 0.0;
      softBreach, frozen, unfreezeAt, paused := false, false, 0.0, false;
    }

    method RecomputeUnrealized()
      modifies this`unrealized
      ensures unrealized == L.Unrealized(books.symbols, books.positions, books.marks)
    {
      var total := 0.0;
      for i := 0 to |books.symbols|
        invariant total == L.Unrealized(books.symbols[..i], books.positions, books.marks)
      {
        assert books.symbols[..i + 1][..i] == books.symbols[..i];
        var s := books.symbols[i];
        var p := L.At(books.positions, s);
        if p.qty != 0.0 {
          var mark := if s in books.marks then books.marks[s] else p.avg;
          total := total + (mark - p.avg) * p.qty;
        }
      }
      assert books.symbols[..|books.symbols|] == books.symbols;
      unrealized := total;
    }

    method RecomputeEquity()
      requires Valid()
      modifies this`unrealized, this`prevEquity, this`equity, this`peak, risk
      ensures Valid() && View() == Valued(config, old(View()))
    {
      RecomputeUnrealized();
      var current := capital + books.realized + unrealized;
      var ret := Growth(prevEquity, current);
      if ret.Some? {
        risk.Update(ret);
      }
      prevEquity := current;
      equity := current;
      peak := Max(peak, current);
    }

    method Govern(now: real)
      requires Valid()
      modifies this`frozen, this`unfreezeAt, breaker
      ensures Valid() && View() == Governed(config, old(View()), now)
    {
      var drawdown := Drawdown(peak, equity);
      if drawdown >= maxDrawdown && !frozen {
        frozen := true;
        unfreezeAt := now + config.cooldown;
        breaker.Trip(DRAWDOWN_CAUSE, now);
      }
    }

    method RevalueAndGovern(now: real)
      requires Valid()
      modifies this, risk, breaker
      ensures Valid() && View() == Revalue(config, old(View()), now)
    {
      RecomputeEquity();
      Govern(now);
    }

    method ApplyTrade(t: L.Trade)
      requires L.Indexed(books.symbols, books.positions)
      modifies this`books
      ensures L.Indexed(books.symbols, books.positions)
      ensures books == L.Apply(old(books), t)
    {
      L.ApplyKeepsIndex(books, t);
      if t.asset !in books.positions {
        books := books.(symbols := books.symbols + [t.asset], positions := books.positions[t.asset := L.FLAT]);
      }
      var p := books.positions[t.asset];
      if t.close && p.qty != 0.0 {
        books := books.(realized := books.realized + L.ClosingProfit(p, t),
                        positions := books.positions[t.asset := L.Reduced(p, t)]);
      } else {
        books := books.(positions := books.positions[t.asset := L.Extended(p, t)]);
      }
      books := books.(marks := books.marks[t.asset := t.price]);
    }

    method HandleFill(f: L.Fill, now: real)
      requires Valid()
      modifies this, risk, breaker
      ensures Valid() && View() == OnFill(config, old(View()), f, now)
    {
      var d := L.Decode(f);
      if d.Matched? {
        ApplyTrade(d.trade);
        RevalueAndGovern(now);
      }
    }

    method HandleTicker(symbol: string, price: L.Field, h: Heartbeat, now: real)
      requires Valid()
      modifies this, risk, breaker
      ensures Valid() && View() == OnTicker(config, old(View()), symbol, price, h, now)
    {
      if !price.Num? {
        return;
      }
      var s := L.Upper(symbol);
      if s != "" && s in books.positions {
        books := books.(marks := books.marks[s := price.value]);
      }
      if h.BadStamp? {
        return;
      }
      RecordHeartbeat(h, now);
      RevalueAndGovern(now);
    }

    method RecordHeartbeat(h: Heartbeat, now: real)
      requires Valid() && !h.BadStamp?
      modifies breaker
      ensures Valid() && View() == Beat(config, old(View()), h, now)
    {
      if h.Latency? {
        var latency := Max(0.0, h.ms);
        if latency > latencyLimit {
          breaker.RecordFailure(LATENCY_CAUSE, now);
        } else {
          breaker.RecordSuccess(now);
        }
      }
    }

    method HandleDirective(dd: L.Field, vl: L.Field, ll: L.Field)
      requires Valid()
      modifies this
      ensures Valid() && View() == OnDirective(config, old(View()), dd, vl, ll)
    {
      maxDrawdown := Clamp(dd, config.maxDrawdown, 0.3, 1.0);
      varLimit := Clamp(vl, config.varLimit, 0.3, 1.0);
      latencyLimit := Clamp(ll, config.latencyLimit, 0.5, 1.5);
    }

    method HandleCapitalSync(base: real)
      requires Valid()
      modifies this
      ensures Valid() && View() == OnCapitalSync(old(View()), base)
    {
      if books.symbols != [] || base <= 0.0 {
        return;
      }
      capital, equity, prevEquity, peak := base, base, base, base;
      books, unrealized := books.(realized := 0.0), 0.0;
    }

    method HandleWalletSync(eq: real, upnl: real, syms: seq<string>, pos: map<string, L.Position>)
      requires Valid() && L.Indexed(syms, pos)
      modifies this`books, this`unrealized, this`equity, this`prevEquity, this`peak
      ensures Valid() && View() == OnWalletSync(old(View()), eq, upnl, syms, pos)
    {
      if eq <= 0.0 {
        return;
      }
      books := books.(symbols := syms, positions := pos, realized := eq - capital - upnl);
      unrealized := upnl;
      equity, prevEquity := eq, eq;
      peak := Max(peak, eq);
    }

    method OperatorReset()
      requires Valid()
      modifies this
      ensures Valid() && View() == Reset(old(View()))
    {
      peak, frozen, softBreach := equity, false, false;
    }

    method ResolveMode(now: real) returns (mode: SystemMode)
      requires Valid()
      modifies breaker
      ensures Valid() && View() == old(View()).(breaker := C.Observe(config.Breaker(), old(View()).breaker, now))
      ensures mode == ModeAt(config, old(View()), now)
    {
      var open := breaker.IsOpen(now);
      if open || frozen {
        return FROZEN;
      }
      var b := breaker.State(now);
      if softBreach || b == C.HALF_OPEN {
        return REDUCE_ONLY;
      }
      mode := NORMAL;
    }

    /** One pass of `run`; it reads the breaker when it publishes the status. */
    method RunCycle(monteCarlo: V.Risk, now: real)
      requires Valid()
      modifies this`softBreach, this`peak, this`frozen, breaker
      ensures Valid() && View() == Cycle(config, old(View()), monteCarlo, now)
    {
      if paused {
        return;
      }
      var est := risk.EstimateRisk(monteCarlo);
      var before := softBreach;
      softBreach := est.samples >= V.MIN_SAMPLES && est.risk.valueAtRisk > varLimit;
      if softBreach && !before {
        var _ := ResolveMode(now);
      }
      Rearm(now);
      var _ := breaker.State(now);
    }

    method Rearm(now: real)
      modifies this`peak, this`frozen
      ensures View() == Rearmed(old(View()), now)
    {
      if frozen && now >= unfreezeAt {
        peak := equity;
        frozen := false;
      }
    }

    method Pause(on: bool)
      requires Valid()
      modifies this`paused
      ensures Valid() && View() == old(View()).(paused := on)
    {
      paused := on;
    }
  }
}
