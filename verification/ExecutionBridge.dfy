/**
 The execution bridge of quant/ccxt_bridge.py as a protocol: the code between two awaits is one step, so
 executes, connects, closes and mode changes interleave at their awaits.

 What the venue answers is part of the step that resumes; sessions are numbered as they are created.
 */
module ExecutionBridge {
  import opened Basics
  import opened Modes

  datatype Status = FILLED | REJECTED | UNKNOWN

  datatype PriceSource = Venue | Ticker | SyntheticMark | NoPrice

  datatype Report = Report(status: Status, mode: QuantMode, quantity: real, price: real, source: PriceSource)
  {
    predicate IsFilled() {
      status.FILLED? && quantity > 0.0
    }
  }

  /** Order intents come validated: a positive quantity. */
  datatype Intent = Intent(symbol: string, buy: bool, quantity: real, limit: Option<real>)
  {
    predicate Valid() {
      quantity > 0.0
    }
  }

  function NotFilled(status: Status): Report {
    Report(status, REALITY, 0.0, 0.0, NoPrice)
  }

  /** Where a suspended or finished call stands. */
  datatype Pc =
    | Sizing(intent: Intent)
    | Ordering(intent: Intent)
    | Pricing(intent: Intent, filled: real)
    | Done(report: Report)
    | Loading
    | Closing
    | Idle

  datatype Order = Order(task: nat, session: nat, mode: QuantMode)

  datatype Bridge = Bridge(
    exchange: Option<nat>,
    live: bool,
    armed: bool,
    marks: map<string, real>,
    orders: seq<Order>)

  const UNBOUND := Bridge(None, false, false, map[], [])

  predicate IsLive(b: Bridge) {
    b.live && b.exchange.Some?
  }

  // ---------------------------------------------------------------- steps of one call

  function MarkFor(b: Bridge, i: Intent): real {
    if i.symbol in b.marks then b.marks[i.symbol]
    else if i.limit.Some? && i.limit.value != 0.0 then i.limit.value
    else 1.0
  }

  /** The size-dependent impact, at most 0.2 percent. */
  function Impact(quantity: real): real {
    Min(0.002, quantity / 50000.0)
  }

  function FillPrice(mark: real, impact: real, buy: bool): real {
    mark * (1.0 + (if buy then impact else -impact))
  }

  /** The synthetic fill: the mark moved against the order by the impact. */
  function Simulated(b: Bridge, i: Intent): Report {
    Report(FILLED, SIMULATION, i.quantity, FillPrice(MarkFor(b, i), Impact(i.quantity), i.buy), SyntheticMark)
  }

  lemma ImpactIsSmall(quantity: real)
    requires quantity > 0.0
    ensures 0.0 < Impact(quantity) <= 0.002
  {
    QuotientPositive(quantity, 50000.0);
  }

  lemma QuotientPositive(x: real, y: real)
    requires x > 0.0 && y > 0.0
    ensures x / y > 0.0
  {
  }

  /** Worse than the mark for either side, by at most 0.2 percent. */
  predicate SlipsAgainst(mark: real, price: real, buy: bool) {
    if buy then mark < price <= Times(1.002, mark) else Times(0.998, mark) <= price < mark
  }

  lemma SmallShare(mark: real, impact: real)
    requires mark > 0.0 && 0.0 < impact <= 0.002
    ensures 0.0 < Times(mark, impact) <= Times(0.002, mark)
  {
    Mul(mark, impact, 0.002);
  }

  lemma BuySlips(mark: real, impact: real)
    requires mark > 0.0 && 0.0 < impact <= 0.002
    ensures SlipsAgainst(mark, FillPrice(mark, impact, true), true)
  {
    SmallShare(mark, impact);
    assert FillPrice(mark, impact, true) == mark + Times(mark, impact);
    assert Times(1.002, mark) == mark + Times(0.002, mark);
  }

  lemma SellSlips(mark: real, impact: real)
    requires mark > 0.0 && 0.0 < impact <= 0.002
    ensures SlipsAgainst(mark, FillPrice(mark, impact, false), false)
  {
    SmallShare(mark, impact);
    assert FillPrice(mark, impact, false) == mark - Times(mark, impact);
    assert Times(0.998, mark) == mark - Times(0.002, mark);
  }

  /** A synthetic fill of a positive mark slips against the order, by at most 0.2 percent. */
  lemma SyntheticFillSlipsAgainstOrder(b: Bridge, i: Intent)
    requires i.Valid() && MarkFor(b, i) > 0.0
    ensures SlipsAgainst(MarkFor(b, i), Simulated(b, i).price, i.buy)
  {
    ImpactIsSmall(i.quantity);
    if i.buy {
      BuySlips(MarkFor(b, i), Impact(i.quantity));
    } else {
      SellSlips(MarkFor(b, i), Impact(i.quantity));
    }
  }

  function DropSession(b: Bridge, now: QuantMode): Bridge {
    if now == REALITY || (b.exchange.None? && !b.live) then b else b.(exchange := None, live := false)
  }

  /** create_order is looked up on whatever session the bridge holds at this moment. */
  function Submit(b: Bridge, mode: QuantMode, task: nat, i: Intent): (Bridge, Pc) {
    if b.exchange.Some?
    then (b.(orders := b.orders + [Order(task, b.exchange.value, mode)]), Ordering(i))
    else (b, Done(NotFilled(REJECTED)))
  }

  /**
   What a live execute meets before its first await, the sizing ticker: it gets there, sizing raises and is
   skipped, or lowering the payload raises and ends the call; unknown tells how the exception reads.
   */
  datatype Preparation = Quotes | SizingRaises | LoweringRaises(unknown: bool)

  function Failure(unknown: bool): Status {
    if unknown then UNKNOWN else REJECTED
  }

  function BeginExecute(b: Bridge, mode: QuantMode, task: nat, i: Intent, prep: Preparation): (Bridge, Pc) {
    if mode == REALITY && IsLive(b) then
      match prep
      case Quotes => (b, Sizing(i))
      case SizingRaises => Submit(b, mode, task, i)
      case LoweringRaises(unknown) => (b, Done(NotFilled(Failure(unknown))))
    else (b, Done(Simulated(b, i)))
  }

  datatype Answer = Accepted(average: real, filled: real) | Refused(unknown: bool)

  function LastMark(b: Bridge, i: Intent): real {
    if i.symbol in b.marks then b.marks[i.symbol] else 0.0
  }

  function Answered(b: Bridge, i: Intent, a: Answer): Pc {
    match a
    case Refused(unknown) => Done(NotFilled(Failure(unknown)))
    case Accepted(average, filled) =>
      var qty := if filled != 0.0 then filled else i.quantity;
      if average > 0.0 then Done(Report(FILLED, REALITY, qty, average, Venue))
      else if b.exchange.None? then Done(Report(FILLED, REALITY, qty, LastMark(b, i), SyntheticMark))
      else Pricing(i, qty)
  }

  function Priced(b: Bridge, i: Intent, qty: real, ticker: Option<real>): Pc {
    if ticker.Some?
    then Done(Report(FILLED, REALITY, qty, ticker.value, Ticker))
    else Done(Report(FILLED, REALITY, qty, LastMark(b, i), SyntheticMark))
  }

  /** connect starts by declaring the bridge not live, and arms the mode guard once. */
  function BeginConnect(b: Bridge, mode: QuantMode, credentialed: bool): (Bridge, Pc) {
    (b.(live := false, armed := true), if mode == REALITY && credentialed then Loading else Idle)
  }

  function Loaded(b: Bridge, session: nat, ok: bool): Bridge {
    if ok then b.(exchange := Some(session), live := true) else b
  }

  function BeginClose(b: Bridge): (Bridge, Pc) {
    (b.(live := false), if b.exchange.Some? then Closing else Idle)
  }

  // ---------------------------------------------------------------- the object

  const GUARD := "ccxt air-gap"

  class CCXTBinanceBridge {
    const manager: ModeManager
    const credentialed: bool
    var exchange: Option<nat>
    var live: bool
    var armed: bool
    var marks: map<string, real>
    var orders: seq<Order>

    ghost function View(): Bridge
      reads this
    {
      Bridge(exchange, live, armed, marks, orders)
    }

    /** The guard listens exactly once it is armed. */
    ghost predicate Valid()
      reads this, manager
    {
      armed <==> GUARD in manager.listeners
    }

    constructor (manager: ModeManager, credentialed: bool)
      requires GUARD !in manager.listeners
      ensures View() == UNBOUND && Valid() && this.manager == manager && this.credentialed == credentialed
    {
      this.manager, this.credentialed := manager, credentialed;
      exchange, live, armed, marks, orders := None, false, false, map[], [];
    }

    method ArmModeGuard()
      requires Valid()
      modifies this`armed, manager`listeners
      ensures Valid() && View() == old(View()).(armed := true)
    {
      if armed {
        return;
      }
      armed := true;
      manager.OnChange(GUARD);
    }

    method OnModeChange(now: QuantMode)
      modifies this`exchange, this`live
      ensures View() == DropSession(old(View()), now)
    {
      if now == REALITY {
        return;
      }
      if exchange == None && !live {
        return;
      }
      exchange, live := None, false;
    }

    method Connect() returns (pc: Pc)
      requires Valid()
      modifies this`live, this`armed, manager`listeners
      ensures Valid() && (View(), pc) == BeginConnect(old(View()), manager.mode, credentialed)
    {
      live := false;
      ArmModeGuard();
      pc := if manager.mode == REALITY && credentialed then Loading else Idle;
    }

    method ResumeConnect(session: nat, ok: bool)
      modifies this`exchange, this`live
      ensures View() == Loaded(old(View()), session, ok)
    {
      if ok {
        exchange, live := Some(session), true;
      }
    }

    method Close() returns (pc: Pc)
      modifies this`live
      ensures (View(), pc) == BeginClose(old(View()))
    {
      live := false;
      pc := if exchange.Some? then Closing else Idle;
    }

    method ResumeClose()
      modifies this`exchange
      ensures View() == old(View()).(exchange := None)
    {
      exchange := None;
    }

    method UpdateSimMark(symbol: string, price: real)
      modifies this`marks
      ensures View() == old(View()).(marks := old(marks)[symbol := price])
    {
      marks := marks[symbol := price];
    }

    method Execute(task: nat, i: Intent, prep: Preparation) returns (pc: Pc)
      modifies this`orders
      ensures (View(), pc) == BeginExecute(old(View()), manager.mode, task, i, prep)
    {
      if manager.mode == REALITY && live && exchange.Some? {
        match prep {
          case LoweringRaises(unknown) =>
            pc := Done(NotFilled(Failure(unknown)));
          case SizingRaises =>
            pc := SubmitOrder(task, i);
          case Quotes =>
            pc := Sizing(i);
        }
      } else {
        pc := Done(Simulated(Bridge(exchange, live, armed, marks, orders), i));
      }
    }

    method SubmitOrder(task: nat, i: Intent) returns (pc: Pc)
      modifies this`orders
      ensures (View(), pc) == Submit(old(View()), manager.mode, task, i)
    {
      if exchange.None? {
        return Done(NotFilled(REJECTED));
      }
      orders := orders + [Order(task, exchange.value, manager.mode)];
      pc := Ordering(i);
    }

    method ResumeOrder(i: Intent, a: Answer) returns (pc: Pc)
      ensures pc == Answered(View(), i, a)
    {
      if a.Refused? {
        return Done(NotFilled(Failure(a.unknown)));
      }
      var qty := if a.filled != 0.0 then a.filled else i.quantity;
      if a.average > 0.0 {
        return Done(Report(FILLED, REALITY, qty, a.average, Venue));
      }
      if exchange.Some? {
        return Pricing(i, qty);
      }
      pc := Done(Report(FILLED, REALITY, qty, if i.symbol in marks then marks[i.symbol] else 0.0, SyntheticMark));
    }
  }

  /** A mode change runs the armed listeners before anything else can happen. */
  method SwitchMode(manager: ModeManager, bridge: CCXTBinanceBridge, requested: Option<QuantMode>)
    requires bridge.manager == manager && bridge.Valid()
    modifies manager`mode, bridge`exchange, bridge`live
    ensures bridge.Valid()
    ensures manager.mode == if requested.Some? then requested.value else old(manager.mode)
    ensures bridge.View() ==
      if manager.mode != old(manager.mode) && old(bridge.armed) then DropSession(old(bridge.View()), manager.mode)
      else old(bridge.View())
  {
    var now, notify := manager.Set(requested);
    for k := 0 to |notify|
      invariant manager.mode == now && unchanged(manager`listeners)
      invariant unchanged(bridge`armed) && unchanged(bridge`marks) && unchanged(bridge`orders)
      invariant bridge.View() ==
        if GUARD in notify[..k] then DropSession(old(bridge.View()), now) else old(bridge.View())
    {
      assert notify[..k + 1] == notify[..k] + [notify[k]];
      if notify[k] == GUARD {
        bridge.OnModeChange(now);
      }
    }
    assert notify[..|notify|] == notify;
  }

  // ---------------------------------------------------------------- interleavings

  datatype Route = LiveRoute | SyntheticRoute | NoRoute

  /** A call in flight or finished, and the route its first step took. */
  datatype Task = Task(route: Route, pc: Pc)

  datatype World = World(mode: QuantMode, bridge: Bridge, tasks: map<nat, Task>)

  function Boot(mode: QuantMode): World {
    World(mode, UNBOUND, map[])
  }

  datatype Action =
    | SetMode(mode: QuantMode)
    | Marked(symbol: string, price: real)
    | Start(task: nat, intent: Intent, prep: Preparation)
    | Sized(task: nat)
    | OrderReturned(task: nat, answer: Answer)
    | TickerReturned(task: nat, last: Option<real>)
    | StartConnect(task: nat, credentialed: bool)
    | MarketsLoaded(task: nat, session: nat, ok: bool)
    | StartClose(task: nat)
    | Disposed(task: nat)

  predicate Fresh(w: World, task: nat) {
    task !in w.tasks
  }

  function Move(w: World, task: nat, b: Bridge, t: Task): World {
    w.(bridge := b, tasks := w.tasks[task := t])
  }

  function Step(w: World, a: Action): World {
    match a
    case SetMode(m) =>
      w.(mode := m, bridge := if m != w.mode && w.bridge.armed then DropSession(w.bridge, m) else w.bridge)
    case Marked(symbol, price) => w.(bridge := w.bridge.(marks := w.bridge.marks[symbol := price]))
    case Start(t, i, prep) =>
      if !Fresh(w, t) || !i.Valid() then w
      else
        var (b, pc) := BeginExecute(w.bridge, w.mode, t, i, prep);
        Move(w, t, b, Task(if w.mode == REALITY && IsLive(w.bridge) then LiveRoute else SyntheticRoute, pc))
    case Sized(t) =>
      if Fresh(w, t) || !w.tasks[t].pc.Sizing? then w
      else
        var (b, pc) := Submit(w.bridge, w.mode, t, w.tasks[t].pc.intent);
        Move(w, t, b, w.tasks[t].(pc := pc))
    case OrderReturned(t, answer) =>
      if Fresh(w, t) || !w.tasks[t].pc.Ordering? then w
      else Move(w, t, w.bridge, w.tasks[t].(pc := Answered(w.bridge, w.tasks[t].pc.intent, answer)))
    case TickerReturned(t, price) =>
      if Fresh(w, t) || !w.tasks[t].pc.Pricing? then w
      else Move(w, t, w.bridge, w.tasks[t].(pc := Priced(w.bridge, w.tasks[t].pc.intent, w.tasks[t].pc.filled, price)))
    case StartConnect(t, credentialed) =>
      if !Fresh(w, t) then w
      else
        var (b, pc) := BeginConnect(w.bridge, w.mode, credentialed);
        Move(w, t, b, Task(NoRoute, pc))
    case MarketsLoaded(t, session, ok) =>
      if Fresh(w, t) || !w.tasks[t].pc.Loading? then w
      else Move(w, t, Loaded(w.bridge, session, ok), w.tasks[t].(pc := Idle))
    case StartClose(t) =>
      if !Fresh(w, t) then w
      else
        var (b, pc) := BeginClose(w.bridge);
        Move(w, t, b, Task(NoRoute, pc))
    case Disposed(t) =>
      if Fresh(w, t) || !w.tasks[t].pc.Closing? then w
      else Move(w, t, w.bridge.(exchange := None), w.tasks[t].(pc := Idle))
  }

  function After(w: World, acts: seq<Action>): World {
    if acts == [] then w else Step(After(w, acts[..|acts| - 1]), acts[|acts| - 1])
  }

  // ---------------------------------------------------------------- the air gap

  predicate AirGapped(w: World) {
    w.bridge.exchange.Some? ==> w.mode == REALITY
  }

  /** A session, or the claim of one, exists only behind an armed guard. */
  ghost predicate Guarded(w: World) {
    && (w.bridge.exchange.Some? || w.bridge.live ==> w.bridge.armed)
    && (forall t :: t in w.tasks && w.tasks[t].pc.Loading? ==> w.bridge.armed)
  }

  /** A connect that comes back with a session after the mode has left REALITY. */
  predicate LateSession(w: World, a: Action) {
    a.MarketsLoaded? && a.ok && a.task in w.tasks && w.tasks[a.task].pc.Loading? && w.mode != REALITY
  }

  lemma {:induction false} AlwaysGuarded(mode: QuantMode, acts: seq<Action>)
    ensures Guarded(After(Boot(mode), acts))
  {
    if acts != [] {
      var n := |acts| - 1;
      AlwaysGuarded(mode, acts[..n]);
      StepGuarded(After(Boot(mode), acts[..n]), acts[n]);
    }
  }

  lemma StepGuarded(w: World, a: Action)
    requires Guarded(w)
    ensures Guarded(Step(w, a))
  {
    var w' := Step(w, a);
    forall t | t in w'.tasks && w'.tasks[t].pc.Loading? ensures w'.bridge.armed {
      assert t in w.tasks && w.tasks[t].pc.Loading? ==> w.bridge.armed;
    }
  }

  /** One step breaks the air gap exactly when it installs a late session. */
  lemma AirGapBreaksExactlyOnLateSession(w: World, a: Action)
    requires Guarded(w) && AirGapped(w)
    ensures AirGapped(Step(w, a)) <==> !LateSession(w, a)
  {
  }

  predicate NeverLate(mode: QuantMode, acts: seq<Action>) {
    acts == [] ||
    var n := |acts| - 1;
    NeverLate(mode, acts[..n]) && !LateSession(After(Boot(mode), acts[..n]), acts[n])
  }

  predicate AlwaysAirGapped(mode: QuantMode, acts: seq<Action>) {
    AirGapped(After(Boot(mode), acts)) && (acts != [] ==> AlwaysAirGapped(mode, acts[..|acts| - 1]))
  }

  lemma AlwaysIncludesNow(mode: QuantMode, acts: seq<Action>)
    requires AlwaysAirGapped(mode, acts)
    ensures AirGapped(After(Boot(mode), acts))
  {
  }

  /** Every moment of a run is air-gapped exactly when no session arrives late. */
  lemma {:induction false} RunAirGappedExactlyWithoutLateSession(mode: QuantMode, acts: seq<Action>)
    ensures AlwaysAirGapped(mode, acts) <==> NeverLate(mode, acts)
  {
    if acts != [] {
      var n := |acts| - 1;
      RunAirGappedExactlyWithoutLateSession(mode, acts[..n]);
      if AlwaysAirGapped(mode, acts[..n]) {
        AlwaysIncludesNow(mode, acts[..n]);
        AlwaysGuarded(mode, acts[..n]);
        AirGapBreaksExactlyOnLateSession(After(Boot(mode), acts[..n]), acts[n]);
      }
    }
  }

  predicate OrdersInReality(orders: seq<Order>) {
    forall k :: 0 <= k < |orders| ==> orders[k].mode == REALITY
  }

  lemma StepOrdersInReality(w: World, a: Action)
    requires AirGapped(w) && OrdersInReality(w.bridge.orders)
    ensures OrdersInReality(Step(w, a).bridge.orders)
  {
    var orders := Step(w, a).bridge.orders;
    assert orders == w.bridge.orders ||
      (|orders| == |w.bridge.orders| + 1 && orders[..|w.bridge.orders|] == w.bridge.orders
       && orders[|w.bridge.orders|].mode == REALITY);
  }

  /** Without late sessions create_order is only ever issued while the mode is REALITY. */
  lemma {:induction false} OrdersOnlyInReality(mode: QuantMode, acts: seq<Action>)
    requires NeverLate(mode, acts)
    ensures OrdersInReality(After(Boot(mode), acts).bridge.orders)
  {
    if acts != [] {
      var n := |acts| - 1;
      OrdersOnlyInReality(mode, acts[..n]);
      RunAirGappedExactlyWithoutLateSession(mode, acts[..n]);
      AlwaysIncludesNow(mode, acts[..n]);
      StepOrdersInReality(After(Boot(mode), acts[..n]), acts[n]);
    }
  }

  ghost predicate NothingLoading(w: World) {
    forall t :: t in w.tasks ==> !w.tasks[t].pc.Loading?
  }

  /** The caller's rule: leave REALITY only while no connect is in flight. */
  ghost predicate NoConnectAcrossLeaving(mode: QuantMode, acts: seq<Action>) {
    acts == [] ||
    var n := |acts| - 1;
    && NoConnectAcrossLeaving(mode, acts[..n])
    && (acts[n].SetMode? && acts[n].mode != REALITY ==> NothingLoading(After(Boot(mode), acts[..n])))
  }

  ghost predicate LoadingOnlyInReality(w: World) {
    w.mode == REALITY || NothingLoading(w)
  }

  lemma StepLoading(w: World, a: Action)
    requires LoadingOnlyInReality(w)
    requires a.SetMode? && a.mode != REALITY ==> NothingLoading(w)
    ensures LoadingOnlyInReality(Step(w, a))
    ensures !LateSession(w, a)
  {
  }

  /** That rule is enough: no session is late, so no order leaves outside REALITY. */
  lemma {:induction false} NoConnectAcrossLeavingKeepsAirGap(mode: QuantMode, acts: seq<Action>)
    requires NoConnectAcrossLeaving(mode, acts)
    ensures LoadingOnlyInReality(After(Boot(mode), acts))
    ensures NeverLate(mode, acts) && OrdersInReality(After(Boot(mode), acts).bridge.orders)
  {
    if acts != [] {
      var n := |acts| - 1;
      NoConnectAcrossLeavingKeepsAirGap(mode, acts[..n]);
      StepLoading(After(Boot(mode), acts[..n]), acts[n]);
    }
    OrdersOnlyInReality(mode, acts);
  }

  /** The mode never comes back to REALITY. */
  predicate StaysOut(acts: seq<Action>) {
    forall k :: 0 <= k < |acts| && acts[k].SetMode? ==> acts[k].mode != REALITY
  }

  /** Outside REALITY some way on, without coming back, issues an order. */
  ghost predicate MayStillOrder(w: World) {
    exists acts: seq<Action> :: StaysOut(acts) && After(w, acts).bridge.orders != w.bridge.orders
  }

  ghost predicate SomeSizing(w: World) {
    exists t :: t in w.tasks && w.tasks[t].pc.Sizing?
  }

  ghost predicate OrdersBlocked(w: World) {
    w.mode == SIMULATION && (!SomeSizing(w) || (w.bridge.exchange.None? && NothingLoading(w)))
  }

  lemma StepStaysBlocked(w: World, a: Action)
    requires OrdersBlocked(w) && (a.SetMode? ==> a.mode != REALITY)
    ensures OrdersBlocked(Step(w, a)) && Step(w, a).bridge.orders == w.bridge.orders
  {
    var w' := Step(w, a);
    if !SomeSizing(w) {
      forall t | t in w'.tasks ensures !w'.tasks[t].pc.Sizing? {
        assert t in w.tasks ==> !w.tasks[t].pc.Sizing?;
      }
    } else {
      forall t | t in w'.tasks ensures !w'.tasks[t].pc.Loading? {
        assert t in w.tasks ==> !w.tasks[t].pc.Loading?;
      }
    }
  }

  lemma {:induction false} BlockedStaysBlocked(w: World, acts: seq<Action>)
    requires OrdersBlocked(w) && StaysOut(acts)
    ensures OrdersBlocked(After(w, acts)) && After(w, acts).bridge.orders == w.bridge.orders
  {
    if acts != [] {
      var n := |acts| - 1;
      BlockedStaysBlocked(w, acts[..n]);
      StepStaysBlocked(After(w, acts[..n]), acts[n]);
    }
  }

  lemma SizedOrders(w: World, t: nat)
    requires t in w.tasks && w.tasks[t].pc.Sizing? && w.bridge.exchange.Some?
    ensures Step(w, Sized(t)).bridge.orders != w.bridge.orders
  {
    assert |Step(w, Sized(t)).bridge.orders| == |w.bridge.orders| + 1;
  }

  lemma AfterOne(w: World, a: Action)
    ensures After(w, [a]) == Step(w, a)
  {
    assert [a][..0] == [];
  }

  lemma OrderAfterLeaving(w: World, t: nat) returns (acts: seq<Action>)
    requires t in w.tasks && w.tasks[t].pc.Sizing? && (w.bridge.exchange.Some? || !NothingLoading(w))
    ensures StaysOut(acts) && After(w, acts).bridge.orders != w.bridge.orders
  {
    if w.bridge.exchange.Some? {
      acts := [Sized(t)];
      AfterOne(w, Sized(t));
      SizedOrders(w, t);
    } else {
      var u :| u in w.tasks && w.tasks[u].pc.Loading?;
      var loaded := MarketsLoaded(u, 0, true);
      acts := [loaded, Sized(t)];
      AfterTwo(w, loaded, Sized(t));
      SizedOrders(Step(w, loaded), t);
    }
  }

  /**
   From a world outside REALITY an order can still go out before the mode comes back exactly when some
   execute waits for its sizing ticker and a session is held or a connect is loading one.
   */
  lemma OrdersOutsideRealityExactlyWhen(w: World)
    requires w.mode == SIMULATION
    ensures MayStillOrder(w) <==> SomeSizing(w) && (w.bridge.exchange.Some? || !NothingLoading(w))
  {
    if SomeSizing(w) && (w.bridge.exchange.Some? || !NothingLoading(w)) {
      var t :| t in w.tasks && w.tasks[t].pc.Sizing?;
      var acts := OrderAfterLeaving(w, t);
    } else {
      forall acts: seq<Action> | StaysOut(acts) ensures After(w, acts).bridge.orders == w.bridge.orders {
        BlockedStaysBlocked(w, acts);
      }
    }
  }

  lemma SessionUp() returns (acts: seq<Action>)
    ensures var w := After(Boot(REALITY), acts);
      && w.mode == REALITY && w.bridge == UNBOUND.(exchange := Some(0), live := true, armed := true)
      && forall t :: t in w.tasks ==> t == 0
  {
    var first, second := StartConnect(0, true), MarketsLoaded(0, 0, true);
    acts := [first, second];
    AfterTwo(Boot(REALITY), first, second);
    var w1 := Step(Boot(REALITY), first);
    assert w1.mode == REALITY && w1.bridge == UNBOUND.(armed := true) && w1.tasks == map[0 := Task(NoRoute, Loading)];
  }

  lemma AfterTwo(w: World, a: Action, b: Action)
    ensures After(w, [a, b]) == Step(Step(w, a), b)
  {
    assert [a, b][..1] == [a];
    assert [a][..0] == [];
    assert After(w, [a]) == Step(w, a);
  }

  lemma ExecuteWaiting(i: Intent) returns (acts: seq<Action>)
    requires i.Valid()
    ensures var w := After(Boot(REALITY), acts);
      && w.mode == REALITY && w.bridge == UNBOUND.(exchange := Some(0), live := true, armed := true)
      && 1 in w.tasks && w.tasks[1].pc == Sizing(i)
      && forall t :: t in w.tasks ==> t == 0 || t == 1
  {
    var up := SessionUp();
    AfterNext(Boot(REALITY), up, Start(1, i, Quotes));
    acts := up + [Start(1, i, Quotes)];
  }

  /** A reconnect is in flight and a live execute waits for its ticker while the mode leaves REALITY. */
  lemma InFlightAcrossLeaving(i: Intent) returns (acts: seq<Action>)
    requires i.Valid()
    ensures var w := After(Boot(REALITY), acts);
      && w.mode == SIMULATION && w.bridge.orders == []
      && 1 in w.tasks && w.tasks[1].pc == Sizing(i)
      && 2 in w.tasks && w.tasks[2].pc == Loading
  {
    var waiting := ExecuteWaiting(i);
    var again := waiting + [StartConnect(2, true)];
    AfterNext(Boot(REALITY), waiting, StartConnect(2, true));
    AfterNext(Boot(REALITY), again, SetMode(SIMULATION));
    acts := again + [SetMode(SIMULATION)];
  }

  /** Without the rule an order does leave in SIMULATION: a reconnect in flight outlives the mode change. */
  lemma ReconnectAcrossLeavingSendsOrder(i: Intent) returns (acts: seq<Action>)
    requires i.Valid()
    ensures !OrdersInReality(After(Boot(REALITY), acts).bridge.orders)
  {
    acts := InFlightAcrossLeaving(i);
    var w := After(Boot(REALITY), acts);
    AfterNext(Boot(REALITY), acts, MarketsLoaded(2, 1, true));
    AfterNext(Boot(REALITY), acts + [MarketsLoaded(2, 1, true)], Sized(1));
    acts := acts + [MarketsLoaded(2, 1, true)] + [Sized(1)];
    assert After(Boot(REALITY), acts).bridge.orders == [Order(1, 1, SIMULATION)];
    assert After(Boot(REALITY), acts).bridge.orders[0].mode != REALITY;
  }

  lemma AfterNext(w: World, acts: seq<Action>, a: Action)
    ensures After(w, acts + [a]) == Step(After(w, acts), a)
    ensures [] + [a] == [a]
  {
    assert (acts + [a])[..|acts|] == acts;
  }

  // ---------------------------------------------------------------- what a report may say

  function OrdersOf(orders: seq<Order>, task: nat): nat {
    if orders == [] then 0
    else OrdersOf(orders[..|orders| - 1], task) + if orders[|orders| - 1].task == task then 1 else 0
  }

  /** How far a task has got, its route, its orders and its report fit together. */
  predicate Truthful(t: Task, orders: nat) {
    match t.pc
    case Sizing(i) => t.route.LiveRoute? && orders == 0 && i.Valid()
    case Ordering(i) => t.route.LiveRoute? && orders == 1 && i.Valid()
    case Pricing(i, _) => t.route.LiveRoute? && orders == 1 && i.Valid()
    case Done(r) =>
      (match t.route
       case LiveRoute => r.mode == REALITY && orders <= 1 && (r.status.FILLED? ==> orders == 1)
                         && (!r.status.FILLED? ==> !r.IsFilled())
       case SyntheticRoute => r.mode == SIMULATION && orders == 0 && r.IsFilled()
       case NoRoute => false)
    case _ => t.route.NoRoute? && orders == 0
  }

  ghost predicate AllTruthful(w: World) {
    && (forall t :: t in w.tasks ==> Truthful(w.tasks[t], OrdersOf(w.bridge.orders, t)))
    && (forall k :: 0 <= k < |w.bridge.orders| ==> w.bridge.orders[k].task in w.tasks)
  }

  lemma {:induction false} NoOrdersOfStranger(orders: seq<Order>, t: nat)
    requires forall k :: 0 <= k < |orders| ==> orders[k].task != t
    ensures OrdersOf(orders, t) == 0
  {
    if orders != [] {
      NoOrdersOfStranger(orders[..|orders| - 1], t);
    }
  }

  /** The order log grew by at most one order, of task t. */
  predicate OwnOrder(was: seq<Order>, now: seq<Order>, t: nat) {
    now == was || (now != [] && now[..|now| - 1] == was && now[|now| - 1].task == t)
  }

  lemma OwnOrderCounts(orders: seq<Order>, o: Order)
    ensures OwnOrder(orders, orders + [o], o.task)
    ensures OrdersOf(orders + [o], o.task) == OrdersOf(orders, o.task) + 1
  {
    assert (orders + [o])[..|orders|] == orders;
  }

  lemma MoveTruthful(w: World, t: nat, b: Bridge, task: Task)
    requires AllTruthful(w) && OwnOrder(w.bridge.orders, b.orders, t)
    requires Truthful(task, OrdersOf(b.orders, t))
    ensures AllTruthful(Move(w, t, b, task))
  {
    forall u | u in w.tasks && u != t ensures Truthful(w.tasks[u], OrdersOf(b.orders, u)) {
      assert OrdersOf(b.orders, u) == OrdersOf(w.bridge.orders, u);
    }
    forall k | 0 <= k < |b.orders| ensures b.orders[k].task in w.tasks || b.orders[k].task == t {
      if k < |w.bridge.orders| {
        assert b.orders[k] == w.bridge.orders[k];
      }
    }
  }

  lemma StepTruthful(w: World, a: Action)
    requires AllTruthful(w)
    ensures AllTruthful(Step(w, a))
  {
    var w' := Step(w, a);
    match a
    case SetMode(_) => assert w'.bridge.orders == w.bridge.orders;
    case Marked(_, _) => assert w'.bridge.orders == w.bridge.orders;
    case _ =>
      if w' != w {
        var t := a.task;
        if t !in w.tasks {
          NoOrdersOfStranger(w.bridge.orders, t);
        }
        TaskStepTruthful(w, a, t);
        MoveTruthful(w, t, w'.bridge, w'.tasks[t]);
      }
  }

  lemma TaskStepTruthful(w: World, a: Action, t: nat)
    requires !a.SetMode? && !a.Marked? && a.task == t && Step(w, a) != w
    requires if t in w.tasks then Truthful(w.tasks[t], OrdersOf(w.bridge.orders, t))
             else OrdersOf(w.bridge.orders, t) == 0
    ensures var w' := Step(w, a);
      && t in w'.tasks && w' == Move(w, t, w'.bridge, w'.tasks[t])
      && OwnOrder(w.bridge.orders, w'.bridge.orders, t)
      && Truthful(w'.tasks[t], OrdersOf(w'.bridge.orders, t))
  {
    if Step(w, a).bridge.orders != w.bridge.orders {
      OwnOrderCounts(w.bridge.orders, Order(t, w.bridge.exchange.value, w.mode));
    }
  }

  /**
   In every interleaving a live execute issues at most one order and its report says FILLED only if that
   order went out; a fill of mode SIMULATION only ever answers an execute that did not find a live session
   in REALITY when it started. The price of a live report is another matter, see below.
   */
  lemma {:induction false} ReportsAreTruthful(mode: QuantMode, acts: seq<Action>)
    ensures AllTruthful(After(Boot(mode), acts))
  {
    if acts != [] {
      var n := |acts| - 1;
      ReportsAreTruthful(mode, acts[..n]);
      StepTruthful(After(Boot(mode), acts[..n]), acts[n]);
    }
  }

  lemma SizedWithoutSession(w: World, t: nat)
    requires t in w.tasks && w.tasks[t].pc.Sizing? && w.bridge.exchange.None?
    requires Truthful(w.tasks[t], OrdersOf(w.bridge.orders, t))
    ensures var w' := Step(w, Sized(t));
      && t in w'.tasks && w'.tasks[t].pc == Done(NotFilled(REJECTED)) && OrdersOf(w'.bridge.orders, t) == 0
  {
  }

  /** An execute that finds its session gone when it comes to order ends in a report that is not filled. */
  lemma LostSessionEndsUnfilled(mode: QuantMode, acts: seq<Action>, t: nat)
    requires var w := After(Boot(mode), acts); t in w.tasks && w.tasks[t].pc.Sizing? && w.bridge.exchange.None?
    ensures var w' := After(Boot(mode), acts + [Sized(t)]);
      && t in w'.tasks && w'.tasks[t].pc.Done? && !w'.tasks[t].pc.report.IsFilled()
      && OrdersOf(w'.bridge.orders, t) == 0
  {
    ReportsAreTruthful(mode, acts);
    AfterNext(Boot(mode), acts, Sized(t));
    SizedWithoutSession(After(Boot(mode), acts), t);
  }

  /**
   An execute whose session goes while its order is out ends filled exactly when the venue accepted the
   order, for a quantity that is not negative; and then, without a positive average, at the synthetic mark.
   */
  lemma LostInFlightFillsExactlyWhenAccepted(mode: QuantMode, acts: seq<Action>, t: nat, answer: Answer)
    requires var w := After(Boot(mode), acts); t in w.tasks && w.tasks[t].pc.Ordering? && w.bridge.exchange.None?
    ensures var w, w' := After(Boot(mode), acts), After(Boot(mode), acts + [OrderReturned(t, answer)]);
      && t in w'.tasks && w'.tasks[t].pc.Done?
      && var r := w'.tasks[t].pc.report;
      && (r.IsFilled() <==> answer.Accepted? && answer.filled >= 0.0)
      && (answer.Accepted? ==> r.source == if answer.average > 0.0 then Venue else SyntheticMark)
      && (r.source.SyntheticMark? ==> r.price == LastMark(w.bridge, w.tasks[t].pc.intent))
  {
    ReportsAreTruthful(mode, acts);
    AfterNext(Boot(mode), acts, OrderReturned(t, answer));
  }

  // ---------------------------------------------------------------- where a live price comes from

  /** The step brings t's accepted order back without a positive average. */
  predicate Unpriced(w: World, a: Action, t: nat) {
    && a.OrderReturned? && a.task == t && t in w.tasks && w.tasks[t].pc.Ordering?
    && a.answer.Accepted? && a.answer.average <= 0.0
  }

  /** The step brings back an exception in place of t's price ticker. */
  predicate TickerRaises(w: World, a: Action, t: nat) {
    a.TickerReturned? && a.task == t && t in w.tasks && w.tasks[t].pc.Pricing? && a.last.None?
  }

  predicate WasUnpriced(mode: QuantMode, acts: seq<Action>, t: nat) {
    acts != [] &&
    var n := |acts| - 1;
    WasUnpriced(mode, acts[..n], t) || Unpriced(After(Boot(mode), acts[..n]), acts[n], t)
  }

  /** No session was held when the answer without a price came back. */
  predicate AnswerFoundNoSession(mode: QuantMode, acts: seq<Action>, t: nat) {
    acts != [] &&
    var n := |acts| - 1;
    var w := After(Boot(mode), acts[..n]);
    AnswerFoundNoSession(mode, acts[..n], t) || (Unpriced(w, acts[n], t) && w.bridge.exchange.None?)
  }

  predicate TickerRaised(mode: QuantMode, acts: seq<Action>, t: nat) {
    acts != [] &&
    var n := |acts| - 1;
    TickerRaised(mode, acts[..n], t) || TickerRaises(After(Boot(mode), acts[..n]), acts[n], t)
  }

  /** What the history of a call says about where it stands. */
  predicate Story(w: World, t: nat, unpriced: bool, gone: bool, raised: bool) {
    if t in w.tasks && w.tasks[t].route.LiveRoute? && w.tasks[t].pc.Done? then
      w.tasks[t].pc.report.source.SyntheticMark? <==> unpriced && (gone || raised)
    else if t in w.tasks && w.tasks[t].pc.Pricing? then unpriced && !gone && !raised
    else !unpriced && !gone && !raised
  }

  lemma StepTellsStory(w: World, a: Action, t: nat, unpriced: bool, gone: bool, raised: bool)
    requires AllTruthful(w) && Story(w, t, unpriced, gone, raised)
    ensures Story(Step(w, a), t, unpriced || Unpriced(w, a, t),
                  gone || (Unpriced(w, a, t) && w.bridge.exchange.None?), raised || TickerRaises(w, a, t))
  {
    if t in w.tasks {
      assert Truthful(w.tasks[t], OrdersOf(w.bridge.orders, t));
    }
  }

  lemma {:induction false} RunTellsStory(mode: QuantMode, acts: seq<Action>, t: nat)
    ensures Story(After(Boot(mode), acts), t,
                  WasUnpriced(mode, acts, t), AnswerFoundNoSession(mode, acts, t), TickerRaised(mode, acts, t))
  {
    if acts != [] {
      var n := |acts| - 1;
      RunTellsStory(mode, acts[..n], t);
      ReportsAreTruthful(mode, acts[..n]);
      StepTellsStory(After(Boot(mode), acts[..n]), acts[n], t, WasUnpriced(mode, acts[..n], t),
                     AnswerFoundNoSession(mode, acts[..n], t), TickerRaised(mode, acts[..n], t));
    }
  }

  /**
   In every interleaving the price of a live report is the synthetic mark exactly when the accepted answer had
   no positive average and either no session was held when it came back or the ticker raised.
   */
  lemma LivePriceIsSyntheticExactlyWhen(mode: QuantMode, acts: seq<Action>, t: nat)
    requires var w := After(Boot(mode), acts); t in w.tasks && w.tasks[t].route.LiveRoute? && w.tasks[t].pc.Done?
    ensures After(Boot(mode), acts).tasks[t].pc.report.source.SyntheticMark? <==>
      WasUnpriced(mode, acts, t) && (AnswerFoundNoSession(mode, acts, t) || TickerRaised(mode, acts, t))
  {
    RunTellsStory(mode, acts, t);
  }

  lemma RuleNext(mode: QuantMode, acts: seq<Action>, a: Action)
    requires NoConnectAcrossLeaving(mode, acts)
    requires a.SetMode? && a.mode != REALITY ==> NothingLoading(After(Boot(mode), acts))
    ensures NoConnectAcrossLeaving(mode, acts + [a])
    ensures After(Boot(mode), acts + [a]) == Step(After(Boot(mode), acts), a)
  {
    assert (acts + [a])[..|acts|] == acts;
  }

  lemma MarkedSessionUp(symbol: string, price: real) returns (acts: seq<Action>)
    ensures NoConnectAcrossLeaving(REALITY, acts)
    ensures After(Boot(REALITY), acts) ==
      World(REALITY, Bridge(Some(0), true, true, map[symbol := price], []), map[0 := Task(NoRoute, Idle)])
  {
    RuleNext(REALITY, [], StartConnect(0, true));
    acts := [] + [StartConnect(0, true)];
    RuleNext(REALITY, acts, MarketsLoaded(0, 0, true));
    acts := acts + [MarketsLoaded(0, 0, true)];
    assert After(Boot(REALITY), acts).tasks == map[0 := Task(NoRoute, Idle)];
    RuleNext(REALITY, acts, Marked(symbol, price));
    acts := acts + [Marked(symbol, price)];
  }

  /** An order is out and leaving REALITY has dropped the session. */
  lemma OrderOutWithoutSession(i: Intent, price: real) returns (acts: seq<Action>)
    requires i.Valid()
    ensures NoConnectAcrossLeaving(REALITY, acts)
    ensures var w := After(Boot(REALITY), acts);
      && w.mode == SIMULATION && w.bridge.exchange.None? && w.bridge.marks == map[i.symbol := price]
      && 1 in w.tasks && w.tasks[1] == Task(LiveRoute, Ordering(i))
  {
    acts := MarkedSessionUp(i.symbol, price);
    RuleNext(REALITY, acts, Start(1, i, Quotes));
    acts := acts + [Start(1, i, Quotes)];
    RuleNext(REALITY, acts, Sized(1));
    acts := acts + [Sized(1)];
    RuleNext(REALITY, acts, SetMode(SIMULATION));
    acts := acts + [SetMode(SIMULATION)];
  }

  /** A run within the rule in which a live report is FILLED in REALITY at the price of the simulated world. */
  lemma InFlightLossFillsAtWorldMark(i: Intent, price: real) returns (acts: seq<Action>)
    requires i.Valid()
    ensures NoConnectAcrossLeaving(REALITY, acts)
    ensures var w := After(Boot(REALITY), acts);
      1 in w.tasks && w.tasks[1].pc == Done(Report(FILLED, REALITY, i.quantity, price, SyntheticMark))
  {
    acts := OrderOutWithoutSession(i, price);
    RuleNext(REALITY, acts, OrderReturned(1, Accepted(0.0, 0.0)));
    acts := acts + [OrderReturned(1, Accepted(0.0, 0.0))];
  }

  /** A finished call stays finished, with the same report, whatever happens after it. */
  lemma {:induction false} ReportsAreFinal(w: World, acts: seq<Action>, t: nat)
    requires t in w.tasks && w.tasks[t].pc.Done?
    ensures t in After(w, acts).tasks && After(w, acts).tasks[t] == w.tasks[t]
  {
    if acts != [] {
      ReportsAreFinal(w, acts[..|acts| - 1], t);
    }
  }
}
