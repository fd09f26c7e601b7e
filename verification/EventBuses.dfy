/**
 The publish/subscribe bus of core/event_bus.py with its mode gate, run together with the mode
 controller. One dispatch, from taking the event off the queue to handing it to the admitted handlers,
 is one step.
 */
module EventBuses {
  import opened Basics
  import opened Modes

  datatype Domain = Ungoverned | Quant | Other(name: string)

  datatype Event = Event(topic: string, payload: int)

  datatype Subscription = Subscription(handler: string, domain: Domain)

  /** One hand-over to a handler, with the modes it happened under. */
  datatype Call = Call(handler: string, domain: Domain, event: Event, gate: QuantMode, operating: OperatingMode)

  const WORLD_PREFIX := "world."

  predicate Gated(topic: string, domain: Domain, mode: QuantMode) {
    domain.Quant? && mode == REALITY && WORLD_PREFIX <= topic
  }

  /** Dispatch decision for one event: the calls made, in subscription order. */
  function Admitted(subs: seq<Subscription>, e: Event, gate: QuantMode, operating: OperatingMode): seq<Call> {
    if subs == [] then []
    else
      var s := subs[|subs| - 1];
      Admitted(subs[..|subs| - 1], e, gate, operating) +
        if Gated(e.topic, s.domain, gate) then [] else [Call(s.handler, s.domain, e, gate, operating)]
  }

  datatype Bus = Bus(subscribers: map<string, seq<Subscription>>, queue: seq<Event>, calls: seq<Call>)

  const IDLE := Bus(map[], [], [])

  function SubsOf(b: Bus, topic: string): seq<Subscription> {
    if topic in b.subscribers then b.subscribers[topic] else []
  }

  function Subscribed(b: Bus, topic: string, s: Subscription): Bus {
    b.(subscribers := b.subscribers[topic := SubsOf(b, topic) + [s]])
  }

  /** Dispatch waits when the queue is empty. */
  function Dispatched(b: Bus, gate: QuantMode, operating: OperatingMode): Bus {
    if b.queue == [] then b
    else
      b.(queue := b.queue[1..],
         calls := b.calls + Admitted(SubsOf(b, b.queue[0].topic), b.queue[0], gate, operating))
  }

  class EventBus {
    const modes: ModeManager
    const controller: SystemController
    var subscribers: map<string, seq<Subscription>>
    var queue: seq<Event>
    var calls: seq<Call>

    ghost function View(): Bus
      reads this
    {
      Bus(subscribers, queue, calls)
    }

    constructor (controller: SystemController)
      ensures View() == IDLE && this.controller == controller && modes == controller.manager
    {
      this.controller := controller;
      modes := controller.manager;
      subscribers, queue, calls := map[], [], [];
    }

    method Subscribe(topic: string, handler: string, domain: Domain)
      modifies this`subscribers
      ensures View() == Subscribed(old(View()), topic, Subscription(handler, domain))
    {
      if topic !in subscribers {
        subscribers := subscribers[topic := []];
      }
      subscribers := subscribers[topic := subscribers[topic] + [Subscription(handler, domain)]];
    }

    method Publish(topic: string, payload: int)
      modifies this`queue
      ensures View() == old(View()).(queue := old(queue) + [Event(topic, payload)])
    {
      queue := queue + [Event(topic, payload)];
    }

    /** One turn of the dispatch loop. */
    method DispatchOne()
      modifies this`queue, this`calls
      ensures View() == Dispatched(old(View()), modes.mode, controller.operating)
    {
      if queue == [] {
        return;
      }
      var e := queue[0];
      queue := queue[1..];
      var subs := if e.topic in subscribers then subscribers[e.topic] else [];
      var delivered := [];
      for i := 0 to |subs|
        invariant delivered == Admitted(subs[..i], e, modes.mode, controller.operating)
      {
        assert subs[..i + 1][..i] == subs[..i];
        if !Gated(e.topic, subs[i].domain, modes.mode) {
          delivered := delivered + [Call(subs[i].handler, subs[i].domain, e, modes.mode, controller.operating)];
        }
      }
      assert subs[..|subs|] == subs;
      calls := calls + delivered;
    }
  }

  // ---------------------------------------------------------------- whole runs

  datatype Action =
    | Subscribe(topic: string, handler: string, domain: Domain)
    | Publish(topic: string, payload: int)
    | Dispatch
    | SetMode(requested: Option<OperatingMode>)
    | SetWorld(enabled: bool)
    | SetBridge(enabled: bool)

  datatype System = System(gate: QuantMode, controls: Controls, bus: Bus)

  function Boot(gate: QuantMode, worldDefault: bool): System {
    System(gate, BootControls(worldDefault), IDLE)
  }

  function Step(s: System, a: Action): System {
    match a
    case Subscribe(topic, handler, domain) => s.(bus := Subscribed(s.bus, topic, Subscription(handler, domain)))
    case Publish(topic, payload) => s.(bus := s.bus.(queue := s.bus.queue + [Event(topic, payload)]))
    case Dispatch => s.(bus := Dispatched(s.bus, s.gate, s.controls.operating))
    case SetMode(requested) =>
      var m := if requested.Some? then requested.value else s.controls.operating;
      s.(gate := Resolve(m), controls := s.controls.(operating := m))
    case SetWorld(on) => s.(controls := s.controls.(worldEnabled := on))
    case SetBridge(on) => s.(controls := s.controls.(bridgeRequested := on))
  }

  function After(s: System, acts: seq<Action>): System {
    if acts == [] then s else Step(After(s, acts[..|acts| - 1]), acts[|acts| - 1])
  }

  // ---------------------------------------------------------------- the history, without a queue

  function Published(acts: seq<Action>): seq<Event> {
    if acts == [] then []
    else
      var a := acts[|acts| - 1];
      Published(acts[..|acts| - 1]) + if a.Publish? then [Event(a.topic, a.payload)] else []
  }

  /** How many dispatches found something to dispatch. */
  function Served(acts: seq<Action>): (n: nat)
    ensures n <= |Published(acts)|
  {
    if acts == [] then 0
    else
      var before := acts[..|acts| - 1];
      Served(before) + if acts[|acts| - 1].Dispatch? && Served(before) < |Published(before)| then 1 else 0
  }

  function SubscriptionsSoFar(acts: seq<Action>, topic: string): seq<Subscription> {
    if acts == [] then []
    else
      var a := acts[|acts| - 1];
      SubscriptionsSoFar(acts[..|acts| - 1], topic) +
        if a.Subscribe? && a.topic == topic then [Subscription(a.handler, a.domain)] else []
  }

  /** The mode of the latest transition, or the boot mode. */
  function GateSoFar(gate: QuantMode, acts: seq<Action>): QuantMode {
    if acts == [] then gate
    else
      var a := acts[|acts| - 1];
      if a.SetMode? then Resolve(OperatingSoFar(acts)) else GateSoFar(gate, acts[..|acts| - 1])
  }

  function OperatingSoFar(acts: seq<Action>): OperatingMode {
    if acts == [] then REALITY_OPS
    else
      var a := acts[|acts| - 1];
      if a.SetMode? && a.requested.Some? then a.requested.value else OperatingSoFar(acts[..|acts| - 1])
  }

  /** How many copies of the event handler h is owed by its subscriptions under the gate. */
  function Copies(h: string, subs: seq<Subscription>, topic: string, gate: QuantMode): nat {
    if subs == [] then 0
    else
      var s := subs[|subs| - 1];
      Copies(h, subs[..|subs| - 1], topic, gate) + if s.handler == h && !Gated(topic, s.domain, gate) then 1 else 0
  }

  function Repeat<T>(x: T, n: nat): (xs: seq<T>)
    ensures |xs| == n
  {
    if n == 0 then [] else Repeat(x, n - 1) + [x]
  }

  /**
   What h must have received: the published events in order, each as often as h was subscribed to its
   topic, ungated, at the moment its turn came.
   */
  function Owed(h: string, gate: QuantMode, acts: seq<Action>): seq<Event> {
    if acts == [] then []
    else
      var before := acts[..|acts| - 1];
      if acts[|acts| - 1].Dispatch? && Served(before) < |Published(before)| then
        var e := Published(before)[Served(before)];
        Owed(h, gate, before) +
          Repeat(e, Copies(h, SubscriptionsSoFar(before, e.topic), e.topic, GateSoFar(gate, before)))
      else Owed(h, gate, before)
  }

  function Received(h: string, calls: seq<Call>): seq<Event> {
    if calls == [] then []
    else
      var c := calls[|calls| - 1];
      Received(h, calls[..|calls| - 1]) + if c.handler == h then [c.event] else []
  }

  lemma {:induction false} ReceivedAppend(h: string, xs: seq<Call>, ys: seq<Call>)
    ensures Received(h, xs + ys) == Received(h, xs) + Received(h, ys)
  {
    if ys == [] {
      assert xs + ys == xs;
    } else {
      ReceivedAppend(h, xs, ys[..|ys| - 1]);
      assert (xs + ys)[..|xs + ys| - 1] == xs + ys[..|ys| - 1];
    }
  }

  lemma OneMoreCopy(h: string, calls: seq<Call>, c: Call, n: nat)
    requires Received(h, calls) == Repeat(c.event, n)
    ensures Received(h, calls + [c]) == Repeat(c.event, n + if c.handler == h then 1 else 0)
  {
    assert (calls + [c])[..|calls|] == calls;
  }

  lemma LastAdmitted(subs: seq<Subscription>, s: Subscription, e: Event, gate: QuantMode, ops: OperatingMode)
    ensures Admitted(subs + [s], e, gate, ops) ==
      if Gated(e.topic, s.domain, gate) then Admitted(subs, e, gate, ops)
      else Admitted(subs, e, gate, ops) + [Call(s.handler, s.domain, e, gate, ops)]
  {
    assert (subs + [s])[..|subs|] == subs;
  }

  lemma LastCopies(h: string, subs: seq<Subscription>, s: Subscription, topic: string, gate: QuantMode)
    ensures Copies(h, subs + [s], topic, gate) ==
      Copies(h, subs, topic, gate) + if s.handler == h && !Gated(topic, s.domain, gate) then 1 else 0
  {
    assert (subs + [s])[..|subs|] == subs;
  }

  lemma {:induction false} AdmittedCopies(
    h: string, subs: seq<Subscription>, e: Event, gate: QuantMode, ops: OperatingMode)
    ensures Received(h, Admitted(subs, e, gate, ops)) == Repeat(e, Copies(h, subs, e.topic, gate))
  {
    if subs != [] {
      var front, last := subs[..|subs| - 1], subs[|subs| - 1];
      assert subs == front + [last];
      AdmittedCopies(h, front, e, gate, ops);
      LastAdmitted(front, last, e, gate, ops);
      LastCopies(h, front, last, e.topic, gate);
      OneMoreCopy(h, Admitted(front, e, gate, ops), Call(last.handler, last.domain, e, gate, ops),
                  Copies(h, front, e.topic, gate));
    }
  }

  lemma {:induction false} QueueFollowsHistory(gate: QuantMode, world: bool, acts: seq<Action>)
    ensures After(Boot(gate, world), acts).bus.queue == Published(acts)[Served(acts)..]
  {
    if acts != [] {
      var n := |acts| - 1;
      QueueFollowsHistory(gate, world, acts[..n]);
      if acts[n].Publish? {
        assert Served(acts) == Served(acts[..n]);
      }
    }
  }

  lemma {:induction false} ModesFollowHistory(gate: QuantMode, world: bool, acts: seq<Action>)
    ensures var s := After(Boot(gate, world), acts);
      s.gate == GateSoFar(gate, acts) && s.controls.operating == OperatingSoFar(acts)
  {
    if acts != [] {
      ModesFollowHistory(gate, world, acts[..|acts| - 1]);
    }
  }

  lemma {:induction false} SubscribersFollowHistory(gate: QuantMode, world: bool, acts: seq<Action>, topic: string)
    ensures SubsOf(After(Boot(gate, world), acts).bus, topic) == SubscriptionsSoFar(acts, topic)
  {
    if acts != [] {
      SubscribersFollowHistory(gate, world, acts[..|acts| - 1], topic);
    }
  }

  /**
   Nothing lost, invented or reordered: over any run, what a handler received is exactly the published
   sequence filtered by its subscriptions and by the gate at dispatch time.
   */
  lemma {:induction false} HandlersReceiveExactlyWhatIsOwed(h: string, gate: QuantMode, world: bool, acts: seq<Action>)
    ensures Received(h, After(Boot(gate, world), acts).bus.calls) == Owed(h, gate, acts)
  {
    if acts != [] {
      var n := |acts| - 1;
      var s := After(Boot(gate, world), acts[..n]);
      HandlersReceiveExactlyWhatIsOwed(h, gate, world, acts[..n]);
      QueueFollowsHistory(gate, world, acts[..n]);
      ModesFollowHistory(gate, world, acts[..n]);
      if acts[n].Dispatch? && s.bus.queue != [] {
        assert s.bus.queue[0] == Published(acts[..n])[Served(acts[..n])];
        SubscribersFollowHistory(gate, world, acts[..n], s.bus.queue[0].topic);
        DispatchDelivers(h, s.bus, s.gate, s.controls.operating);
      }
    }
  }

  lemma DispatchDelivers(h: string, b: Bus, gate: QuantMode, ops: OperatingMode)
    requires b.queue != []
    ensures var e := b.queue[0];
      Received(h, Dispatched(b, gate, ops).calls) ==
        Received(h, b.calls) + Repeat(e, Copies(h, SubsOf(b, e.topic), e.topic, gate))
  {
    var e := b.queue[0];
    AdmittedCopies(h, SubsOf(b, e.topic), e, gate, ops);
    ReceivedAppend(h, b.calls, Admitted(SubsOf(b, e.topic), e, gate, ops));
  }

  function OnTopic(es: seq<Event>, topic: string): seq<Event> {
    if es == [] then []
    else OnTopic(es[..|es| - 1], topic) + if es[|es| - 1].topic == topic then [es[|es| - 1]] else []
  }

  /** At every dispatch h holds exactly one subscription, to this topic, and no gate stops it. */
  predicate SoleSubscriber(h: string, topic: string, gate: QuantMode, acts: seq<Action>) {
    acts == [] ||
    var before := acts[..|acts| - 1];
    && SoleSubscriber(h, topic, gate, before)
    && (acts[|acts| - 1].Dispatch? && Served(before) < |Published(before)| ==>
      var t := Published(before)[Served(before)].topic;
      Copies(h, SubscriptionsSoFar(before, t), t, GateSoFar(gate, before)) == if t == topic then 1 else 0)
  }

  /** For such a handler the received sequence is the served part of the published one on its topic. */
  lemma {:induction false} SoleSubscriberReceivesItsTopic(
    h: string, topic: string, gate: QuantMode, world: bool, acts: seq<Action>)
    requires SoleSubscriber(h, topic, gate, acts)
    ensures Received(h, After(Boot(gate, world), acts).bus.calls) == OnTopic(Published(acts)[..Served(acts)], topic)
  {
    HandlersReceiveExactlyWhatIsOwed(h, gate, world, acts);
    OwedOnTopic(h, topic, gate, acts);
  }

  lemma {:induction false} OwedOnTopic(h: string, topic: string, gate: QuantMode, acts: seq<Action>)
    requires SoleSubscriber(h, topic, gate, acts)
    ensures Owed(h, gate, acts) == OnTopic(Published(acts)[..Served(acts)], topic)
  {
    if acts != [] {
      var n := |acts| - 1;
      var before := acts[..n];
      OwedOnTopic(h, topic, gate, before);
      var done := Served(before);
      if acts[n].Dispatch? && done < |Published(before)| {
        assert Published(acts) == Published(before);
        var e := Published(before)[done];
        OnTopicNext(Published(before), done, topic);
        RepeatOnce(e);
      } else {
        assert Published(acts)[..done] == Published(before)[..done];
      }
    }
  }

  lemma RepeatOnce<T>(x: T)
    ensures Repeat(x, 1) == [x] && Repeat(x, 0) == []
  {
  }

  lemma OnTopicNext(es: seq<Event>, k: nat, topic: string)
    requires k < |es|
    ensures OnTopic(es[..k + 1], topic) == OnTopic(es[..k], topic) + if es[k].topic == topic then [es[k]] else []
  {
    assert es[..k + 1][..k] == es[..k];
  }

  // ---------------------------------------------------------------- isolation

  /** A simulated event handed to an execution node while the operator's mode means live trading. */
  predicate Leak(c: Call) {
    c.domain.Quant? && WORLD_PREFIX <= c.event.topic && Resolve(c.operating) == REALITY
  }

  predicate Isolated(calls: seq<Call>) {
    forall k :: 0 <= k < |calls| ==> !Leak(calls[k])
  }

  lemma {:induction false} AdmittedIsolated(subs: seq<Subscription>, e: Event, gate: QuantMode, ops: OperatingMode)
    requires gate == Resolve(ops)
    ensures Isolated(Admitted(subs, e, gate, ops))
  {
    if subs != [] {
      AdmittedIsolated(subs[..|subs| - 1], e, gate, ops);
    }
  }

  lemma {:induction false} SyncedBootIsolates(gate: QuantMode, world: bool, acts: seq<Action>)
    requires gate == REALITY
    ensures var s := After(Boot(gate, world), acts); s.gate == Resolve(s.controls.operating) && Isolated(s.bus.calls)
  {
    if acts != [] {
      var n := |acts| - 1;
      SyncedBootIsolates(gate, world, acts[..n]);
      var s := After(Boot(gate, world), acts[..n]);
      if acts[n].Dispatch? && s.bus.queue != [] {
        AdmittedIsolated(SubsOf(s.bus, s.bus.queue[0].topic), s.bus.queue[0], s.gate, s.controls.operating);
      }
    }
  }

  ghost predicate NeverLeaks(gate: QuantMode) {
    forall world: bool, acts: seq<Action> :: Isolated(After(Boot(gate, world), acts).bus.calls)
  }

  /**
   No run leaks a world event into a QUANT handler while the operating mode resolves to REALITY,
   exactly when the process boots with the gate in REALITY. The controller always boots in REALITY, but
   the gate takes its boot value from the QUANT_MODE environment variable and only the first mode change
   brings the two together.
   */
  lemma NeverLeaksExactlyWhenBootedInReality(gate: QuantMode)
    ensures NeverLeaks(gate) <==> gate == REALITY
  {
    if gate == REALITY {
      forall world: bool, acts: seq<Action> ensures Isolated(After(Boot(gate, world), acts).bus.calls) {
        SyncedBootIsolates(gate, world, acts);
      }
    } else {
      SimulationBootLeaks("world.micro_impact");
    }
  }

  /** Booted with the gate in SIMULATION, the first world event reaches the execution node. */
  lemma SimulationBootLeaks(topic: string)
    requires WORLD_PREFIX <= topic
    ensures var acts := [Subscribe(topic, "quant", Quant), Publish(topic, 1), Dispatch];
      !Isolated(After(Boot(SIMULATION, true), acts).bus.calls)
  {
    var a0, a1 := Subscribe(topic, "quant", Quant), Publish(topic, 1);
    var s0 := Boot(SIMULATION, true);
    var s2 := Step(Step(s0, a0), a1);
    AfterThree(s0, a0, a1, Dispatch);
    var sub, e := Subscription("quant", Quant), Event(topic, 1);
    var c := Call("quant", Quant, e, SIMULATION, REALITY_OPS);
    assert s2.bus.queue == [e] && SubsOf(s2.bus, topic) == [sub];
    assert [sub][..0] == [];
    assert Admitted([sub], e, SIMULATION, REALITY_OPS) == [c];
    assert Step(s2, Dispatch).bus.calls == [c];
    assert Leak([c][0]);
  }

  lemma AfterThree(s: System, a: Action, b: Action, c: Action)
    ensures After(s, [a, b, c]) == Step(Step(Step(s, a), b), c)
  {
    assert [a, b, c][..2] == [a, b];
    assert [a, b][..1] == [a];
    assert [a][..0] == [];
    assert After(s, [a]) == Step(s, a);
    assert After(s, [a, b]) == Step(Step(s, a), b);
  }

  /** Whatever the boot value, the operator's coupling is effective only while the gate is in SIMULATION. */
  lemma {:induction false} CouplingOnlyBehindOpenGate(gate: QuantMode, world: bool, acts: seq<Action>)
    ensures var s := After(Boot(gate, world), acts);
      && (s.gate == Resolve(s.controls.operating) || s.controls.operating == REALITY_OPS)
      && (CouplingEffective(s.controls) ==> s.gate == SIMULATION)
  {
    if acts != [] {
      CouplingOnlyBehindOpenGate(gate, world, acts[..|acts| - 1]);
    }
  }

  /** Whatever the boot value, every dispatch after the first mode change is isolated. */
  lemma {:induction false} FirstModeChangeIsolates(s: System, requested: Option<OperatingMode>, acts: seq<Action>)
    ensures var s1 := Step(s, SetMode(requested));
      var s2 := After(s1, acts);
      && s2.gate == Resolve(s2.controls.operating)
      && |s1.bus.calls| <= |s2.bus.calls|
      && s2.bus.calls[..|s1.bus.calls|] == s1.bus.calls
      && Isolated(s2.bus.calls[|s1.bus.calls|..])
  {
    var s1 := Step(s, SetMode(requested));
    if acts != [] {
      var n := |acts| - 1;
      FirstModeChangeIsolates(s, requested, acts[..n]);
      var t := After(s1, acts[..n]);
      if acts[n].Dispatch? && t.bus.queue != [] {
        var more := Admitted(SubsOf(t.bus, t.bus.queue[0].topic), t.bus.queue[0], t.gate, t.controls.operating);
        AdmittedIsolated(SubsOf(t.bus, t.bus.queue[0].topic), t.bus.queue[0], t.gate, t.controls.operating);
        assert (t.bus.calls + more)[|s1.bus.calls|..] == t.bus.calls[|s1.bus.calls|..] + more;
      }
    }
  }
}
