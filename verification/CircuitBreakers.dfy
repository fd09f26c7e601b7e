/**
 The three-state circuit breaker of sentinel/circuit_breaker.py.

 The clock is a parameter. The transition hook is a log of its calls, because the breaker awaits it
 and looks at no result.
 */
module CircuitBreakers {
  import opened Basics

  datatype BreakerState = CLOSED | OPEN | HALF_OPEN

  datatype Reason =
    | Nothing
    | CooldownElapsed
    | ProbeSucceeded
    | ProbeFailed(cause: string)
    | Consecutive(count: nat, cause: string)
    | Given(cause: string)

  datatype Transition = Transition(before: BreakerState, after: BreakerState, reason: Reason)

  datatype Config = Config(threshold: int, resetTimeout: real, hooked: bool)

  datatype Breaker = Breaker(
    state: BreakerState,
    failures: nat,
    openedAt: Option<real>,
    lastReason: Reason,
    hooks: seq<Transition>)

  const FRESH := Breaker(CLOSED, 0, None, Nothing, [])

  // ---------------------------------------------------------------- one call

  function Enter(b: Breaker, next: BreakerState, reason: Reason, now: real): Breaker {
    if next == b.state then b
    else b.(state := next, lastReason := reason,
            openedAt := if next.OPEN? then Some(now) else b.openedAt)
  }

  function Emit(c: Config, before: BreakerState, b: Breaker, reason: Reason): Breaker {
    if c.hooked && before != b.state then b.(hooks := b.hooks + [Transition(before, b.state, reason)]) else b
  }

  function Observe(c: Config, b: Breaker, now: real): Breaker {
    if b.state.OPEN? && b.openedAt.Some? && now - b.openedAt.value >= c.resetTimeout
    then Enter(b, HALF_OPEN, CooldownElapsed, now)
    else b
  }

  predicate AllowsTraffic(c: Config, b: Breaker, now: real) {
    !Observe(c, b, now).state.OPEN?
  }

  function OnSuccess(c: Config, b: Breaker, now: real): Breaker {
    var b := b.(failures := 0);
    if b.state.HALF_OPEN? then Emit(c, b.state, Enter(b, CLOSED, ProbeSucceeded, now), ProbeSucceeded) else b
  }

  function OnTrip(c: Config, b: Breaker, cause: string, now: real): Breaker {
    Emit(c, b.state, Enter(b, OPEN, Given(cause), now), Given(cause))
  }

  function OnFailure(c: Config, b: Breaker, cause: string, now: real): Breaker {
    var b := b.(failures := b.failures + 1);
    if b.state.HALF_OPEN? then
      Emit(c, b.state, Enter(b, OPEN, ProbeFailed(cause), now), ProbeFailed(cause))
    else if b.failures >= c.threshold then
      Emit(c, b.state, Enter(b, OPEN, Consecutive(b.failures, cause), now), Given(cause))
    else b
  }

  /** The object itself: even reading `state` may move it from OPEN to HALF_OPEN. */
  class CircuitBreaker {
    const config: Config
    var state: BreakerState
    var failures: nat
    var openedAt: Option<real>
    var lastReason: Reason
    var hooks: seq<Transition>

    ghost function View(): Breaker
      reads this
    {
      Breaker(state, failures, openedAt, lastReason, hooks)
    }

    constructor (config: Config)
      ensures this.config == config && View() == FRESH
    {
      this.config := config;
      state, failures, openedAt, lastReason, hooks := CLOSED, 0, None, Nothing, [];
    }

    method MaybeHalfOpen(now: real)
      modifies this
      ensures View() == Observe(config, old(View()), now)
    {
      if state == OPEN && openedAt.Some? && now - openedAt.value >= config.resetTimeout {
        var _ := Set(HALF_OPEN, CooldownElapsed, now);
      }
    }

    method Set(next: BreakerState, reason: Reason, now: real) returns (before: Option<BreakerState>)
      modifies this
      ensures View() == Enter(old(View()), next, reason, now)
      ensures before == if next == old(state) then None else Some(old(state))
    {
      if next == state {
        return None;
      }
      before := Some(state);
      state := next;
      lastReason := reason;
      if next == OPEN {
        openedAt := Some(now);
      }
    }

    method EmitHook(before: Option<BreakerState>, reason: Reason)
      modifies this`hooks
      ensures hooks == old(hooks) +
        if before.Some? && config.hooked then [Transition(before.value, state, reason)] else []
    {
      if before.Some? && config.hooked {
        hooks := hooks + [Transition(before.value, state, reason)];
      }
    }

    method State(now: real) returns (s: BreakerState)
      modifies this
      ensures View() == Observe(config, old(View()), now)
      ensures s == state
    {
      MaybeHalfOpen(now);
      s := state;
    }

    method IsOpen(now: real) returns (r: bool)
      modifies this
      ensures View() == Observe(config, old(View()), now)
      ensures r == !AllowsTraffic(config, old(View()), now)
    {
      var s := State(now);
      r := s == OPEN;
    }

    method RecordSuccess(now: real)
      modifies this
      ensures View() == OnSuccess(config, old(View()), now)
    {
      failures := 0;
      if state == HALF_OPEN {
        var before := Set(CLOSED, ProbeSucceeded, now);
        EmitHook(before, ProbeSucceeded);
      }
    }

    method Trip(cause: string, now: real)
      modifies this
      ensures View() == OnTrip(config, old(View()), cause, now)
    {
      var before := Set(OPEN, Given(cause), now);
      EmitHook(before, Given(cause));
    }

    method RecordFailure(cause: string, now: real)
      modifies this
      ensures View() == OnFailure(config, old(View()), cause, now)
    {
      failures := failures + 1;
      if state == HALF_OPEN {
        var before := Set(OPEN, ProbeFailed(cause), now);
        EmitHook(before, ProbeFailed(cause));
        return;
      }
      if failures >= config.threshold {
        var before := Set(OPEN, Consecutive(failures, cause), now);
        EmitHook(before, Given(cause));
      }
    }
  }

  // ---------------------------------------------------------------- whole runs

  datatype Call = Query | Success | Failure(cause: string) | Trip(cause: string)

  datatype Stamped = At(now: real, call: Call)

  function Step(c: Config, b: Breaker, e: Stamped): Breaker {
    match e.call
    case Query => Observe(c, b, e.now)
    case Success => OnSuccess(c, b, e.now)
    case Failure(cause) => OnFailure(c, b, cause, e.now)
    case Trip(cause) => OnTrip(c, b, cause, e.now)
  }

  /** The breaker after a history of calls, the latest call last. */
  function After(c: Config, es: seq<Stamped>): Breaker {
    if es == [] then FRESH else Step(c, After(c, es[..|es| - 1]), es[|es| - 1])
  }

  function StateAfter(c: Config, es: seq<Stamped>, k: nat): BreakerState
    requires k <= |es|
  {
    After(c, es[..k]).state
  }

  /** The k-th call of the history moves the breaker into OPEN. */
  predicate OpensAt(c: Config, es: seq<Stamped>, k: nat)
    requires k < |es|
  {
    !StateAfter(c, es, k).OPEN? && StateAfter(c, es, k + 1).OPEN?
  }

  function FailuresSinceSuccess(es: seq<Stamped>): nat {
    if es == [] then
      0
    else
      match es[|es| - 1].call
      case Success => 0
      case Failure(_) => FailuresSinceSuccess(es[..|es| - 1]) + 1
      case _ => FailuresSinceSuccess(es[..|es| - 1])
  }

  /** How many calls of the history move the breaker into OPEN. */
  function OpenEntries(c: Config, es: seq<Stamped>): nat {
    if es == [] then 0
    else OpenEntries(c, es[..|es| - 1]) + (if OpensAt(c, es, |es| - 1) then 1 else 0)
  }

  function HooksInto(hooks: seq<Transition>, s: BreakerState): nat {
    if hooks == [] then 0
    else HooksInto(hooks[..|hooks| - 1], s) + if hooks[|hooks| - 1].after == s then 1 else 0
  }

  lemma PrefixOfPrefix(es: seq<Stamped>, n: nat, k: nat)
    requires k <= n <= |es|
    ensures es[..n][..k] == es[..k]
  {
  }

  /** A history that is OPEN at i and CLOSED at j has probed in HALF_OPEN in between. */
  lemma {:induction false} OpenClosesOnlyThroughHalfOpen(c: Config, es: seq<Stamped>, i: nat, j: nat)
    requires i <= j <= |es|
    requires StateAfter(c, es, i).OPEN? && StateAfter(c, es, j).CLOSED?
    ensures exists k :: i < k < j && StateAfter(c, es, k).HALF_OPEN?
    decreases j
  {
    PrefixOfPrefix(es, j, j - 1);
    if StateAfter(c, es, j - 1).CLOSED? {
      OpenClosesOnlyThroughHalfOpen(c, es, i, j - 1);
    } else {
      assert StateAfter(c, es, j - 1).HALF_OPEN?;
    }
  }

  /** No call since position k has moved the breaker into OPEN. */
  predicate NoOpeningSince(c: Config, es: seq<Stamped>, k: nat)
    requires k < |es|
  {
    forall m :: k < m < |es| ==> !OpensAt(c, es, m)
  }

  lemma OpeningsOfPrefix(c: Config, es: seq<Stamped>, n: nat, k: nat)
    requires k < n <= |es|
    ensures OpensAt(c, es[..n], k) == OpensAt(c, es, k)
  {
    PrefixOfPrefix(es, n, k);
    PrefixOfPrefix(es, n, k + 1);
  }

  /**
   After the latest entry into OPEN, at call k, every moment that comes before the cooldown has
   elapsed finds the breaker still OPEN with that opening time.
   */
  lemma {:induction false} StaysOpenDuringCooldown(c: Config, es: seq<Stamped>, k: nat)
    requires k < |es| && OpensAt(c, es, k)
    requires forall m :: k < m < |es| ==> es[m].now - es[k].now < c.resetTimeout
    ensures After(c, es).state.OPEN? && After(c, es).openedAt == Some(es[k].now)
    decreases |es|
  {
    var n := |es| - 1;
    assert es[..n + 1] == es;
    if k < n {
      OpeningsOfPrefix(c, es, n, k);
      StaysOpenDuringCooldown(c, es[..n], k);
    }
  }

  lemma {:induction false} OpenedAtLatestEntry(c: Config, es: seq<Stamped>, k: nat)
    requires k < |es| && OpensAt(c, es, k) && NoOpeningSince(c, es, k)
    ensures After(c, es).openedAt == Some(es[k].now)
    decreases |es|
  {
    var n := |es| - 1;
    assert es[..n + 1] == es;
    if k < n {
      OpeningsOfPrefix(c, es, n, k);
      forall m | k < m < n ensures !OpensAt(c, es[..n], m) {
        OpeningsOfPrefix(c, es, n, m);
      }
      OpenedAtLatestEntry(c, es[..n], k);
      assert !OpensAt(c, es, n);
    }
  }

  /**
   A query made at `now` on a breaker that no call has moved since its latest entry into OPEN lets
   traffic through exactly when the cooldown has elapsed; and while it has not, no sequence of calls
   can have moved the breaker away from OPEN.
   */
  lemma TrafficExactlyAfterCooldown(c: Config, es: seq<Stamped>, k: nat, now: real)
    requires k < |es| && OpensAt(c, es, k) && NoOpeningSince(c, es, k)
    requires forall m :: k < m < |es| ==> es[m].now <= now
    ensures now - es[k].now < c.resetTimeout ==> !AllowsTraffic(c, After(c, es), now)
    ensures now - es[k].now >= c.resetTimeout ==> AllowsTraffic(c, After(c, es), now)
  {
    OpenedAtLatestEntry(c, es, k);
    if now - es[k].now < c.resetTimeout {
      StaysOpenDuringCooldown(c, es, k);
    }
  }

  lemma {:induction false} FailureCounterCounts(c: Config, es: seq<Stamped>)
    ensures After(c, es).failures == FailuresSinceSuccess(es)
    ensures After(c, es).state.CLOSED? ==> FailuresSinceSuccess(es) < MaxInt(1, c.threshold)
  {
    if es != [] {
      FailureCounterCounts(c, es[..|es| - 1]);
    }
  }

  /**
   A failure opens a CLOSED breaker exactly when it is the threshold-th failure since the last
   success. A threshold below one behaves as one.
   */
  lemma ClosedOpensExactlyAtThreshold(c: Config, es: seq<Stamped>, now: real, cause: string)
    requires After(c, es).state.CLOSED?
    ensures var es' := es + [At(now, Failure(cause))];
      After(c, es').state.OPEN? <==> FailuresSinceSuccess(es') == MaxInt(1, c.threshold)
    ensures var es' := es + [At(now, Failure(cause))]; !After(c, es').state.HALF_OPEN?
  {
    var es' := es + [At(now, Failure(cause))];
    assert es'[..|es'| - 1] == es;
    FailureCounterCounts(c, es);
  }

  /** One call adds one hook call into OPEN when it enters OPEN, and none into HALF_OPEN. */
  lemma StepHooks(c: Config, b: Breaker, e: Stamped)
    requires c.hooked
    ensures var b' := Step(c, b, e);
      && HooksInto(b'.hooks, OPEN) ==
           HooksInto(b.hooks, OPEN) + (if !b.state.OPEN? && b'.state.OPEN? then 1 else 0)
      && HooksInto(b'.hooks, HALF_OPEN) == HooksInto(b.hooks, HALF_OPEN)
  {
    var b' := Step(c, b, e);
    assert b'.hooks == b.hooks || b'.hooks[..|b'.hooks| - 1] == b.hooks;
  }

  /** The hook is told of every entry into OPEN exactly once, and of no entry into HALF_OPEN. */
  lemma {:induction false} HookFiresOncePerOpening(c: Config, es: seq<Stamped>)
    requires c.hooked
    ensures HooksInto(After(c, es).hooks, OPEN) == OpenEntries(c, es)
    ensures HooksInto(After(c, es).hooks, HALF_OPEN) == 0
  {
    if es != [] {
      var n := |es| - 1;
      assert es[..n + 1] == es;
      HookFiresOncePerOpening(c, es[..n]);
      StepHooks(c, After(c, es[..n]), es[n]);
    }
  }
}
