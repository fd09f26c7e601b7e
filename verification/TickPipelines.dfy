/**
 The deterministic tick of core/engine.py: events queued between ticks, drained in (priority, seq) order
 before the five phases run, and handlers that may queue more while the tick is under way.
 */
module TickPipelines {
  import opened Basics
  import S = Sorting

  datatype Phase = SNAPSHOT | APPLY_EVENTS | RESOLVE_CONFLICTS | UPDATE_WORLD | EMIT_SIGNALS

  const ORDER := [SNAPSHOT, APPLY_EVENTS, RESOLVE_CONFLICTS, UPDATE_WORLD, EMIT_SIGNALS]

  datatype Request = Request(kind: string, payload: int, priority: int)

  datatype Pending = Pending(request: Request, seqNo: nat)

  // ---------------------------------------------------------------- sorted()

  predicate Precedes(a: Pending, b: Pending) {
    a.request.priority < b.request.priority ||
    (a.request.priority == b.request.priority && a.seqNo <= b.seqNo)
  }

  function Sort(es: seq<Pending>): (r: seq<Pending>)
    ensures |r| == |es|
  {
    S.Sort(Precedes, es)
  }

  ghost predicate Sorted(s: seq<Pending>) {
    S.Sorted(Precedes, s)
  }

  /** sorted() puts the queue in order and neither loses nor repeats an event. */
  lemma SortSorts(es: seq<Pending>)
    ensures Sorted(Sort(es)) && multiset(Sort(es)) == multiset(es)
  {
    assert S.Orders(Precedes);
    S.SortOrders(Precedes, es);
    S.SortRearranges(Precedes, es);
  }

  // ---------------------------------------------------------------- handlers

  /** A registered handler, and the requests it queues when the tick calls it. */
  datatype Handler = Handler(name: string, priority: int, queues: seq<Request>)

  predicate NotAfter(a: Handler, b: Handler) {
    a.priority <= b.priority
  }

  /** list.append followed by a stable sort on the priority. */
  function InsertHandler(h: Handler, hs: seq<Handler>): (r: seq<Handler>)
    ensures |r| == |hs| + 1
  {
    S.Insert(NotAfter, h, hs)
  }

  ghost predicate HandlersSorted(hs: seq<Handler>) {
    S.Sorted(NotAfter, hs)
  }

  function HasPriority(priority: int): Handler -> bool {
    (h: Handler) => h.priority == priority
  }

  function SamePriority(hs: seq<Handler>, priority: int): seq<Handler> {
    S.Kept(HasPriority(priority), hs)
  }

  lemma RegistrationAdds(h: Handler, hs: seq<Handler>)
    ensures multiset(InsertHandler(h, hs)) == multiset(hs) + multiset{h}
  {
    S.InsertAdds(NotAfter, h, hs);
  }

  /** Registration keeps the handlers in ascending priority. */
  lemma RegistrationSorts(h: Handler, hs: seq<Handler>)
    requires HandlersSorted(hs)
    ensures HandlersSorted(InsertHandler(h, hs))
  {
    assert S.Orders(NotAfter);
    S.InsertSorts(NotAfter, h, hs);
  }

  /** Inside a priority handlers run in registration order. */
  lemma RegistrationIsStable(h: Handler, hs: seq<Handler>, priority: int)
    ensures SamePriority(InsertHandler(h, hs), priority) ==
      SamePriority(hs, priority) + if h.priority == priority then [h] else []
  {
    S.InsertIsStable(NotAfter, HasPriority(priority), h, hs);
  }

  // ---------------------------------------------------------------- the pipeline

  datatype Tick = Tick(index: nat, events: seq<Pending>)

  function QueueAll(pending: seq<Pending>, seqNo: nat, rs: seq<Request>): seq<Pending> {
    if rs == [] then pending
    else QueueAll(pending, seqNo, rs[..|rs| - 1]) + [Pending(rs[|rs| - 1], seqNo + |rs|)]
  }

  /** What the handlers of the phases queue during one tick, in the order they run. */
  function MidTick(handlers: map<Phase, seq<Handler>>, phases: seq<Phase>): seq<Request> {
    if phases == [] then []
    else
      var p := phases[|phases| - 1];
      MidTick(handlers, phases[..|phases| - 1]) + QueuedIn(handlers, p)
  }

  function QueuedIn(handlers: map<Phase, seq<Handler>>, p: Phase): seq<Request> {
    if p in handlers then QueuedBy(handlers[p]) else []
  }

  function QueuedBy(hs: seq<Handler>): seq<Request> {
    if hs == [] then [] else QueuedBy(hs[..|hs| - 1]) + hs[|hs| - 1].queues
  }

  lemma {:induction false} QueueAllAppend(pending: seq<Pending>, seqNo: nat, xs: seq<Request>, ys: seq<Request>)
    ensures QueueAll(pending, seqNo, xs + ys) == QueueAll(QueueAll(pending, seqNo, xs), seqNo + |xs|, ys)
  {
    if ys == [] {
      assert xs + ys == xs;
    } else {
      var n := |ys| - 1;
      QueueAllAppend(pending, seqNo, xs, ys[..n]);
      assert (xs + ys)[..|xs + ys| - 1] == xs + ys[..n];
    }
  }

  class TickPipeline {
    var handlers: map<Phase, seq<Handler>>
    var pending: seq<Pending>
    var seqNo: nat
    var tickIndex: nat

    constructor ()
      ensures handlers == map[] && pending == [] && seqNo == 0 && tickIndex == 0
    {
      handlers, pending, seqNo, tickIndex := map[], [], 0, 0;
    }

    method Register(phase: Phase, h: Handler)
      modifies this`handlers
      ensures handlers == old(handlers)[phase :=
        InsertHandler(h, if phase in old(handlers) then old(handlers)[phase] else [])]
    {
      var hs := if phase in handlers then handlers[phase] else [];
      handlers := handlers[phase := InsertHandler(h, hs)];
    }

    method Enqueue(r: Request)
      modifies this`pending, this`seqNo
      ensures seqNo == old(seqNo) + 1 && pending == old(pending) + [Pending(r, seqNo)]
    {
      seqNo := seqNo + 1;
      pending := pending + [Pending(r, seqNo)];
    }

    method DrainPending() returns (drained: seq<Pending>)
      modifies this`pending
      ensures drained == Sort(old(pending)) && pending == []
    {
      if pending == [] {
        return [];
      }
      drained := Sort(pending);
      pending := [];
    }

    method EnqueueAll(rs: seq<Request>)
      modifies this`pending, this`seqNo
      ensures seqNo == old(seqNo) + |rs| && pending == QueueAll(old(pending), old(seqNo), rs)
    {
      for i := 0 to |rs|
        invariant seqNo == old(seqNo) + i && pending == QueueAll(old(pending), old(seqNo), rs[..i])
      {
        assert rs[..i + 1][..i] == rs[..i];
        Enqueue(rs[i]);
      }
      assert rs[..|rs|] == rs;
    }

    method RunPhase(phase: Phase)
      modifies this`pending, this`seqNo
      ensures var rs := QueuedIn(handlers, phase);
        seqNo == old(seqNo) + |rs| && pending == QueueAll(old(pending), old(seqNo), rs)
    {
      var hs := if phase in handlers then handlers[phase] else [];
      for i := 0 to |hs|
        invariant seqNo == old(seqNo) + |QueuedBy(hs[..i])|
        invariant pending == QueueAll(old(pending), old(seqNo), QueuedBy(hs[..i]))
      {
        assert hs[..i + 1][..i] == hs[..i];
        QueueAllAppend(old(pending), old(seqNo), QueuedBy(hs[..i]), hs[i].queues);
        EnqueueAll(hs[i].queues);
      }
      assert hs[..|hs|] == hs;
    }

    method RunPhases(phases: seq<Phase>)
      modifies this`pending, this`seqNo
      ensures var rs := MidTick(handlers, phases);
        seqNo == old(seqNo) + |rs| && pending == QueueAll(old(pending), old(seqNo), rs)
    {
      for i := 0 to |phases|
        invariant seqNo == old(seqNo) + |MidTick(handlers, phases[..i])|
        invariant pending == QueueAll(old(pending), old(seqNo), MidTick(handlers, phases[..i]))
      {
        assert phases[..i + 1][..i] == phases[..i];
        ghost var done, more := MidTick(handlers, phases[..i]), QueuedIn(handlers, phases[i]);
        assert MidTick(handlers, phases[..i + 1]) == done + more;
        QueueAllAppend(old(pending), old(seqNo), done, more);
        RunPhase(phases[i]);
      }
      assert phases[..|phases|] == phases;
    }

    /** One tick: the queue is drained before any phase, then the five phases run in order. */
    method RunTick() returns (t: Tick)
      modifies this`pending, this`seqNo, this`tickIndex
      ensures t == Tick(tickIndex, Sort(old(pending))) && tickIndex == old(tickIndex) + 1
      ensures var rs := MidTick(handlers, ORDER);
        seqNo == old(seqNo) + |rs| && pending == QueueAll([], old(seqNo), rs)
    {
      tickIndex := tickIndex + 1;
      var events := DrainPending();
      RunPhases(ORDER);
      t := Tick(tickIndex, events);
    }
  }

  // ---------------------------------------------------------------- whole runs

  /** Requests arrive from outside, or a tick runs whose handlers queue these requests. */
  datatype Action = Arrive(request: Request) | RunTick(midTick: seq<Request>)

  datatype State = State(pending: seq<Pending>, seqNo: nat, batches: seq<seq<Pending>>)

  const START := State([], 0, [])

  function Step(s: State, a: Action): State {
    match a
    case Arrive(r) => State(s.pending + [Pending(r, s.seqNo + 1)], s.seqNo + 1, s.batches)
    case RunTick(rs) => State(QueueAll([], s.seqNo, rs), s.seqNo + |rs|, s.batches + [Sort(s.pending)])
  }

  function After(acts: seq<Action>): State {
    if acts == [] then START else Step(After(acts[..|acts| - 1]), acts[|acts| - 1])
  }

  /** What was enqueued before, and what the action adds to it, numbered on. */
  function EnqueuedNext(all: seq<Pending>, a: Action): seq<Pending> {
    match a
    case Arrive(r) => all + [Pending(r, |all| + 1)]
    case RunTick(rs) => QueueAll(all, |all|, rs)
  }

  /** Everything ever enqueued, in order of arrival, numbered from one. */
  function Enqueued(acts: seq<Action>): seq<Pending> {
    if acts == [] then [] else EnqueuedNext(Enqueued(acts[..|acts| - 1]), acts[|acts| - 1])
  }

  function Flat(batches: seq<seq<Pending>>): seq<Pending> {
    if batches == [] then [] else Flat(batches[..|batches| - 1]) + batches[|batches| - 1]
  }

  lemma {:induction false} QueueAllSplits(pending: seq<Pending>, seqNo: nat, rs: seq<Request>)
    ensures QueueAll(pending, seqNo, rs) == pending + QueueAll([], seqNo, rs)
    ensures |QueueAll(pending, seqNo, rs)| == |pending| + |rs|
  {
    if rs != [] {
      QueueAllSplits(pending, seqNo, rs[..|rs| - 1]);
    }
  }

  lemma {:induction false} Counted(acts: seq<Action>)
    ensures After(acts).seqNo == |Enqueued(acts)|
  {
    if acts != [] {
      var n := |acts| - 1;
      Counted(acts[..n]);
      if acts[n].RunTick? {
        QueueAllSplits(Enqueued(acts[..n]), |Enqueued(acts[..n])|, acts[n].midTick);
      }
    }
  }

  /** The events applied so far and those waiting, as one bag. */
  function Held(s: State): multiset<Pending> {
    multiset(Flat(s.batches)) + multiset(s.pending)
  }

  lemma ArrivalAddsOne(s: State, r: Request)
    ensures Held(Step(s, Arrive(r))) == Held(s) + multiset{Pending(r, s.seqNo + 1)}
  {
    assert multiset(s.pending + [Pending(r, s.seqNo + 1)]) == multiset(s.pending) + multiset{Pending(r, s.seqNo + 1)};
  }

  lemma FlatAppend(batches: seq<seq<Pending>>, batch: seq<Pending>)
    ensures Flat(batches + [batch]) == Flat(batches) + batch
  {
    assert (batches + [batch])[..|batches|] == batches;
  }

  lemma TickAddsQueued(s: State, rs: seq<Request>)
    ensures Held(Step(s, RunTick(rs))) == Held(s) + multiset(QueueAll([], s.seqNo, rs))
  {
    SortSorts(s.pending);
    FlatAppend(s.batches, Sort(s.pending));
  }

  lemma BagOfConcat(xs: seq<Pending>, ys: seq<Pending>)
    ensures multiset(xs + ys) == multiset(xs) + multiset(ys)
  {
  }

  /** One action keeps the bag of what is held equal to the bag of what was enqueued. */
  lemma StepHolds(s: State, all: seq<Pending>, a: Action)
    requires Held(s) == multiset(all) && s.seqNo == |all|
    ensures Held(Step(s, a)) == multiset(EnqueuedNext(all, a))
  {
    match a
    case Arrive(r) =>
      ArrivalAddsOne(s, r);
      BagOfConcat(all, [Pending(r, |all| + 1)]);
    case RunTick(rs) =>
      TickAddsQueued(s, rs);
      QueueAllSplits(all, |all|, rs);
      BagOfConcat(all, QueueAll([], |all|, rs));
  }

  lemma {:induction false} AlwaysHeld(acts: seq<Action>)
    ensures Held(After(acts)) == multiset(Enqueued(acts))
  {
    if acts != [] {
      var n := |acts| - 1;
      AlwaysHeld(acts[..n]);
      Counted(acts[..n]);
      StepHolds(After(acts[..n]), Enqueued(acts[..n]), acts[n]);
      assert After(acts) == Step(After(acts[..n]), acts[n]);
      assert Enqueued(acts) == EnqueuedNext(Enqueued(acts[..n]), acts[n]);
    }
  }

  /** Drained batches and queue together are a permutation of everything enqueued. */
  lemma NothingLostOrRepeated(acts: seq<Action>)
    ensures multiset(Flat(After(acts).batches)) + multiset(After(acts).pending) == multiset(Enqueued(acts))
  {
    AlwaysHeld(acts);
  }

  lemma {:induction false} QueueAllNumbers(seqNo: nat, rs: seq<Request>)
    ensures |QueueAll([], seqNo, rs)| == |rs|
    ensures forall i :: 0 <= i < |rs| ==> QueueAll([], seqNo, rs)[i] == Pending(rs[i], seqNo + i + 1)
  {
    if rs != [] {
      QueueAllNumbers(seqNo, rs[..|rs| - 1]);
    }
  }

  /** The i-th enqueued event carries number i + 1, so no two are equal. */
  lemma {:induction false} EnqueuedIsNumbered(acts: seq<Action>)
    ensures forall i :: 0 <= i < |Enqueued(acts)| ==> Enqueued(acts)[i].seqNo == i + 1
  {
    if acts != [] {
      var n := |acts| - 1;
      EnqueuedIsNumbered(acts[..n]);
      if acts[n].RunTick? {
        var before := Enqueued(acts[..n]);
        QueueAllSplits(before, |before|, acts[n].midTick);
        QueueAllNumbers(|before|, acts[n].midTick);
      }
    }
  }

  /** Every event is applied at most once, and it is either applied or still waiting, never both. */
  lemma AppliedExactlyOnce(acts: seq<Action>, e: Pending)
    requires e in Enqueued(acts)
    ensures multiset(Flat(After(acts).batches))[e] + multiset(After(acts).pending)[e] == 1
  {
    NothingLostOrRepeated(acts);
    EnqueuedIsNumbered(acts);
    NumberedOccursOnce(Enqueued(acts), e);
  }

  lemma NumberedOccursOnce(all: seq<Pending>, e: Pending)
    requires forall i :: 0 <= i < |all| ==> all[i].seqNo == i + 1
    requires e in all
    ensures multiset(all)[e] == 1
  {
    var k := e.seqNo - 1;
    assert all == all[..k] + [e] + all[k + 1..];
    assert e !in all[..k] && e !in all[k + 1..];
  }

  /** What a handler queues during a tick is not applied in that tick; it opens the queue of the next. */
  lemma MidTickWaitsForNextTick(acts: seq<Action>, rs: seq<Request>)
    ensures var s, s' := After(acts), Step(After(acts), RunTick(rs));
      && s'.batches == s.batches + [Sort(s.pending)]
      && (forall e :: e in Sort(s.pending) ==> e.seqNo <= s.seqNo)
      && |s'.pending| == |rs|
      && (forall i :: 0 <= i < |rs| ==> s'.pending[i] == Pending(rs[i], s.seqNo + i + 1))
  {
    var s := After(acts);
    QueueAllNumbers(s.seqNo, rs);
    PendingIsOlder(acts);
    SortSorts(s.pending);
    forall e | e in Sort(s.pending) ensures e.seqNo <= s.seqNo {
      assert e in multiset(Sort(s.pending));
    }
  }

  lemma {:induction false} PendingIsOlder(acts: seq<Action>)
    ensures forall e :: e in After(acts).pending ==> e.seqNo <= After(acts).seqNo
    ensures forall i, j :: 0 <= i < j < |After(acts).pending| ==>
      After(acts).pending[i].seqNo < After(acts).pending[j].seqNo
  {
    if acts != [] {
      var n := |acts| - 1;
      PendingIsOlder(acts[..n]);
      if acts[n].RunTick? {
        QueueAllNumbers(After(acts[..n]).seqNo, acts[n].midTick);
      }
    }
  }

  // ---------------------------------------------------------------- determinism

  function OfPriority(es: seq<Pending>, p: int): seq<Request> {
    if es == [] then []
    else OfPriority(es[..|es| - 1], p) + Only(es[|es| - 1], p)
  }

  function Only(e: Pending, p: int): seq<Request> {
    if e.request.priority == p then [e.request] else []
  }

  function InClass(p: int): Pending -> bool {
    (e: Pending) => e.request.priority == p
  }

  /** The two queues hold the same requests, in the same order, at every priority. */
  ghost predicate SameClasses(a: seq<Pending>, b: seq<Pending>) {
    forall p :: OfPriority(a, p) == OfPriority(b, p)
  }

  function Requests(es: seq<Pending>): (rs: seq<Request>)
    ensures |rs| == |es|
    ensures forall i :: 0 <= i < |es| ==> rs[i] == es[i].request
  {
    seq(|es|, i requires 0 <= i < |es| => es[i].request)
  }

  ghost predicate InArrivalOrder(es: seq<Pending>) {
    forall i, j :: 0 <= i < j < |es| ==> es[i].seqNo < es[j].seqNo
  }

  lemma {:induction false} OfPriorityIsKept(es: seq<Pending>, p: int)
    ensures OfPriority(es, p) == Requests(S.Kept(InClass(p), es))
  {
    if es != [] {
      OfPriorityIsKept(es[..|es| - 1], p);
      assert Requests(S.Only(InClass(p), es[|es| - 1])) == Only(es[|es| - 1], p);
      RequestsConcat(S.Kept(InClass(p), es[..|es| - 1]), S.Only(InClass(p), es[|es| - 1]));
    }
  }

  lemma RequestsConcat(xs: seq<Pending>, ys: seq<Pending>)
    ensures Requests(xs + ys) == Requests(xs) + Requests(ys)
  {
  }

  /** Draining keeps the order of arrival inside each priority. */
  lemma SortKeepsClasses(es: seq<Pending>, p: int)
    requires InArrivalOrder(es)
    ensures OfPriority(Sort(es), p) == OfPriority(es, p)
  {
    S.SortIsStable(Precedes, InClass(p), es);
    OfPriorityIsKept(es, p);
    OfPriorityIsKept(Sort(es), p);
  }

  ghost predicate ByPriority(es: seq<Pending>) {
    forall i, j :: 0 <= i < j < |es| ==> es[i].request.priority <= es[j].request.priority
  }

  lemma {:induction false} ClassOfNone(es: seq<Pending>, p: int)
    requires forall i :: 0 <= i < |es| ==> es[i].request.priority != p
    ensures OfPriority(es, p) == []
  {
    if es != [] {
      ClassOfNone(es[..|es| - 1], p);
    }
  }

  lemma {:induction false} ClassMembers(es: seq<Pending>, p: int)
    requires OfPriority(es, p) != []
    ensures exists i :: 0 <= i < |es| && es[i].request.priority == p
  {
    if forall i :: 0 <= i < |es| ==> es[i].request.priority != p {
      ClassOfNone(es, p);
    }
  }

  lemma LastHasClass(b: seq<Pending>)
    requires b != []
    ensures OfPriority(b, b[|b| - 1].request.priority) != []
  {
  }

  lemma LastPriorityAgrees(a: seq<Pending>, b: seq<Pending>)
    requires ByPriority(a) && ByPriority(b) && a != []
    requires SameClasses(a, b)
    ensures b != [] && a[|a| - 1].request.priority == b[|b| - 1].request.priority
  {
    var x := a[|a| - 1].request;
    assert OfPriority(a, x.priority) != [];
    assert OfPriority(b, x.priority) != [];
    ClassMembers(b, x.priority);
    var y := b[|b| - 1].request;
    assert OfPriority(b, y.priority) != [];
    assert OfPriority(a, y.priority) != [];
    ClassMembers(a, y.priority);
  }

  /** Two priority-sorted lists with the same classes end in the same request. */
  lemma LastAgrees(a: seq<Pending>, b: seq<Pending>)
    requires ByPriority(a) && ByPriority(b) && a != []
    requires SameClasses(a, b)
    ensures b != [] && a[|a| - 1].request == b[|b| - 1].request
    ensures SameClasses(a[..|a| - 1], b[..|b| - 1])
  {
    LastPriorityAgrees(a, b);
    var x, y := a[|a| - 1], b[|b| - 1];
    var ra, rb := a[..|a| - 1], b[..|b| - 1];
    assert OfPriority(ra, x.request.priority) + [x.request] == OfPriority(rb, x.request.priority) + [y.request] by {
      assert OfPriority(a, x.request.priority) == OfPriority(b, x.request.priority);
    }
    LastOfEqual(OfPriority(ra, x.request.priority), x.request, OfPriority(rb, x.request.priority), y.request);
    forall p ensures OfPriority(ra, p) == OfPriority(rb, p) {
      if p != x.request.priority {
        assert OfPriority(a, p) == OfPriority(ra, p) + Only(x, p) == OfPriority(ra, p);
        assert OfPriority(b, p) == OfPriority(rb, p) + Only(y, p) == OfPriority(rb, p);
      }
    }
  }

  lemma LastOfEqual<T>(a: seq<T>, x: T, b: seq<T>, y: T)
    requires a + [x] == b + [y]
    ensures a == b && x == y
  {
    assert (a + [x])[|a + [x]| - 1] == x && (b + [y])[|b + [y]| - 1] == y;
    assert (a + [x])[..|a|] == a && (b + [y])[..|b|] == b;
  }

  lemma {:induction false} ClassesDetermineOrder(a: seq<Pending>, b: seq<Pending>)
    requires ByPriority(a) && ByPriority(b)
    requires SameClasses(a, b)
    ensures Requests(a) == Requests(b)
  {
    if a == [] {
      if b != [] {
        LastHasClass(b);
        assert false;
      }
    } else {
      LastAgrees(a, b);
      ClassesDetermineOrder(a[..|a| - 1], b[..|b| - 1]);
      assert Requests(a) == Requests(a[..|a| - 1]) + [a[|a| - 1].request];
      assert Requests(b) == Requests(b[..|b| - 1]) + [b[|b| - 1].request];
    }
  }

  /**
   Arrival order matters only inside a priority: two queues that agree class by class drain to the same
   kinds and payloads in the same order.
   */
  lemma DrainDependsOnClassesOnly(a: seq<Pending>, b: seq<Pending>)
    requires InArrivalOrder(a) && InArrivalOrder(b)
    requires SameClasses(a, b)
    ensures Requests(Sort(a)) == Requests(Sort(b))
  {
    SortSorts(a);
    SortSorts(b);
    forall p ensures OfPriority(Sort(a), p) == OfPriority(Sort(b), p) {
      SortKeepsClasses(a, p);
      SortKeepsClasses(b, p);
    }
    ClassesDetermineOrder(Sort(a), Sort(b));
  }

  /** Conversely, the drained batch tells the classes apart: different classes, different batches. */
  lemma DrainDeterminesClasses(a: seq<Pending>, b: seq<Pending>)
    requires InArrivalOrder(a) && InArrivalOrder(b) && Requests(Sort(a)) == Requests(Sort(b))
    ensures SameClasses(a, b)
  {
    forall p ensures OfPriority(a, p) == OfPriority(b, p) {
      SortKeepsClasses(a, p);
      SortKeepsClasses(b, p);
      assert forall i :: 0 <= i < |Sort(a)| ==> Sort(a)[i].request == Requests(Sort(b))[i];
      ClassesFromRequests(Sort(a), Sort(b), p);
    }
  }

  lemma {:induction false} ClassesFromRequests(a: seq<Pending>, b: seq<Pending>, p: int)
    requires |a| == |b| && forall i :: 0 <= i < |a| ==> a[i].request == b[i].request
    ensures OfPriority(a, p) == OfPriority(b, p)
  {
    if a != [] {
      var n := |a| - 1;
      ClassesFromRequests(a[..n], b[..n], p);
      assert a[n].request == b[n].request;
    }
  }
}
