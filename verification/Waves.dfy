/**
 The wave scheduler of training/orchestrator.py: jobs run wave by wave, each wave on a pool of worker
 threads that takes jobs in the order they were submitted.
 */
module Waves {
  import opened Basics

  datatype Job = Job(name: string, wave: int, device: string)

  // ---------------------------------------------------------------- the plan of a wave

  function OfWave(jobs: seq<Job>, wave: int, device: string): seq<Job> {
    if jobs == [] then []
    else
      var j := jobs[|jobs| - 1];
      OfWave(jobs[..|jobs| - 1], wave, device) + if j.wave == wave && j.device == device then [j] else []
  }

  /** Python's xs[:k], where a negative k counts from the end. */
  function Take<T>(xs: seq<T>, k: int): seq<T> {
    if k >= |xs| then xs else if k >= 0 then xs[..k] else if -k <= |xs| then xs[..|xs| + k] else []
  }

  /** Python's xs[k:]. */
  function Drop<T>(xs: seq<T>, k: int): seq<T> {
    if k >= |xs| then [] else if k >= 0 then xs[k..] else if -k <= |xs| then xs[|xs| + k..] else xs
  }

  lemma TakeDrop<T>(xs: seq<T>, k: int)
    ensures Take(xs, k) + Drop(xs, k) == xs
  {
  }

  /** Ordering a wave neither loses nor repeats a job. */
  lemma PlanIsPermutation(gpu: seq<Job>, cpu: seq<Job>, cap: int)
    ensures multiset(PlanWave(gpu, cpu, cap).ordered) == multiset(gpu) + multiset(cpu)
  {
    TakeDrop(gpu, cap);
    assert multiset(gpu) == multiset(Take(gpu, cap)) + multiset(Drop(gpu, cap));
  }

  /** GPU jobs up to the cap first, then the CPU jobs, then the other GPU jobs; and the pool size. */
  datatype Plan = Plan(ordered: seq<Job>, workers: int)

  function PlanWave(gpu: seq<Job>, cpu: seq<Job>, cap: int): Plan {
    Plan(Take(gpu, cap) + cpu + Drop(gpu, cap), MaxInt(1, MinInt(|gpu|, cap)) + |cpu|)
  }

  predicate IsGpu(j: Job) {
    j.device == "gpu"
  }

  // ---------------------------------------------------------------- the pool

  /** A job taken off the queue, and whether it has ended. */
  datatype Slot = Slot(job: Job, ended: bool)

  /** The slots are the jobs started so far, in submission order. */
  datatype Pool = Pool(plan: Plan, slots: seq<Slot>)

  predicate Wf(p: Pool) {
    |p.slots| <= |p.plan.ordered| && forall k :: 0 <= k < |p.slots| ==> p.slots[k].job == p.plan.ordered[k]
  }

  function Count(slots: seq<Slot>, gpu: bool, ended: bool): nat {
    if slots == [] then 0
    else
      var x := slots[|slots| - 1];
      Count(slots[..|slots| - 1], gpu, ended) + (if IsGpu(x.job) == gpu && x.ended == ended then 1 else 0)
  }

  function Running(p: Pool): nat {
    Count(p.slots, true, false) + Count(p.slots, false, false)
  }

  function RunningGpu(p: Pool): nat {
    Count(p.slots, true, false)
  }

  function FinishedCpu(p: Pool): nat {
    Count(p.slots, false, true)
  }

  datatype Event = Start | Finish(k: nat)

  /** A free worker takes the next job in submission order; a running job ends. */
  predicate Enabled(p: Pool, e: Event) {
    match e
    case Start => |p.slots| < |p.plan.ordered| && Running(p) < p.plan.workers
    case Finish(k) => k < |p.slots| && !p.slots[k].ended
  }

  function Next(p: Pool, e: Event): Pool {
    match e
    case Start =>
      if |p.slots| < |p.plan.ordered| then p.(slots := p.slots + [Slot(p.plan.ordered[|p.slots|], false)]) else p
    case Finish(k) => if k < |p.slots| then p.(slots := p.slots[k := p.slots[k].(ended := true)]) else p
  }

  predicate Trace(p: Pool, es: seq<Event>) {
    es == [] || (Trace(p, es[..|es| - 1]) && Enabled(After(p, es[..|es| - 1]), es[|es| - 1]))
  }

  function After(p: Pool, es: seq<Event>): Pool {
    if es == [] then p else Next(After(p, es[..|es| - 1]), es[|es| - 1])
  }

  function Opened(plan: Plan): Pool {
    Pool(plan, [])
  }

  // ---------------------------------------------------------------- counting

  predicate AllGpu(xs: seq<Slot>) {
    forall k :: 0 <= k < |xs| ==> IsGpu(xs[k].job)
  }

  predicate NoGpu(xs: seq<Slot>) {
    forall k :: 0 <= k < |xs| ==> !IsGpu(xs[k].job)
  }

  predicate RunningGpuOnly(xs: seq<Slot>) {
    forall k :: 0 <= k < |xs| ==> IsGpu(xs[k].job) && !xs[k].ended
  }

  lemma {:induction false} CountConcat(xs: seq<Slot>, ys: seq<Slot>, gpu: bool, ended: bool)
    ensures Count(xs + ys, gpu, ended) == Count(xs, gpu, ended) + Count(ys, gpu, ended)
  {
    if ys == [] {
      assert xs + ys == xs;
    } else {
      CountConcat(xs, ys[..|ys| - 1], gpu, ended);
      assert (xs + ys)[..|xs + ys| - 1] == xs + ys[..|ys| - 1];
    }
  }

  lemma CountAppend(xs: seq<Slot>, x: Slot, gpu: bool, ended: bool)
    ensures Count(xs + [x], gpu, ended) ==
      Count(xs, gpu, ended) + (if IsGpu(x.job) == gpu && x.ended == ended then 1 else 0)
  {
    assert (xs + [x])[..|xs|] == xs;
  }

  lemma {:induction false} CountFinish(xs: seq<Slot>, k: nat, gpu: bool)
    requires k < |xs|
    ensures Count(xs[k := xs[k].(ended := true)], gpu, false) <= Count(xs, gpu, false)
    ensures !xs[k].ended && IsGpu(xs[k].job) == gpu ==>
      Count(xs[k := xs[k].(ended := true)], gpu, false) == Count(xs, gpu, false) - 1
    ensures IsGpu(xs[k].job) != gpu ==> Count(xs[k := xs[k].(ended := true)], gpu, false) == Count(xs, gpu, false)
  {
    var n := |xs| - 1;
    var ys := xs[k := xs[k].(ended := true)];
    if k == n {
      assert ys[..n] == xs[..n];
    } else {
      CountFinish(xs[..n], k, gpu);
      assert ys[..n] == xs[..n][k := xs[k].(ended := true)];
    }
  }

  lemma {:induction false} CountUniform(xs: seq<Slot>, gpu: bool)
    requires if gpu then AllGpu(xs) else NoGpu(xs)
    ensures Count(xs, gpu, false) + Count(xs, gpu, true) == |xs|
    ensures Count(xs, !gpu, false) == Count(xs, !gpu, true) == 0
  {
    if xs != [] {
      CountUniform(xs[..|xs| - 1], gpu);
    }
  }

  lemma StepKeepsPool(p: Pool, e: Event)
    requires Wf(p) && Running(p) <= MaxInt(0, p.plan.workers) && Enabled(p, e)
    ensures Wf(Next(p, e)) && Running(Next(p, e)) <= MaxInt(0, p.plan.workers)
    ensures Next(p, e).plan == p.plan
  {
    match e
    case Start =>
      CountAppend(p.slots, Slot(p.plan.ordered[|p.slots|], false), true, false);
      CountAppend(p.slots, Slot(p.plan.ordered[|p.slots|], false), false, false);
    case Finish(k) =>
      CountFinish(p.slots, k, true);
      CountFinish(p.slots, k, false);
  }

  lemma {:induction false} PoolInvariant(plan: Plan, es: seq<Event>)
    requires Trace(Opened(plan), es)
    ensures var p := After(Opened(plan), es);
      Wf(p) && p.plan == plan && Running(p) <= MaxInt(0, plan.workers)
  {
    if es != [] {
      PoolInvariant(plan, es[..|es| - 1]);
      StepKeepsPool(After(Opened(plan), es[..|es| - 1]), es[|es| - 1]);
    }
  }

  // ---------------------------------------------------------------- the bound

  ghost predicate Devices(gpu: seq<Job>, cpu: seq<Job>) {
    (forall i :: 0 <= i < |gpu| ==> IsGpu(gpu[i])) && (forall i :: 0 <= i < |cpu| ==> !IsGpu(cpu[i]))
  }

  function FirstBlock(gpu: seq<Job>, cap: int): nat {
    |Take(gpu, cap)|
  }

  lemma PartsAreGpu(gpu: seq<Job>, cap: int)
    requires forall i :: 0 <= i < |gpu| ==> IsGpu(gpu[i])
    ensures forall i :: 0 <= i < |Take(gpu, cap)| ==> IsGpu(Take(gpu, cap)[i])
    ensures forall i :: 0 <= i < |Drop(gpu, cap)| ==> IsGpu(Drop(gpu, cap)[i])
  {
  }

  lemma ThreeParts(a: seq<Job>, c: seq<Job>, d: seq<Job>, k: nat)
    requires k < |a + c + d|
    ensures (a + c + d)[k] ==
      if k < |a| then a[k] else if k < |a| + |c| then c[k - |a|] else d[k - |a| - |c|]
  {
  }

  /** In the plan the CPU jobs are exactly the block between the first GPU jobs and the rest. */
  lemma Layout(gpu: seq<Job>, cpu: seq<Job>, cap: int, k: nat)
    requires Devices(gpu, cpu) && k < |PlanWave(gpu, cpu, cap).ordered|
    ensures var b := FirstBlock(gpu, cap);
      !IsGpu(PlanWave(gpu, cpu, cap).ordered[k]) <==> b <= k < b + |cpu|
  {
    PartsAreGpu(gpu, cap);
    ThreeParts(Take(gpu, cap), cpu, Drop(gpu, cap), k);
  }

  lemma SlotsLayout(gpu: seq<Job>, cpu: seq<Job>, cap: int, p: Pool)
    requires Devices(gpu, cpu) && Wf(p) && p.plan == PlanWave(gpu, cpu, cap)
    ensures var b := FirstBlock(gpu, cap);
      forall k :: 0 <= k < |p.slots| ==> (!IsGpu(p.slots[k].job) <==> b <= k < b + |cpu|)
  {
    forall k | 0 <= k < |p.slots|
      ensures !IsGpu(p.slots[k].job) <==> FirstBlock(gpu, cap) <= k < FirstBlock(gpu, cap) + |cpu|
    {
      Layout(gpu, cpu, cap, k);
    }
  }

  lemma HeadBounds(head: seq<Slot>, tail: seq<Slot>)
    requires AllGpu(head) && NoGpu(tail)
    ensures Count(head + tail, true, false) <= |head|
  {
    CountUniform(head, true);
    CountUniform(tail, false);
    CountConcat(head, tail, true, false);
  }

  lemma EarlySlots(xs: seq<Slot>, b: nat, first: nat, c: nat)
    requires |xs| <= c && b == MinInt(first, |xs|)
    requires forall k :: 0 <= k < |xs| ==> (!IsGpu(xs[k].job) <==> first <= k < c)
    ensures AllGpu(xs[..b]) && NoGpu(xs[b..]) && xs == xs[..b] + xs[b..]
  {
  }

  /** While only first-block and CPU jobs have started, the running GPU jobs are first-block jobs. */
  lemma EarlyBound(gpu: seq<Job>, cpu: seq<Job>, cap: int, p: Pool)
    requires Devices(gpu, cpu) && Wf(p) && p.plan == PlanWave(gpu, cpu, cap)
    requires |p.slots| <= FirstBlock(gpu, cap) + |cpu|
    ensures RunningGpu(p) <= FirstBlock(gpu, cap)
  {
    SlotsLayout(gpu, cpu, cap, p);
    var b := MinInt(FirstBlock(gpu, cap), |p.slots|);
    EarlySlots(p.slots, b, FirstBlock(gpu, cap), FirstBlock(gpu, cap) + |cpu|);
    HeadBounds(p.slots[..b], p.slots[b..]);
  }

  lemma CpuBlock(xs: seq<Slot>, b: nat, c: nat)
    requires b <= c <= |xs|
    requires forall k :: 0 <= k < |xs| ==> (!IsGpu(xs[k].job) <==> b <= k < c)
    ensures AllGpu(xs[..b]) && NoGpu(xs[b..c]) && AllGpu(xs[c..])
    ensures xs == xs[..b] + xs[b..c] + xs[c..]
  {
  }

  lemma CountBlock(before: seq<Slot>, block: seq<Slot>, rest: seq<Slot>)
    requires AllGpu(before) && NoGpu(block) && AllGpu(rest)
    ensures Count(before + block + rest, false, false) + Count(before + block + rest, false, true) == |block|
  {
    forall ended: bool ensures Count(before + block + rest, false, ended) == Count(block, false, ended) {
      CountConcat(before + block, rest, false, ended);
      CountConcat(before, block, false, ended);
      CountUniform(before, true);
      CountUniform(rest, true);
    }
    CountUniform(block, false);
  }

  /** Once a job beyond the cap has started, every CPU job has started, running or finished. */
  lemma LateBound(gpu: seq<Job>, cpu: seq<Job>, cap: int, p: Pool)
    requires Devices(gpu, cpu) && Wf(p) && p.plan == PlanWave(gpu, cpu, cap)
    requires |p.slots| > FirstBlock(gpu, cap) + |cpu|
    ensures Count(p.slots, false, false) + FinishedCpu(p) == |cpu|
  {
    SlotsLayout(gpu, cpu, cap, p);
    var b, c := FirstBlock(gpu, cap), FirstBlock(gpu, cap) + |cpu|;
    CpuBlock(p.slots, b, c);
    CountBlock(p.slots[..b], p.slots[b..c], p.slots[c..]);
  }

  /**
   At every moment of a wave the running GPU jobs number at most the cap (or all of them) plus the CPU
   jobs that have already finished.
   */
  lemma GpuBound(gpu: seq<Job>, cpu: seq<Job>, cap: int, es: seq<Event>)
    requires Devices(gpu, cpu) && cap >= 1 && Trace(Opened(PlanWave(gpu, cpu, cap)), es)
    ensures var p := After(Opened(PlanWave(gpu, cpu, cap)), es);
      RunningGpu(p) <= MinInt(|gpu|, cap) + FinishedCpu(p)
  {
    PoolInvariant(PlanWave(gpu, cpu, cap), es);
    var p := After(Opened(PlanWave(gpu, cpu, cap)), es);
    if |p.slots| <= FirstBlock(gpu, cap) + |cpu| {
      EarlyBound(gpu, cpu, cap, p);
    } else {
      LateBound(gpu, cpu, cap, p);
    }
  }

  // ---------------------------------------------------------------- the cap

  /** In every schedule no more GPU jobs run at once than the cap, and none for a cap below one. */
  ghost predicate CapHolds(gpu: seq<Job>, cpu: seq<Job>, cap: int) {
    forall es: seq<Event> :: Trace(Opened(PlanWave(gpu, cpu, cap)), es) ==>
      RunningGpu(After(Opened(PlanWave(gpu, cpu, cap)), es)) <= MaxInt(0, cap)
  }

  /** The slots after the first n jobs have started and none has ended. */
  function Begun(plan: Plan, n: nat): (slots: seq<Slot>)
    requires n <= |plan.ordered|
    ensures |slots| == n
    ensures forall k :: 0 <= k < n ==> slots[k] == Slot(plan.ordered[k], false)
  {
    seq(n, k requires 0 <= k < n => Slot(plan.ordered[k], false))
  }

  lemma {:induction false} CountAtMostLength(xs: seq<Slot>)
    ensures Count(xs, true, false) + Count(xs, false, false) <= |xs|
  {
    if xs != [] {
      CountAtMostLength(xs[..|xs| - 1]);
    }
  }

  lemma TraceOneMore(p: Pool, es: seq<Event>, e: Event)
    requires Trace(p, es) && Enabled(After(p, es), e)
    ensures Trace(p, es + [e]) && After(p, es + [e]) == Next(After(p, es), e)
  {
    assert (es + [e])[..|es|] == es;
  }

  lemma {:induction false} StartAll(plan: Plan, n: nat) returns (es: seq<Event>)
    requires n <= |plan.ordered| && n <= plan.workers
    ensures Trace(Opened(plan), es) && After(Opened(plan), es) == Pool(plan, Begun(plan, n))
  {
    if n == 0 {
      es := [];
    } else {
      var before := StartAll(plan, n - 1);
      StartEnabled(plan, n - 1);
      TraceOneMore(Opened(plan), before, Start);
      es := before + [Start];
    }
  }

  lemma StartEnabled(plan: Plan, n: nat)
    requires n < |plan.ordered| && n < plan.workers
    ensures Enabled(Pool(plan, Begun(plan, n)), Start)
    ensures Next(Pool(plan, Begun(plan, n)), Start) == Pool(plan, Begun(plan, n + 1))
  {
    CountAtMostLength(Begun(plan, n));
    assert Begun(plan, n + 1) == Begun(plan, n) + [Slot(plan.ordered[n], false)];
  }

  /** Fill a pool of `full` workers, end job k, start the next one. */
  lemma FreedWorkerTakesNext(plan: Plan, full: nat, k: nat) returns (es: seq<Event>)
    requires k < full == plan.workers < |plan.ordered|
    ensures Trace(Opened(plan), es)
    ensures After(Opened(plan), es).slots ==
      Begun(plan, full)[k := Slot(plan.ordered[k], true)] + [Slot(plan.ordered[full], false)]
  {
    es := StartAll(plan, full);
    var xs := Begun(plan, full);
    TraceOneMore(Opened(plan), es, Finish(k));
    es := es + [Finish(k)];
    CountFinish(xs, k, true);
    CountFinish(xs, k, false);
    CountAtMostLength(xs);
    TraceOneMore(Opened(plan), es, Start);
    es := es + [Start];
  }

  /** The slots of a full pool, the first CPU job ended: GPU jobs up to the cap are running, no other. */
  lemma FullPool(gpu: seq<Job>, cpu: seq<Job>, cap: nat, slots: seq<Slot>)
    requires Devices(gpu, cpu) && cpu != [] && |gpu| > cap
    requires var plan, full := PlanWave(gpu, cpu, cap), cap + |cpu|;
      slots == Begun(plan, full)[cap := Slot(plan.ordered[cap], true)]
    ensures IsGpu(PlanWave(gpu, cpu, cap).ordered[cap + |cpu|])
    ensures RunningGpuOnly(slots[..cap]) && NoGpu(slots[cap..]) && slots == slots[..cap] + slots[cap..]
  {
    var plan, full := PlanWave(gpu, cpu, cap), cap + |cpu|;
    forall k | 0 <= k <= full ensures !IsGpu(plan.ordered[k]) <==> cap <= k < full {
      Layout(gpu, cpu, cap, k);
    }
  }

  lemma OneBeyond(head: seq<Slot>, tail: seq<Slot>, last: Slot)
    requires RunningGpuOnly(head) && NoGpu(tail) && IsGpu(last.job) && !last.ended
    ensures Count(head + tail + [last], true, false) == |head| + 1
  {
    AllRunning(head);
    CountUniform(tail, false);
    CountConcat(head, tail, true, false);
    CountAppend(head + tail, last, true, false);
  }

  /** With the first CPU job ended, the freed worker takes a GPU job beyond the cap. */
  lemma OverCap(gpu: seq<Job>, cpu: seq<Job>, cap: int) returns (es: seq<Event>)
    requires Devices(gpu, cpu) && cap >= 1 && cpu != [] && |gpu| > cap
    ensures Trace(Opened(PlanWave(gpu, cpu, cap)), es)
    ensures RunningGpu(After(Opened(PlanWave(gpu, cpu, cap)), es)) == cap + 1
  {
    var plan, full := PlanWave(gpu, cpu, cap), cap + |cpu|;
    es := FreedWorkerTakesNext(plan, full, cap);
    var slots := Begun(plan, full)[cap := Slot(plan.ordered[cap], true)];
    FullPool(gpu, cpu, cap, slots);
    OneBeyond(slots[..cap], slots[cap..], Slot(plan.ordered[full], false));
  }

  lemma {:induction false} AllRunning(xs: seq<Slot>)
    requires RunningGpuOnly(xs)
    ensures Count(xs, true, false) == |xs|
  {
    if xs != [] {
      AllRunning(xs[..|xs| - 1]);
    }
  }

  lemma CappedSchedule(gpu: seq<Job>, cpu: seq<Job>, cap: int, es: seq<Event>)
    requires Devices(gpu, cpu) && (|gpu| <= MaxInt(0, cap) || (cap >= 1 && cpu == []))
    requires Trace(Opened(PlanWave(gpu, cpu, cap)), es)
    ensures RunningGpu(After(Opened(PlanWave(gpu, cpu, cap)), es)) <= MaxInt(0, cap)
  {
    PoolInvariant(PlanWave(gpu, cpu, cap), es);
    if |gpu| <= MaxInt(0, cap) {
      EarlyBound(gpu, cpu, cap, After(Opened(PlanWave(gpu, cpu, cap)), es));
    }
  }

  lemma {:induction false} OneRunning(xs: seq<Slot>, k: nat)
    requires k < |xs| && IsGpu(xs[k].job) && !xs[k].ended
    ensures Count(xs, true, false) >= 1
  {
    if k < |xs| - 1 {
      OneRunning(xs[..|xs| - 1], k);
    }
  }

  /** The pool always has a worker more than CPU jobs, so with a cap below one a GPU job still gets to run. */
  lemma NonPositiveCapIsIgnored(gpu: seq<Job>, cpu: seq<Job>, cap: int) returns (es: seq<Event>)
    requires Devices(gpu, cpu) && gpu != [] && cap <= 0
    ensures Trace(Opened(PlanWave(gpu, cpu, cap)), es)
    ensures RunningGpu(After(Opened(PlanWave(gpu, cpu, cap)), es)) >= 1
  {
    var plan := PlanWave(gpu, cpu, cap);
    var first := if Take(gpu, cap) == [] then |cpu| else 0;
    TakeDrop(gpu, cap);
    Layout(gpu, cpu, cap, first);
    assert |plan.ordered| == |gpu| + |cpu| && plan.workers == 1 + |cpu|;
    es := StartAll(plan, first + 1);
    OneRunning(Begun(plan, first + 1), first);
  }

  /**
   The documented cap on simultaneous GPU workers holds in every schedule of a wave, for any integer cap,
   exactly when the wave has no more GPU jobs than the cap or, the cap being at least one, no CPU job.
   */
  lemma CapHoldsExactlyWithoutSpareWorkers(gpu: seq<Job>, cpu: seq<Job>, cap: int)
    requires Devices(gpu, cpu)
    ensures CapHolds(gpu, cpu, cap) <==> |gpu| <= MaxInt(0, cap) || (cap >= 1 && cpu == [])
  {
    var plan := PlanWave(gpu, cpu, cap);
    if |gpu| <= MaxInt(0, cap) || (cap >= 1 && cpu == []) {
      forall es: seq<Event> | Trace(Opened(plan), es)
        ensures RunningGpu(After(Opened(plan), es)) <= MaxInt(0, cap)
      {
        CappedSchedule(gpu, cpu, cap, es);
      }
    } else if cap >= 1 {
      var es := OverCap(gpu, cpu, cap);
    } else {
      var es := NonPositiveCapIsIgnored(gpu, cpu, cap);
    }
  }

  // ---------------------------------------------------------------- wave after wave

  predicate Drained(p: Pool) {
    |p.slots| == |p.plan.ordered| && forall k :: 0 <= k < |p.slots| ==> p.slots[k].ended
  }

  /**
   The whole run: waves already over, the pool of the current one, the jobs whose ended futures the collecting
   loop has been handed so far, the exit codes by name, waves to come.
   */
  datatype Run = Run(past: seq<Pool>, pool: Pool, seen: seq<nat>, results: map<string, int>, future: seq<Plan>)

  datatype RunEvent = Work(e: Event) | Collect(k: nat, code: int) | NextWave

  function Begin(plans: seq<Plan>): Run
    requires plans != []
  {
    Run([], Opened(plans[0]), [], map[], plans[1..])
  }

  /** The loop is handed ended futures, each once, and is left when it has had as many as were submitted. */
  predicate RunEnabled(r: Run, e: RunEvent) {
    match e
    case Work(w) => Enabled(r.pool, w)
    case Collect(k, _) => k < |r.pool.slots| && r.pool.slots[k].ended && k !in r.seen
    case NextWave => |r.seen| == |r.pool.plan.ordered| && r.future != []
  }

  function RunNext(r: Run, e: RunEvent): Run {
    match e
    case Work(w) => r.(pool := Next(r.pool, w))
    case Collect(k, code) =>
      if k < |r.pool.slots|
      then r.(seen := r.seen + [k], results := r.results[r.pool.slots[k].job.name := code]) else r
    case NextWave =>
      if r.future == [] then r else Run(r.past + [r.pool], Opened(r.future[0]), [], r.results, r.future[1..])
  }

  function RunAfter(r: Run, es: seq<RunEvent>): Run {
    if es == [] then r else RunNext(RunAfter(r, es[..|es| - 1]), es[|es| - 1])
  }

  predicate RunTrace(r: Run, es: seq<RunEvent>) {
    es == [] || (RunTrace(r, es[..|es| - 1]) && RunEnabled(RunAfter(r, es[..|es| - 1]), es[|es| - 1]))
  }

  /** Every past wave is drained, and the waves run in the order planned, none skipped. */
  ghost predicate InOrder(plans: seq<Plan>, r: Run) {
    && |r.past| < |plans| && r.pool.plan == plans[|r.past|] && r.future == plans[|r.past| + 1..]
    && Wf(r.pool)
    && forall w :: 0 <= w < |r.past| ==> Drained(r.past[w]) && r.past[w].plan == plans[w]
  }

  predicate Distinct(xs: seq<nat>) {
    forall i, j :: 0 <= i < j < |xs| ==> xs[i] != xs[j]
  }

  /** What the loop was handed are different jobs that have ended. */
  predicate SeenEnded(p: Pool, seen: seq<nat>) {
    Distinct(seen) && forall i :: 0 <= i < |seen| ==> seen[i] < |p.slots| && p.slots[seen[i]].ended
  }

  function UpTo(n: nat): set<nat> {
    if n == 0 then {} else UpTo(n - 1) + {n - 1}
  }

  lemma {:induction false} UpToMembers(n: nat, k: nat)
    ensures k in UpTo(n) <==> k < n
  {
    if n > 0 {
      UpToMembers(n - 1, k);
    }
  }

  lemma {:induction false} UpToSize(n: nat)
    ensures |UpTo(n)| == n
  {
    if n > 0 {
      UpToSize(n - 1);
      UpToMembers(n - 1, n - 1);
    }
  }

  function AsSet(xs: seq<nat>): set<nat> {
    if xs == [] then {} else AsSet(xs[..|xs| - 1]) + {xs[|xs| - 1]}
  }

  lemma {:induction false} AsSetMembers(xs: seq<nat>, k: nat)
    ensures k in AsSet(xs) <==> k in xs
  {
    if xs != [] {
      AsSetMembers(xs[..|xs| - 1], k);
      assert xs == xs[..|xs| - 1] + [xs[|xs| - 1]];
    }
  }

  lemma {:induction false} AsSetSize(xs: seq<nat>)
    requires Distinct(xs)
    ensures |AsSet(xs)| == |xs|
  {
    if xs != [] {
      var front, last := xs[..|xs| - 1], xs[|xs| - 1];
      AsSetSize(front);
      AsSetMembers(front, last);
    }
  }

  /** A set of n numbers below n holds them all. */
  lemma FullSet(s: set<nat>, n: nat)
    requires s <= UpTo(n)
    ensures |s| <= n && (|s| == n ==> s == UpTo(n))
  {
    UpToSize(n);
    assert UpTo(n) == s + (UpTo(n) - s);
  }

  lemma Pigeonhole(xs: seq<nat>, n: nat)
    requires Distinct(xs) && forall i :: 0 <= i < |xs| ==> xs[i] < n
    ensures |xs| <= n && (|xs| == n ==> forall k: nat :: k < n ==> k in xs)
  {
    forall k | k in AsSet(xs) ensures k in UpTo(n) {
      AsSetMembers(xs, k);
      UpToMembers(n, k);
    }
    AsSetSize(xs);
    FullSet(AsSet(xs), n);
    forall k: nat | k < n && |xs| == n ensures k in xs {
      UpToMembers(n, k);
      AsSetMembers(xs, k);
    }
  }

  /** Once the collecting loop is left every job of the wave has ended. */
  lemma CollectedIsDrained(p: Pool, seen: seq<nat>)
    requires Wf(p) && SeenEnded(p, seen) && |seen| == |p.plan.ordered|
    ensures Drained(p) && forall k: nat :: k < |p.slots| ==> k in seen
  {
    Pigeonhole(seen, |p.slots|);
    forall k: nat | k < |p.slots| ensures p.slots[k].ended {
      assert k in seen;
    }
  }

  lemma StepKeepsSeen(r: Run, e: RunEvent)
    requires SeenEnded(r.pool, r.seen) && RunEnabled(r, e)
    ensures SeenEnded(RunNext(r, e).pool, RunNext(r, e).seen)
  {
  }

  lemma StepInOrder(plans: seq<Plan>, r: Run, e: RunEvent)
    requires InOrder(plans, r) && SeenEnded(r.pool, r.seen) && RunEnabled(r, e)
    ensures InOrder(plans, RunNext(r, e))
  {
    if e.NextWave? {
      CollectedIsDrained(r.pool, r.seen);
      assert RunNext(r, e).past[..|r.past|] == r.past;
    }
  }

  /** A job of a later wave has started only if every job of every earlier wave has ended. */
  lemma {:induction false} WavesNeverOverlap(plans: seq<Plan>, es: seq<RunEvent>)
    requires plans != [] && RunTrace(Begin(plans), es)
    ensures var r := RunAfter(Begin(plans), es); InOrder(plans, r) && SeenEnded(r.pool, r.seen)
  {
    if es != [] {
      var n := |es| - 1;
      WavesNeverOverlap(plans, es[..n]);
      StepInOrder(plans, RunAfter(Begin(plans), es[..n]), es[n]);
      StepKeepsSeen(RunAfter(Begin(plans), es[..n]), es[n]);
    }
  }

  function Names(jobs: seq<Job>): set<string> {
    set k | 0 <= k < |jobs| :: jobs[k].name
  }

  /** The names of the first n waves' jobs. */
  function NamesOfWaves(plans: seq<Plan>, n: nat): set<string>
    requires n <= |plans|
  {
    if n == 0 then {} else NamesOfWaves(plans, n - 1) + Names(plans[n - 1].ordered)
  }

  function NamesSeen(p: Pool, seen: seq<nat>): set<string>
    requires forall i :: 0 <= i < |seen| ==> seen[i] < |p.plan.ordered|
  {
    set i | 0 <= i < |seen| :: p.plan.ordered[seen[i]].name
  }

  ghost predicate Recorded(plans: seq<Plan>, r: Run)
    requires |r.past| <= |plans| && forall i :: 0 <= i < |r.seen| ==> r.seen[i] < |r.pool.plan.ordered|
  {
    r.results.Keys == NamesOfWaves(plans, |r.past|) + NamesSeen(r.pool, r.seen)
  }

  lemma AllNamesSeen(p: Pool, seen: seq<nat>)
    requires Wf(p) && SeenEnded(p, seen) && |seen| == |p.plan.ordered|
    ensures NamesSeen(p, seen) == Names(p.plan.ordered)
  {
    CollectedIsDrained(p, seen);
    forall name | name in Names(p.plan.ordered) ensures name in NamesSeen(p, seen) {
      var k :| 0 <= k < |p.plan.ordered| && p.plan.ordered[k].name == name;
      assert k in seen;
      var i :| 0 <= i < |seen| && seen[i] == k;
    }
  }

  lemma OneMoreSeen(p: Pool, seen: seq<nat>, k: nat)
    requires k < |p.plan.ordered| && forall i :: 0 <= i < |seen| ==> seen[i] < |p.plan.ordered|
    ensures NamesSeen(p, seen + [k]) == NamesSeen(p, seen) + {p.plan.ordered[k].name}
  {
    var more := seen + [k];
    forall name | name in NamesSeen(p, seen) + {p.plan.ordered[k].name} ensures name in NamesSeen(p, more) {
      if i :| 0 <= i < |seen| && p.plan.ordered[seen[i]].name == name {
        assert more[i] == seen[i];
      } else {
        assert more[|seen|] == k;
      }
    }
  }

  lemma StepRecords(plans: seq<Plan>, r: Run, e: RunEvent)
    requires InOrder(plans, r) && SeenEnded(r.pool, r.seen) && RunEnabled(r, e) && Recorded(plans, r)
    ensures InOrder(plans, RunNext(r, e)) && SeenEnded(RunNext(r, e).pool, RunNext(r, e).seen)
    ensures Recorded(plans, RunNext(r, e))
  {
    StepInOrder(plans, r, e);
    StepKeepsSeen(r, e);
    match e
    case Work(_) =>
    case Collect(k, _) => OneMoreSeen(r.pool, r.seen, k);
    case NextWave => AllNamesSeen(r.pool, r.seen);
  }

  lemma {:induction false} AlwaysRecorded(plans: seq<Plan>, es: seq<RunEvent>)
    requires plans != [] && RunTrace(Begin(plans), es)
    ensures var r := RunAfter(Begin(plans), es);
      InOrder(plans, r) && SeenEnded(r.pool, r.seen) && Recorded(plans, r)
  {
    if es != [] {
      var n := |es| - 1;
      AlwaysRecorded(plans, es[..n]);
      StepRecords(plans, RunAfter(Begin(plans), es[..n]), es[n]);
    }
  }

  /** When the run is over there is an exit code for the name of every planned job, and for no other name. */
  lemma EveryJobHasResult(plans: seq<Plan>, es: seq<RunEvent>)
    requires plans != [] && RunTrace(Begin(plans), es)
    requires var r := RunAfter(Begin(plans), es); r.future == [] && |r.seen| == |r.pool.plan.ordered|
    ensures RunAfter(Begin(plans), es).results.Keys == NamesOfWaves(plans, |plans|)
  {
    AlwaysRecorded(plans, es);
    var r := RunAfter(Begin(plans), es);
    AllNamesSeen(r.pool, r.seen);
  }

  // ---------------------------------------------------------------- the loop over the waves

  /** The distinct wave numbers in ascending order. */
  function WaveNumbers(jobs: seq<Job>): seq<int> {
    if jobs == [] then [] else InsertNumber(jobs[|jobs| - 1].wave, WaveNumbers(jobs[..|jobs| - 1]))
  }

  function InsertNumber(w: int, ws: seq<int>): seq<int> {
    if ws == [] || w < ws[0] then [w] + ws
    else if w == ws[0] then ws
    else [ws[0]] + InsertNumber(w, ws[1..])
  }

  lemma {:induction false} InsertNumberSorts(w: int, ws: seq<int>)
    requires Ascending(ws)
    ensures Ascending(InsertNumber(w, ws))
    ensures forall x :: x in InsertNumber(w, ws) <==> x == w || x in ws
  {
    if ws != [] {
      assert ws == [ws[0]] + ws[1..];
      if w > ws[0] {
        InsertNumberSorts(w, ws[1..]);
        var r := InsertNumber(w, ws[1..]);
        forall i | 0 <= i < |r| ensures ws[0] < r[i] {
          assert r[i] in r;
        }
      }
    }
  }

  /** The waves are exactly those some job asks for, in ascending order without repeats. */
  lemma {:induction false} WaveNumbersAreSorted(jobs: seq<Job>)
    ensures Ascending(WaveNumbers(jobs))
    ensures forall w :: w in WaveNumbers(jobs) <==> exists i :: 0 <= i < |jobs| && jobs[i].wave == w
  {
    if jobs != [] {
      var n := |jobs| - 1;
      WaveNumbersAreSorted(jobs[..n]);
      InsertNumberSorts(jobs[n].wave, WaveNumbers(jobs[..n]));
      forall w ensures w in WaveNumbers(jobs) <==> exists i :: 0 <= i < |jobs| && jobs[i].wave == w {
        if w in WaveNumbers(jobs) && w != jobs[n].wave {
          var i :| 0 <= i < n && jobs[..n][i].wave == w;
          assert jobs[i].wave == w;
        }
        if i :| 0 <= i < |jobs| && jobs[i].wave == w {
          assert i < n ==> jobs[..n][i].wave == w;
        }
      }
    }
  }

  lemma {:induction false} OfWaveDevice(jobs: seq<Job>, wave: int, device: string)
    ensures forall i :: 0 <= i < |OfWave(jobs, wave, device)| ==>
      OfWave(jobs, wave, device)[i].device == device && OfWave(jobs, wave, device)[i].wave == wave
  {
    if jobs != [] {
      OfWaveDevice(jobs[..|jobs| - 1], wave, device);
    }
  }

  function PlanFor(jobs: seq<Job>, cap: int, wave: int): Plan {
    PlanWave(OfWave(jobs, wave, "gpu"), OfWave(jobs, wave, "cpu"), cap)
  }

  /** Every plan the scheduler makes is one the bounds above speak about. */
  lemma PlannedDevices(jobs: seq<Job>, wave: int)
    ensures Devices(OfWave(jobs, wave, "gpu"), OfWave(jobs, wave, "cpu"))
  {
    OfWaveDevice(jobs, wave, "gpu");
    OfWaveDevice(jobs, wave, "cpu");
  }

  /** The plans the scheduler opens a pool for, one after the other. */
  method PlanRun(jobs: seq<Job>, cap: int) returns (plans: seq<Plan>)
    ensures |plans| == |WaveNumbers(jobs)|
    ensures forall i :: 0 <= i < |plans| ==> plans[i] == PlanFor(jobs, cap, WaveNumbers(jobs)[i])
  {
    var waves := WaveNumbers(jobs);
    plans := [];
    for i := 0 to |waves|
      invariant |plans| == i
      invariant forall k :: 0 <= k < i ==> plans[k] == PlanFor(jobs, cap, waves[k])
    {
      var gpu := OfWave(jobs, waves[i], "gpu");
      var cpu := OfWave(jobs, waves[i], "cpu");
      plans := plans + [PlanWave(gpu, cpu, cap)];
    }
  }
}
