/**
 Runs of the segment writer: adds, flushes in worker threads, failed writes and restarts in any order. No file
 is overwritten and no row is lost track of. A failed write may leave a torn file; a crash loses memory and keeps
 disk.
 */
module StorageRuns {
  import opened Basics
  import opened Storage
  import N = SegmentNames

  // ---------------------------------------------------------------- interleavings

  /** One flush in a worker: groups still to write, the segment it holds, rows written so far. */
  datatype Flight = Flight(groups: seq<Group>, held: Option<Path>, total: nat)

  /** `added` and `dropped` account for every record that entered and every record given up. */
  datatype State = State(
    buffer: seq<Record>,
    flights: seq<Flight>,
    seqs: map<Family, nat>,
    disk: seq<File>,
    written: nat,
    added: multiset<Record>,
    dropped: multiset<Record>)

  function Boot(disk: seq<File>): State {
    State([], [], map[], disk, 0, multiset{}, multiset{})
  }

  datatype Outcome = Written | FailedClean | FailedTorn

  datatype Action =
    | Add(record: Record)
    | Flush
    | Allocate(flight: nat)
    | Write(flight: nat, outcome: Outcome)
    | Abort(flight: nat)
    | Crash

  function InFlight(flights: seq<Flight>): multiset<Record> {
    if flights == [] then multiset{}
    else InFlight(flights[..|flights| - 1]) + GroupRows(flights[|flights| - 1].groups)
  }

  predicate Ready(s: State, k: nat) {
    k < |s.flights| && s.flights[k].groups != [] && s.flights[k].held.None?
  }

  predicate Holding(s: State, k: nat) {
    k < |s.flights| && s.flights[k].groups != [] && s.flights[k].held.Some?
  }

  function DiskAfter(disk: seq<File>, p: Path, rows: seq<Record>, outcome: Outcome): seq<File> {
    match outcome
    case Written => Put(disk, p, rows)
    case FailedClean => disk
    case FailedTorn => Put(disk, p, [])
  }

  function GivenUp(rows: seq<Record>, outcome: Outcome): multiset<Record> {
    if outcome.Written? then multiset{} else multiset(rows)
  }

  function Step(s: State, a: Action): State {
    match a
    case Add(r) => s.(buffer := s.buffer + [r], added := s.added + multiset{r})
    case Flush =>
      if s.buffer == [] then s
      else s.(buffer := [], flights := s.flights + [Flight(GroupBatch(s.buffer), None, 0)])
    case Allocate(k) =>
      if !Ready(s, k) then s
      else
        var f := s.flights[k].groups[0].family;
        var n := SeededNext(s.seqs, s.disk, f);
        s.(seqs := s.seqs[f := n + 1],
           flights := s.flights[k := s.flights[k].(held := Some(SegmentPath(f, n)))])
    case Write(k, outcome) =>
      if !Holding(s, k) then s
      else
        var g, p := s.flights[k].groups[0], s.flights[k].held.value;
        var rest := s.flights[k].groups[1..];
        var total := s.flights[k].total + if outcome.Written? then |g.rows| else 0;
        // the last group done, the batch's total reaches the counter
        s.(flights := s.flights[k := Flight(rest, None, total)],
           disk := DiskAfter(s.disk, p, g.rows, outcome),
           written := s.written + if rest == [] then total else 0,
           dropped := s.dropped + GivenUp(g.rows, outcome))
    case Abort(k) =>
      // an error outside the per-segment guard gives up the rest of the batch
      if !Ready(s, k) then s
      else s.(flights := s.flights[k := Flight([], None, 0)],
              dropped := s.dropped + GroupRows(s.flights[k].groups))
    case Crash =>
      State([], [], map[], s.disk, 0, s.added, s.dropped + multiset(s.buffer) + InFlight(s.flights))
  }

  function After(s: State, acts: seq<Action>): State {
    if acts == [] then s else Step(After(s, acts[..|acts| - 1]), acts[|acts| - 1])
  }

  predicate SafeRecords(acts: seq<Action>) {
    forall k :: 0 <= k < |acts| && acts[k].Add? ==> acts[k].record.family.Valid()
  }

  // ---------------------------------------------------------------- invariant

  ghost predicate SafeState(s: State) {
    && (forall i :: 0 <= i < |s.buffer| ==> s.buffer[i].family.Valid())
    && (forall k, f :: 0 <= k < |s.flights| && f in Families(s.flights[k].groups) ==> f.Valid())
    && (forall f :: f in s.seqs ==> f.Valid())
  }

  /** Every held path was handed out below its family's counter. */
  ghost predicate HandedOut(s: State, p: Path) {
    exists f, n :: f in s.seqs && 0 <= n < s.seqs[f] && p == SegmentPath(f, n)
  }

  ghost predicate CountersAhead(s: State) {
    forall f, n :: f in s.seqs && n >= s.seqs[f] ==> !OnDisk(s.disk, SegmentPath(f, n))
  }

  ghost predicate HeldFresh(s: State) {
    && (forall k :: 0 <= k < |s.flights| && s.flights[k].held.Some? ==>
         HandedOut(s, s.flights[k].held.value) && !OnDisk(s.disk, s.flights[k].held.value))
    && (forall j, k :: 0 <= j < k < |s.flights| && s.flights[j].held.Some? ==> s.flights[j].held != s.flights[k].held)
  }

  ghost predicate Fresh(s: State) {
    SafeState(s) && CountersAhead(s) && HeldFresh(s)
  }

  lemma {:induction false} GroupFamilies(batch: seq<Record>)
    requires forall i :: 0 <= i < |batch| ==> batch[i].family.Valid()
    ensures forall f :: f in Families(GroupBatch(batch)) ==> f.Valid()
  {
    if batch != [] {
      var n := |batch| - 1;
      GroupFamilies(batch[..n]);
      GroupsAreWellFormed(batch[..n]);
      AddKeepsGroups(GroupBatch(batch[..n]), batch[n]);
    }
  }

  /** A number taken from the counter, or from the scan on first touch, names no file and no held path. */
  lemma AllocatedIsFree(s: State, f: Family, n: nat)
    requires Fresh(s) && f.Valid() && n >= SeededNext(s.seqs, s.disk, f)
    ensures !OnDisk(s.disk, SegmentPath(f, n)) && !HandedOut(s, SegmentPath(f, n))
  {
    if HandedOut(s, SegmentPath(f, n)) {
      var g, m :| g in s.seqs && 0 <= m < s.seqs[g] && SegmentPath(f, n) == SegmentPath(g, m);
      SegmentPathsDiffer(f, n, g, m);
    }
    if f !in s.seqs {
      var stem := f.Stem();
      assert stem[|stem| - 1] == f.hour[1];
      N.ScannedNumbersAreFree(Names(s.disk, f.dir), stem, n);
      ListedExactlyWhenOnDisk(s.disk, SegmentPath(f, n));
    }
  }

  lemma AllocateKeepsCounters(s: State, k: nat)
    requires Fresh(s) && Ready(s, k) && s.flights[k].groups[0].family.Valid()
    ensures CountersAhead(Step(s, Allocate(k)))
  {
    var f := s.flights[k].groups[0].family;
    forall n: nat | n >= SeededNext(s.seqs, s.disk, f) ensures !OnDisk(s.disk, SegmentPath(f, n)) {
      AllocatedIsFree(s, f, n);
    }
  }

  lemma HandedOutStays(s: State, s': State, p: Path)
    requires HandedOut(s, p)
    requires forall f :: f in s.seqs ==> f in s'.seqs && s.seqs[f] <= s'.seqs[f]
    ensures HandedOut(s', p)
  {
    var g, m :| g in s.seqs && 0 <= m < s.seqs[g] && p == SegmentPath(g, m);
    assert g in s'.seqs && m < s'.seqs[g];
  }

  lemma AllocateKeepsHeld(s: State, k: nat)
    requires Fresh(s) && Ready(s, k) && s.flights[k].groups[0].family.Valid()
    ensures HeldFresh(Step(s, Allocate(k)))
  {
    var s' := Step(s, Allocate(k));
    var f := s.flights[k].groups[0].family;
    var next := SeededNext(s.seqs, s.disk, f);
    AllocatedIsFree(s, f, next);
    assert HandedOut(s', SegmentPath(f, next)) by {
      assert f in s'.seqs && 0 <= next < s'.seqs[f];
    }
    forall j | 0 <= j < |s.flights| && j != k && s.flights[j].held.Some?
      ensures HandedOut(s', s.flights[j].held.value) && s.flights[j].held.value != SegmentPath(f, next)
    {
      HandedOutStays(s, s', s.flights[j].held.value);
    }
  }

  lemma AllocateKeepsFresh(s: State, k: nat)
    requires Fresh(s) && Ready(s, k)
    ensures Fresh(Step(s, Allocate(k)))
  {
    assert s.flights[k].groups[0].family in Families(s.flights[k].groups);
    AllocateKeepsCounters(s, k);
    AllocateKeepsHeld(s, k);
  }

  lemma PutAddsOnlyItsPath(disk: seq<File>, p: Path, rows: seq<Record>, q: Path)
    requires !OnDisk(disk, p)
    ensures OnDisk(Put(disk, p, rows), q) <==> OnDisk(disk, q) || q == p
  {
    PutFreshAppends(disk, p, rows);
    var d := disk + [File(p, rows)];
    if q == p {
      assert d[|disk|].path == q;
    }
    if OnDisk(disk, q) {
      var k :| 0 <= k < |disk| && disk[k].path == q;
      assert d[k].path == q;
    }
  }

  lemma WriteAddsOnlyHeld(s: State, k: nat, outcome: Outcome)
    requires Holding(s, k) && !OnDisk(s.disk, s.flights[k].held.value)
    ensures forall q :: OnDisk(Step(s, Write(k, outcome)).disk, q) ==> OnDisk(s.disk, q) || q == s.flights[k].held.value
  {
    var p := s.flights[k].held.value;
    forall q ensures OnDisk(Step(s, Write(k, outcome)).disk, q) ==> OnDisk(s.disk, q) || q == p {
      PutAddsOnlyItsPath(s.disk, p, s.flights[k].groups[0].rows, q);
      PutAddsOnlyItsPath(s.disk, p, [], q);
    }
  }

  lemma WriteKeepsCounters(s: State, k: nat, outcome: Outcome)
    requires Fresh(s) && Holding(s, k)
    ensures CountersAhead(Step(s, Write(k, outcome)))
  {
    var s' := Step(s, Write(k, outcome));
    var p := s.flights[k].held.value;
    WriteAddsOnlyHeld(s, k, outcome);
    var f, m :| f in s.seqs && 0 <= m < s.seqs[f] && p == SegmentPath(f, m);
    forall g, n | g in s'.seqs && n >= s'.seqs[g] ensures !OnDisk(s'.disk, SegmentPath(g, n)) {
      SegmentPathsDiffer(f, m, g, n);
    }
  }

  lemma WriteKeepsFresh(s: State, k: nat, outcome: Outcome)
    requires Fresh(s) && Holding(s, k)
    ensures Fresh(Step(s, Write(k, outcome)))
  {
    var s' := Step(s, Write(k, outcome));
    WriteKeepsCounters(s, k, outcome);
    WriteAddsOnlyHeld(s, k, outcome);
    forall j | 0 <= j < |s'.flights| && s'.flights[j].held.Some?
      ensures HandedOut(s', s'.flights[j].held.value) && s'.flights[j].held != s.flights[k].held
    {
      assert HandedOut(s, s.flights[j].held.value);
    }
  }

  /** A step that leaves disk and counters alone and takes no number keeps what was handed out. */
  lemma SameCounters(s: State, s': State)
    requires Fresh(s) && SafeState(s') && s'.seqs == s.seqs && s'.disk == s.disk
    requires forall k :: 0 <= k < |s'.flights| && s'.flights[k].held.Some? ==>
      k < |s.flights| && s'.flights[k].held == s.flights[k].held
    ensures Fresh(s')
  {
    assert forall p :: HandedOut(s, p) ==> HandedOut(s', p);
  }

  lemma AddKeepsFresh(s: State, r: Record)
    requires Fresh(s) && r.family.Valid()
    ensures Fresh(Step(s, Add(r)))
  {
    SameCounters(s, Step(s, Add(r)));
  }

  lemma FlushKeepsFresh(s: State)
    requires Fresh(s)
    ensures Fresh(Step(s, Flush))
  {
    GroupFamilies(s.buffer);
    SameCounters(s, Step(s, Flush));
  }

  lemma AbortKeepsFresh(s: State, k: nat)
    requires Fresh(s)
    ensures Fresh(Step(s, Abort(k)))
  {
    SameCounters(s, Step(s, Abort(k)));
  }

  lemma StepKeepsFresh(s: State, a: Action)
    requires Fresh(s) && (a.Add? ==> a.record.family.Valid())
    ensures Fresh(Step(s, a))
  {
    match a
    case Allocate(k) => if Ready(s, k) { AllocateKeepsFresh(s, k); }
    case Write(k, outcome) => if Holding(s, k) { WriteKeepsFresh(s, k, outcome); }
    case Crash =>
    case Add(r) => AddKeepsFresh(s, r);
    case Flush => FlushKeepsFresh(s);
    case Abort(k) => AbortKeepsFresh(s, k);
  }

  lemma {:induction false} AlwaysFresh(disk: seq<File>, acts: seq<Action>)
    requires SafeRecords(acts)
    ensures Fresh(After(Boot(disk), acts))
  {
    if acts != [] {
      var n := |acts| - 1;
      AlwaysFresh(disk, acts[..n]);
      StepKeepsFresh(After(Boot(disk), acts[..n]), acts[n]);
    }
  }

  // ---------------------------------------------------------------- append-only

  lemma StepOnlyAppends(s: State, a: Action)
    requires Fresh(s)
    ensures s.disk <= Step(s, a).disk
  {
    if a.Write? && Holding(s, a.flight) {
      PutFreshAppends(s.disk, s.flights[a.flight].held.value, s.flights[a.flight].groups[0].rows);
      PutFreshAppends(s.disk, s.flights[a.flight].held.value, []);
    }
  }

  /**
   No file is ever overwritten: over any run with concurrent flushes, failed writes and restarts, what
   was on disk at some moment is, file by file, still the beginning of what is on disk later.
   */
  lemma {:induction false} DiskOnlyGrows(disk: seq<File>, acts: seq<Action>, earlier: nat)
    requires SafeRecords(acts) && earlier <= |acts|
    ensures After(Boot(disk), acts[..earlier]).disk <= After(Boot(disk), acts).disk
    decreases |acts|
  {
    if earlier == |acts| {
      assert acts[..earlier] == acts;
    } else {
      var n := |acts| - 1;
      assert acts[..n][..earlier] == acts[..earlier];
      DiskOnlyGrows(disk, acts[..n], earlier);
      LastStepAppends(disk, acts);
    }
  }

  lemma LastStepAppends(disk: seq<File>, acts: seq<Action>)
    requires SafeRecords(acts) && acts != []
    ensures After(Boot(disk), acts[..|acts| - 1]).disk <= After(Boot(disk), acts).disk
  {
    var n := |acts| - 1;
    AlwaysFresh(disk, acts[..n]);
    StepOnlyAppends(After(Boot(disk), acts[..n]), acts[n]);
  }

  /** The run writes records of one family only. */
  predicate OnlyFamily(acts: seq<Action>, f: Family) {
    forall k :: 0 <= k < |acts| && acts[k].Add? ==> acts[k].record.family == f
  }

  ghost predicate NeverOverwrites(f: Family) {
    forall disk: seq<File>, acts: seq<Action> :: OnlyFamily(acts, f) ==> disk <= After(Boot(disk), acts).disk
  }

  /**
   The append-only promise for a family, whatever its disk and its run, is kept exactly when the family's
   name, read as a pattern, matches its own first segment. Names without an opening bracket always do.
   */
  lemma NeverOverwritesExactlyWhenNameFindsItself(f: Family)
    requires N.ValidHour(f.hour)
    ensures NeverOverwrites(f) <==> N.FindsOwn(f.Stem())
  {
    if N.FindsOwn(f.Stem()) {
      forall disk: seq<File>, acts: seq<Action> | OnlyFamily(acts, f) ensures disk <= After(Boot(disk), acts).disk {
        DiskOnlyGrows(disk, acts, 0);
        assert acts[..0] == [];
      }
    } else {
      var disk, acts := RestartOverwrites(f, 0, 1);
    }
  }

  lemma AfterNext(s: State, acts: seq<Action>, a: Action)
    ensures After(s, acts + [a]) == Step(After(s, acts), a)
  {
    assert (acts + [a])[..|acts|] == acts;
  }

  lemma OneFamily(acts: seq<Action>, f: Family, a: Action)
    requires OnlyFamily(acts, f) && (a.Add? ==> a.record.family == f)
    ensures OnlyFamily(acts + [a], f)
  {
  }

  /** A flush of one new row by a writer that has not touched the family yet. */
  lemma FlushOneRow(f: Family, disk: seq<File>, r: Record) returns (acts: seq<Action>)
    requires r.family == f
    ensures OnlyFamily(acts, f)
    ensures After(Boot(disk), acts) ==
      Boot(disk).(flights := [Flight([Group(f, [r])], None, 0)], added := multiset{r})
  {
    acts := [Add(r)];
    assert [Add(r)][..0] == [];
    assert After(Boot(disk), acts) == Step(Boot(disk), Add(r));
    AfterNext(Boot(disk), acts, Flush);
    OneFamily(acts, f, Flush);
    acts := acts + [Flush];
    assert [r][..0] == [];
    assert GroupBatch([r]) == [Group(f, [r])];
  }

  /** A disk that holds the family's first segment, and a restarted writer that writes it again. */
  lemma RestartRewrites(f: Family, was: int, now: int) returns (disk: seq<File>, acts: seq<Action>)
    requires !N.FindsOwn(f.Stem())
    ensures OnlyFamily(acts, f) && disk == [File(SegmentPath(f, 0), [Record(f, was)])]
    ensures var s := After(Boot(disk), acts);
      && s.disk == [File(SegmentPath(f, 0), [Record(f, now)])] && s.buffer == []
      && s.flights == [Flight([], None, 1)] && s.added == multiset{Record(f, now)} && s.dropped == multiset{}
  {
    var p, r := SegmentPath(f, 0), Record(f, now);
    disk := [File(p, [Record(f, was)])];
    acts := FlushOneRow(f, disk, r);
    var s := After(Boot(disk), acts);
    FirstSegmentUnseen(f, disk);
    AfterNext(Boot(disk), acts, Allocate(0));
    AfterNext(Boot(disk), acts + [Allocate(0)], Write(0, Written));
    OneFamily(acts, f, Allocate(0));
    OneFamily(acts + [Allocate(0)], f, Write(0, Written));
    acts := acts + [Allocate(0)] + [Write(0, Written)];
    var s2 := Step(s, Allocate(0));
    assert s2.flights[0] == Flight([Group(f, [r])], Some(p), 0);
    assert s2.flights[0].groups[1..] == [];
    assert Put(disk, p, [r]) == [File(p, [r])] + disk[1..];
  }

  lemma RestartOverwrites(f: Family, was: int, now: int) returns (disk: seq<File>, acts: seq<Action>)
    requires !N.FindsOwn(f.Stem()) && was != now
    ensures OnlyFamily(acts, f) && !(disk <= After(Boot(disk), acts).disk)
  {
    disk, acts := RestartRewrites(f, was, now);
    assert disk[0].rows[0] != After(Boot(disk), acts).disk[0].rows[0];
  }

  lemma FirstSegmentUnseen(f: Family, disk: seq<File>)
    requires !N.FindsOwn(f.Stem()) && |disk| == 1 && disk[0].path == SegmentPath(f, 0)
    ensures SeededNext(map[], disk, f) == 0
  {
    assert disk[..0] == [];
    assert Names(disk, f.dir) == [N.SegmentName(f.Stem(), 0)];
    N.MissedSegment(f.Stem());
  }

  // ---------------------------------------------------------------- conservation

  function Accounted(s: State): multiset<Record> {
    multiset(s.buffer) + InFlight(s.flights) + DiskRows(s.disk) + s.dropped
  }

  lemma {:induction false} InFlightUpdate(flights: seq<Flight>, k: nat, f: Flight, out: multiset<Record>)
    requires k < |flights| && GroupRows(flights[k].groups) == out + GroupRows(f.groups)
    ensures InFlight(flights) == out + InFlight(flights[k := f])
  {
    var n := |flights| - 1;
    var updated := flights[k := f];
    if k == n {
      assert updated[..n] == flights[..n];
    } else {
      InFlightUpdate(flights[..n], k, f, out);
      assert updated[..n] == flights[..n][k := f];
    }
  }

  lemma FlushConserves(s: State)
    ensures Accounted(Step(s, Flush)) == Accounted(s)
  {
    if s.buffer != [] {
      GroupsPartitionBatch(s.buffer);
      assert Step(s, Flush).flights[..|s.flights|] == s.flights;
    }
  }

  lemma AllocateConserves(s: State, k: nat)
    ensures Accounted(Step(s, Allocate(k))) == Accounted(s)
  {
    if Ready(s, k) {
      InFlightUpdate(s.flights, k, Step(s, Allocate(k)).flights[k], multiset{});
    }
  }

  lemma AbortConserves(s: State, k: nat)
    ensures Accounted(Step(s, Abort(k))) == Accounted(s)
  {
    if Ready(s, k) {
      InFlightUpdate(s.flights, k, Step(s, Abort(k)).flights[k], GroupRows(s.flights[k].groups));
    }
  }

  /** The rows a write puts on disk. */
  function RowsOut(rows: seq<Record>, outcome: Outcome): multiset<Record> {
    if outcome.Written? then multiset(rows) else multiset{}
  }

  /** The rows a write takes off the disk: those of the file it replaces. */
  function RowsReplaced(disk: seq<File>, p: Path, outcome: Outcome): seq<Record> {
    if outcome.FailedClean? then [] else RowsAt(disk, p)
  }

  function Replaced(s: State, a: Action): seq<Record> {
    if a.Write? && Holding(s, a.flight)
    then RowsReplaced(s.disk, s.flights[a.flight].held.value, a.outcome) else []
  }

  lemma WriteFillsDisk(disk: seq<File>, p: Path, rows: seq<Record>, outcome: Outcome)
    ensures DiskRows(DiskAfter(disk, p, rows, outcome)) + multiset(RowsReplaced(disk, p, outcome)) ==
      DiskRows(disk) + RowsOut(rows, outcome)
  {
    match outcome
    case Written => PutReplaces(disk, p, rows);
    case FailedClean =>
    case FailedTorn => PutReplaces(disk, p, []);
  }

  lemma WriteEmptiesFlight(s: State, k: nat, outcome: Outcome)
    requires Holding(s, k)
    ensures InFlight(s.flights) == multiset(s.flights[k].groups[0].rows) + InFlight(Step(s, Write(k, outcome)).flights)
  {
    InFlightUpdate(s.flights, k, Step(s, Write(k, outcome)).flights[k], multiset(s.flights[k].groups[0].rows));
  }

  lemma Exchange<T>(
    buffer: multiset<T>, flight: multiset<T>, flight': multiset<T>, group: multiset<T>, disk: multiset<T>,
    disk': multiset<T>, replaced: multiset<T>, out: multiset<T>, dropped: multiset<T>, given: multiset<T>)
    requires flight == group + flight' && group == out + given && disk' + replaced == disk + out
    ensures (buffer + flight' + disk' + (dropped + given)) + replaced == buffer + flight + disk + dropped
  {
    assert (buffer + flight' + disk' + (dropped + given)) + replaced ==
      buffer + flight' + dropped + given + (disk' + replaced);
    assert buffer + flight + disk + dropped == buffer + flight' + dropped + given + (disk + out);
  }

  lemma HeldWriteConserves(s: State, k: nat, outcome: Outcome)
    requires Holding(s, k)
    ensures Accounted(Step(s, Write(k, outcome))) + multiset(Replaced(s, Write(k, outcome))) == Accounted(s)
  {
    var s', p, rows := Step(s, Write(k, outcome)), s.flights[k].held.value, s.flights[k].groups[0].rows;
    WriteFillsDisk(s.disk, p, rows, outcome);
    WriteEmptiesFlight(s, k, outcome);
    Exchange(multiset(s.buffer), InFlight(s.flights), InFlight(s'.flights), multiset(rows), DiskRows(s.disk),
             DiskRows(s'.disk), multiset(RowsReplaced(s.disk, p, outcome)), RowsOut(rows, outcome),
             s.dropped, GivenUp(rows, outcome));
  }

  lemma WriteConserves(s: State, k: nat, outcome: Outcome)
    ensures Accounted(Step(s, Write(k, outcome))) + multiset(Replaced(s, Write(k, outcome))) == Accounted(s)
  {
    if Holding(s, k) {
      HeldWriteConserves(s, k, outcome);
    }
  }

  lemma StepConserves(s: State, a: Action)
    ensures Accounted(Step(s, a)) + multiset(Replaced(s, a)) ==
      Accounted(s) + (if a.Add? then multiset{a.record} else multiset{})
  {
    match a
    case Add(r) =>
    case Flush => FlushConserves(s);
    case Allocate(k) => AllocateConserves(s, k);
    case Write(k, outcome) => WriteConserves(s, k, outcome);
    case Abort(k) => AbortConserves(s, k);
    case Crash =>
  }

  lemma StepAdds(s: State, a: Action)
    ensures Step(s, a).added == s.added + (if a.Add? then multiset{a.record} else multiset{})
  {
  }

  /** All rows the run has overwritten. */
  function Lost(disk: seq<File>, acts: seq<Action>): multiset<Record> {
    if acts == [] then multiset{}
    else
      var front := acts[..|acts| - 1];
      Lost(disk, front) + multiset(Replaced(After(Boot(disk), front), acts[|acts| - 1]))
  }

  lemma Balance<T>(
    held: multiset<T>, held': multiset<T>, lost: multiset<T>, replaced: multiset<T>,
    added: multiset<T>, more: multiset<T>, found: multiset<T>)
    requires held + lost == added + found && held' + replaced == held + more
    ensures held' + (lost + replaced) == (added + more) + found
  {
    assert held' + (lost + replaced) == (held' + replaced) + lost;
    assert (held + more) + lost == (held + lost) + more;
    assert (added + found) + more == (added + more) + found;
  }

  /**
   Row conservation: at every moment of any run the rows added are the rows buffered, in flight, on disk
   (beyond those found at boot), given up and overwritten, each exactly as often.
   */
  lemma {:induction false} RowsAreConserved(disk: seq<File>, acts: seq<Action>)
    ensures var s := After(Boot(disk), acts); Accounted(s) + Lost(disk, acts) == s.added + DiskRows(disk)
  {
    if acts != [] {
      var n := |acts| - 1;
      RowsAreConserved(disk, acts[..n]);
      var s, a := After(Boot(disk), acts[..n]), acts[n];
      StepConserves(s, a);
      StepAdds(s, a);
      Balance(Accounted(s), Accounted(Step(s, a)), Lost(disk, acts[..n]), multiset(Replaced(s, a)),
              s.added, if a.Add? then multiset{a.record} else multiset{}, DiskRows(disk));
    }
  }

  lemma FreshReplacesNothing(s: State, a: Action)
    requires Fresh(s)
    ensures Replaced(s, a) == []
  {
    if a.Write? && Holding(s, a.flight) {
      NoRowsOffDisk(s.disk, s.flights[a.flight].held.value);
    }
  }

  /** Families whose name matches itself lose nothing. */
  lemma {:induction false} SafeRecordsLoseNothing(disk: seq<File>, acts: seq<Action>)
    requires SafeRecords(acts)
    ensures Lost(disk, acts) == multiset{}
  {
    if acts != [] {
      var n := |acts| - 1;
      SafeRecordsLoseNothing(disk, acts[..n]);
      AlwaysFresh(disk, acts[..n]);
      FreshReplacesNothing(After(Boot(disk), acts[..n]), acts[n]);
    }
  }

  ghost predicate ConservesRows(f: Family) {
    forall disk: seq<File>, acts: seq<Action> :: OnlyFamily(acts, f) ==>
      Accounted(After(Boot(disk), acts)) == After(Boot(disk), acts).added + DiskRows(disk)
  }

  /** One row was on disk, one was added, and one is left. */
  lemma RewriteLosesRow(f: Family) returns (disk: seq<File>, acts: seq<Action>)
    requires !N.FindsOwn(f.Stem())
    ensures OnlyFamily(acts, f)
    ensures Accounted(After(Boot(disk), acts)) != After(Boot(disk), acts).added + DiskRows(disk)
  {
    disk, acts := RestartRewrites(f, 0, 1);
    var s := After(Boot(disk), acts);
    OneFile(disk[0]);
    OneFile(s.disk[0]);
    NothingInFlight(Flight([], None, 1));
    assert |Accounted(s)| == 1;
    assert |s.added + DiskRows(disk)| == 2;
  }

  lemma OneFile(f: File)
    ensures DiskRows([f]) == multiset(f.rows)
  {
    assert [f][1..] == [];
  }

  lemma NothingInFlight(f: Flight)
    requires f.groups == []
    ensures InFlight([f]) == multiset{}
  {
    assert [f][..0] == [];
  }

  /** For a family the rows are conserved on every disk and run exactly when its name matches itself. */
  lemma RowsAreConservedExactlyWhenNameFindsItself(f: Family)
    requires N.ValidHour(f.hour)
    ensures ConservesRows(f) <==> N.FindsOwn(f.Stem())
  {
    if N.FindsOwn(f.Stem()) {
      forall disk: seq<File>, acts: seq<Action> | OnlyFamily(acts, f)
        ensures Accounted(After(Boot(disk), acts)) == After(Boot(disk), acts).added + DiskRows(disk)
      {
        RowsAreConserved(disk, acts);
        SafeRecordsLoseNothing(disk, acts);
      }
    } else {
      var disk, acts := RewriteLosesRow(f);
    }
  }

  /** Rows written by flushes that are still under way. */
  function Unreported(flights: seq<Flight>): nat {
    if flights == [] then 0
    else Unreported(flights[..|flights| - 1]) + OwnUnreported(flights[|flights| - 1])
  }

  function OwnUnreported(f: Flight): nat {
    if f.groups == [] then 0 else f.total
  }

  lemma {:induction false} UnreportedUpdate(flights: seq<Flight>, k: nat, f: Flight)
    requires k < |flights|
    ensures Unreported(flights[k := f]) == Unreported(flights) - OwnUnreported(flights[k]) + OwnUnreported(f)
  {
    var n := |flights| - 1;
    var updated := flights[k := f];
    if k == n {
      assert updated[..n] == flights[..n];
    } else {
      UnreportedUpdate(flights[..n], k, f);
      assert updated[..n] == flights[..n][k := f];
    }
  }

  /** Rows a step writes off the count: those an aborted batch had already put on disk. */
  function WrittenOff(s: State, a: Action): nat {
    if a.Abort? && Ready(s, a.flight) then s.flights[a.flight].total else 0
  }

  /** Rows on disk when the present process started. */
  function RowsAtStart(disk: seq<File>, acts: seq<Action>): nat {
    if acts == [] then |DiskRows(disk)|
    else if acts[|acts| - 1].Crash? then |DiskRows(After(Boot(disk), acts[..|acts| - 1]).disk)|
    else RowsAtStart(disk, acts[..|acts| - 1])
  }

  /** Rows on disk of batches aborted since then. */
  function Abandoned(disk: seq<File>, acts: seq<Action>): nat {
    if acts == [] || acts[|acts| - 1].Crash? then 0
    else
      var front := acts[..|acts| - 1];
      Abandoned(disk, front) + WrittenOff(After(Boot(disk), front), acts[|acts| - 1])
  }

  /** Rows a process has reported or will report, less those on disk. */
  function Surplus(s: State): int {
    s.written + Unreported(s.flights) - |DiskRows(s.disk)|
  }

  /** Rows overwritten since then. */
  function Overwritten(disk: seq<File>, acts: seq<Action>): nat {
    if acts == [] || acts[|acts| - 1].Crash? then 0
    else
      var front := acts[..|acts| - 1];
      Overwritten(disk, front) + |Replaced(After(Boot(disk), front), acts[|acts| - 1])|
  }

  lemma WriteCounts(s: State, k: nat, outcome: Outcome)
    requires Holding(s, k)
    ensures Surplus(Step(s, Write(k, outcome))) == Surplus(s) + |Replaced(s, Write(k, outcome))|
  {
    var p, rows := s.flights[k].held.value, s.flights[k].groups[0].rows;
    UnreportedUpdate(s.flights, k, Step(s, Write(k, outcome)).flights[k]);
    WriteFillsDisk(s.disk, p, rows, outcome);
    BagSizes(DiskRows(DiskAfter(s.disk, p, rows, outcome)), RowsReplaced(s.disk, p, outcome),
             DiskRows(s.disk), if outcome.Written? then rows else []);
  }

  lemma BagSizes(a: multiset<Record>, x: seq<Record>, b: multiset<Record>, y: seq<Record>)
    requires a + multiset(x) == b + multiset(y)
    ensures |a| + |x| == |b| + |y|
  {
    assert |a + multiset(x)| == |a| + |x| && |b + multiset(y)| == |b| + |y|;
  }

  lemma FlushCounts(s: State)
    ensures Unreported(Step(s, Flush).flights) == Unreported(s.flights)
  {
    if s.buffer != [] {
      assert Step(s, Flush).flights[..|s.flights|] == s.flights;
    }
  }

  lemma AllocateCounts(s: State, k: nat)
    ensures Surplus(Step(s, Allocate(k))) == Surplus(s)
  {
    if Ready(s, k) {
      UnreportedUpdate(s.flights, k, Step(s, Allocate(k)).flights[k]);
    }
  }

  lemma AbortCounts(s: State, k: nat)
    ensures Surplus(Step(s, Abort(k))) + WrittenOff(s, Abort(k)) == Surplus(s)
  {
    if Ready(s, k) {
      UnreportedUpdate(s.flights, k, Step(s, Abort(k)).flights[k]);
    }
  }

  lemma StepCounts(s: State, a: Action)
    requires !a.Crash?
    ensures Surplus(Step(s, a)) + WrittenOff(s, a) == Surplus(s) + |Replaced(s, a)|
  {
    match a
    case Write(k, outcome) => if Holding(s, k) { WriteCounts(s, k, outcome); }
    case Allocate(k) => AllocateCounts(s, k);
    case Abort(k) => AbortCounts(s, k);
    case Flush => FlushCounts(s);
    case Add(_) =>
  }

  lemma {:induction false} SurplusIsAbandoned(disk: seq<File>, acts: seq<Action>)
    ensures Surplus(After(Boot(disk), acts)) + Abandoned(disk, acts) + RowsAtStart(disk, acts) ==
      Overwritten(disk, acts)
  {
    if acts != [] {
      var n := |acts| - 1;
      if acts[n].Crash? {
        assert After(Boot(disk), acts).flights == [];
      } else {
        SurplusIsAbandoned(disk, acts[..n]);
        StepCounts(After(Boot(disk), acts[..n]), acts[n]);
      }
    }
  }

  lemma {:induction false} SafeRecordsOverwriteNothing(disk: seq<File>, acts: seq<Action>)
    requires SafeRecords(acts)
    ensures Overwritten(disk, acts) == 0
  {
    if acts != [] {
      var n := |acts| - 1;
      SafeRecordsOverwriteNothing(disk, acts[..n]);
      AlwaysFresh(disk, acts[..n]);
      FreshReplacesNothing(After(Boot(disk), acts[..n]), acts[n]);
    }
  }

  /**
   Over any run, aborted batches, crashes and overwritten files included, the written counter and what running
   flushes will add differ from the rows put on disk since the process started by the rows of aborted batches,
   which it misses, and the overwritten ones, which it keeps. The last are none if every family matches itself.
   */
  lemma WrittenCountsRows(disk: seq<File>, acts: seq<Action>)
    ensures var s := After(Boot(disk), acts);
      s.written + Unreported(s.flights) + Abandoned(disk, acts) ==
        |DiskRows(s.disk)| - RowsAtStart(disk, acts) + Overwritten(disk, acts)
    ensures SafeRecords(acts) ==> Overwritten(disk, acts) == 0
  {
    SurplusIsAbandoned(disk, acts);
    if SafeRecords(acts) {
      SafeRecordsOverwriteNothing(disk, acts);
    }
  }

  lemma TwoRowsAdded(r: Record, q: Record) returns (acts: seq<Action>)
    requires r.family != q.family
    ensures Abandoned([], acts) == 0
    ensures After(Boot([]), acts) ==
      Boot([]).(flights := [Flight([Group(r.family, [r]), Group(q.family, [q])], None, 0)], added := multiset{r, q})
  {
    AfterNext(Boot([]), [], Add(r));
    AbandonedNext([], [], Add(r));
    acts := [] + [Add(r)];
    AfterNext(Boot([]), acts, Add(q));
    AbandonedNext([], acts, Add(q));
    acts := acts + [Add(q)];
    AfterNext(Boot([]), acts, Flush);
    AbandonedNext([], acts, Flush);
    acts := acts + [Flush];
    TwoGroups(r, q);
  }

  lemma TwoGroups(r: Record, q: Record)
    requires r.family != q.family
    ensures GroupBatch([] + [r] + [q]) == [Group(r.family, [r]), Group(q.family, [q])]
  {
    assert ([] + [r] + [q])[..1] == [r];
    assert [r][..0] == [];
    var first := [Group(r.family, [r])];
    assert GroupBatch([r]) == first;
    assert first[1..] == [];
    assert AddToGroups(first, q) == first + [Group(q.family, [q])];
  }

  lemma AbandonedNext(disk: seq<File>, acts: seq<Action>, a: Action)
    requires !a.Crash?
    ensures Abandoned(disk, acts + [a]) == Abandoned(disk, acts) + WrittenOff(After(Boot(disk), acts), a)
  {
    assert (acts + [a])[..|acts|] == acts;
  }

  lemma FirstAllocated(s: State, g: seq<Group>) returns (p: Path)
    requires s.flights == [Flight(g, None, 0)] && g != []
    ensures var s' := Step(s, Allocate(0));
      s'.flights == [Flight(g, Some(p), 0)] && s'.disk == s.disk && s'.written == s.written
  {
    p := SegmentPath(g[0].family, SeededNext(s.seqs, s.disk, g[0].family));
  }

  lemma FirstWritten(s: State, r: Record, rest: Group, p: Path)
    requires s.flights == [Flight([Group(r.family, [r]), rest], Some(p), 0)] && s.disk == []
    ensures var s' := Step(s, Write(0, Written));
      s'.flights == [Flight([rest], None, 1)] && s'.disk == [File(p, [r])] && s'.written == s.written
  {
    assert [Group(r.family, [r]), rest][1..] == [rest];
  }

  /** A batch of two families that aborts after its first segment: one row on disk, none in the counter. */
  lemma AbortedBatchIsNotCounted(r: Record, q: Record) returns (acts: seq<Action>)
    requires r.family != q.family
    ensures var s := After(Boot([]), acts);
      |DiskRows(s.disk)| == 1 && s.written == 0 && Unreported(s.flights) == 0 && Abandoned([], acts) == 1
  {
    acts := TwoRowsAdded(r, q);
    var s := After(Boot([]), acts);
    AfterNext(Boot([]), acts, Allocate(0));
    AbandonedNext([], acts, Allocate(0));
    var p := FirstAllocated(s, [Group(r.family, [r]), Group(q.family, [q])]);
    acts, s := acts + [Allocate(0)], Step(s, Allocate(0));
    AfterNext(Boot([]), acts, Write(0, Written));
    AbandonedNext([], acts, Write(0, Written));
    FirstWritten(s, r, Group(q.family, [q]), p);
    acts, s := acts + [Write(0, Written)], Step(s, Write(0, Written));
    AfterNext(Boot([]), acts, Abort(0));
    AbandonedNext([], acts, Abort(0));
    acts, s := acts + [Abort(0)], Step(s, Abort(0));
    NothingUnreported(Flight([], None, 0));
    OneFile(File(p, [r]));
  }

  lemma NothingUnreported(f: Flight)
    requires f.groups == []
    ensures Unreported([f]) == 0
  {
    assert [f][..0] == [];
  }

  /** Without failures and crashes nothing is given up. */
  lemma {:induction false} NothingDroppedWithoutFaults(disk: seq<File>, acts: seq<Action>)
    requires forall k :: 0 <= k < |acts| ==>
      !acts[k].Crash? && !acts[k].Abort? && (acts[k].Write? ==> acts[k].outcome.Written?)
    ensures After(Boot(disk), acts).dropped == multiset{}
  {
    if acts != [] {
      NothingDroppedWithoutFaults(disk, acts[..|acts| - 1]);
    }
  }

  /** A bracketed channel fails the check, so its segments are overwritten after a restart. */
  lemma BracketedChannelOverwrites(dir: string)
    ensures !NeverOverwrites(Family(dir, "[x]", "07"))
  {
    N.BracketedChannelIsMissed();
    NeverOverwritesExactlyWhenNameFindsItself(Family(dir, "[x]", "07"));
  }

  /** Any directory, a channel without an opening bracket and a two-digit hour make a safe family. */
  lemma PlainChannelNeverOverwrites(f: Family)
    requires N.ValidHour(f.hour) && N.BracketFree(f.channel)
    ensures f.Valid() && NeverOverwrites(f)
  {
    var stem := f.Stem();
    forall i | 0 <= i < |stem| ensures stem[i] != '[' {
      if i > |f.channel| {
        assert stem[i] == f.hour[i - |f.channel| - 1];
      }
    }
    N.BracketFreeFindsOwn(stem);
    NeverOverwritesExactlyWhenNameFindsItself(f);
  }
}
