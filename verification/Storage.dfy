/**
 The append-only writer of econith-vps-collector/storage.py: a buffer swapped out at each flush, groups
 by partition written as numbered segments by worker threads, counters seeded from disk.

 `_next_segment` is one step.
 */
module Storage {
  import opened Basics
  import N = SegmentNames

  /** Desk, symbol and date of the source's key, as the directory they make. */
  datatype Family = Family(dir: string, channel: string, hour: string)
  {
    /** The hour is two digits, and the name passes the check under which a restart finds its segments. */
    predicate Valid() {
      N.ValidHour(hour) && N.FindsOwn(Stem())
    }

    function Stem(): string {
      N.Stem(channel, hour)
    }
  }

  datatype Record = Record(family: Family, row: int)

  datatype Path = Path(dir: string, name: string)

  function SegmentPath(f: Family, n: nat): Path {
    Path(f.dir, N.SegmentName(f.Stem(), n))
  }

  datatype File = File(path: Path, rows: seq<Record>)

  // ---------------------------------------------------------------- grouping

  datatype Group = Group(family: Family, rows: seq<Record>)

  function AddToGroups(groups: seq<Group>, r: Record): (gs: seq<Group>) {
    if groups == [] then [Group(r.family, [r])]
    else if groups[0].family == r.family then [groups[0].(rows := groups[0].rows + [r])] + groups[1..]
    else [groups[0]] + AddToGroups(groups[1..], r)
  }

  /** The insertion-ordered dictionary of a batch. */
  function GroupBatch(batch: seq<Record>): seq<Group> {
    if batch == [] then [] else AddToGroups(GroupBatch(batch[..|batch| - 1]), batch[|batch| - 1])
  }

  function GroupRows(groups: seq<Group>): multiset<Record> {
    if groups == [] then multiset{} else multiset(groups[0].rows) + GroupRows(groups[1..])
  }

  function Families(groups: seq<Group>): set<Family> {
    if groups == [] then {} else {groups[0].family} + Families(groups[1..])
  }

  predicate OwnRows(g: Group) {
    g.rows != [] && forall k :: 0 <= k < |g.rows| ==> g.rows[k].family == g.family
  }

  /** One group a family, none empty, each with rows of its family only. */
  predicate WellGrouped(groups: seq<Group>) {
    groups == [] ||
    (OwnRows(groups[0]) && groups[0].family !in Families(groups[1..]) && WellGrouped(groups[1..]))
  }

  lemma {:induction false} AddKeepsGroups(groups: seq<Group>, r: Record)
    requires WellGrouped(groups)
    ensures WellGrouped(AddToGroups(groups, r))
    ensures Families(AddToGroups(groups, r)) == Families(groups) + {r.family}
  {
    var gs := AddToGroups(groups, r);
    if groups == [] {
      assert gs[1..] == [];
    } else if groups[0].family == r.family {
      assert gs[1..] == groups[1..];
    } else {
      AddKeepsGroups(groups[1..], r);
      assert gs[1..] == AddToGroups(groups[1..], r);
    }
  }

  lemma {:induction false} AddKeepsRows(groups: seq<Group>, r: Record)
    ensures GroupRows(AddToGroups(groups, r)) == GroupRows(groups) + multiset{r}
  {
    var gs := AddToGroups(groups, r);
    if groups == [] {
      assert gs[1..] == [];
    } else if groups[0].family == r.family {
      assert gs[1..] == groups[1..];
    } else {
      AddKeepsRows(groups[1..], r);
      assert gs[1..] == AddToGroups(groups[1..], r);
    }
  }

  function RowsOf(groups: seq<Group>, f: Family): seq<Record> {
    if groups == [] then [] else if groups[0].family == f then groups[0].rows else RowsOf(groups[1..], f)
  }

  function OfFamily(batch: seq<Record>, f: Family): seq<Record> {
    if batch == [] then []
    else OfFamily(batch[..|batch| - 1], f) + if batch[|batch| - 1].family == f then [batch[|batch| - 1]] else []
  }

  lemma {:induction false} AddKeepsOrder(groups: seq<Group>, r: Record, f: Family)
    ensures RowsOf(AddToGroups(groups, r), f) == RowsOf(groups, f) + if r.family == f then [r] else []
  {
    if groups != [] && groups[0].family != r.family {
      AddKeepsOrder(groups[1..], r, f);
      assert AddToGroups(groups, r)[1..] == AddToGroups(groups[1..], r);
    } else if groups != [] {
      assert AddToGroups(groups, r)[1..] == groups[1..];
    }
  }

  /** A batch splits into one non-empty group a family, with only that family's rows. */
  lemma {:induction false} GroupsAreWellFormed(batch: seq<Record>)
    ensures WellGrouped(GroupBatch(batch))
  {
    if batch != [] {
      GroupsAreWellFormed(batch[..|batch| - 1]);
      AddKeepsGroups(GroupBatch(batch[..|batch| - 1]), batch[|batch| - 1]);
    }
  }

  /** Each group holds the batch's rows of its family in the order they came. */
  lemma {:induction false} GroupsKeepOrder(batch: seq<Record>, f: Family)
    ensures RowsOf(GroupBatch(batch), f) == OfFamily(batch, f)
  {
    if batch != [] {
      GroupsKeepOrder(batch[..|batch| - 1], f);
      AddKeepsOrder(GroupBatch(batch[..|batch| - 1]), batch[|batch| - 1], f);
    }
  }

  /** Grouping loses no row. */
  lemma {:induction false} GroupsPartitionBatch(batch: seq<Record>)
    ensures GroupRows(GroupBatch(batch)) == multiset(batch)
  {
    if batch != [] {
      var n := |batch| - 1;
      GroupsPartitionBatch(batch[..n]);
      AddKeepsRows(GroupBatch(batch[..n]), batch[n]);
      LastInBag(batch);
    }
  }

  // ---------------------------------------------------------------- disk

  function Names(disk: seq<File>, dir: string): seq<string> {
    if disk == [] then []
    else
      var f := disk[|disk| - 1];
      Names(disk[..|disk| - 1], dir) + if f.path.dir == dir then [f.path.name] else []
  }

  predicate OnDisk(disk: seq<File>, p: Path) {
    exists k :: 0 <= k < |disk| && disk[k].path == p
  }

  /** Writing to a path that exists replaces its contents. */
  function Put(disk: seq<File>, p: Path, rows: seq<Record>): seq<File> {
    if disk == [] then [File(p, rows)]
    else if disk[0].path == p then [File(p, rows)] + disk[1..]
    else [disk[0]] + Put(disk[1..], p, rows)
  }

  function DiskRows(disk: seq<File>): multiset<Record> {
    if disk == [] then multiset{} else multiset(disk[0].rows) + DiskRows(disk[1..])
  }

  lemma OffDiskInRest(disk: seq<File>, p: Path)
    requires disk != [] && !OnDisk(disk, p)
    ensures disk[0].path != p && !OnDisk(disk[1..], p)
  {
    forall k | 0 <= k < |disk| - 1 ensures disk[1..][k].path != p {
      assert disk[1..][k] == disk[k + 1];
    }
  }

  lemma {:induction false} PutFreshIsAppend(disk: seq<File>, p: Path, rows: seq<Record>)
    requires !OnDisk(disk, p)
    ensures Put(disk, p, rows) == disk + [File(p, rows)]
  {
    if disk != [] {
      OffDiskInRest(disk, p);
      PutFreshIsAppend(disk[1..], p, rows);
      assert disk + [File(p, rows)] == [disk[0]] + (disk[1..] + [File(p, rows)]);
    }
  }

  lemma {:induction false} DiskRowsAppend(disk: seq<File>, f: File)
    ensures DiskRows(disk + [f]) == DiskRows(disk) + multiset(f.rows)
  {
    if disk == [] {
      assert [f][1..] == [];
      assert disk + [f] == [f];
    } else {
      DiskRowsAppend(disk[1..], f);
      assert (disk + [f])[1..] == disk[1..] + [f];
    }
  }

  lemma PutFreshAppends(disk: seq<File>, p: Path, rows: seq<Record>)
    requires !OnDisk(disk, p)
    ensures Put(disk, p, rows) == disk + [File(p, rows)]
    ensures DiskRows(Put(disk, p, rows)) == DiskRows(disk) + multiset(rows)
  {
    PutFreshIsAppend(disk, p, rows);
    DiskRowsAppend(disk, File(p, rows));
  }

  /** The rows of the file a write at p would replace. */
  function RowsAt(disk: seq<File>, p: Path): seq<Record> {
    if disk == [] then [] else if disk[0].path == p then disk[0].rows else RowsAt(disk[1..], p)
  }

  lemma AddToBoth<T>(m: multiset<T>, a: multiset<T>, x: multiset<T>, b: multiset<T>, y: multiset<T>)
    requires a + x == b + y
    ensures (m + a) + x == (m + b) + y
  {
    assert (m + a) + x == m + (a + x);
    assert (m + b) + y == m + (b + y);
  }

  lemma SwapAdded<T>(a: multiset<T>, x: multiset<T>, y: multiset<T>)
    ensures (x + a) + y == (y + a) + x
  {
  }

  /** What a write puts on disk comes in exchange for the rows of the file it replaces. */
  lemma {:induction false} PutReplaces(disk: seq<File>, p: Path, rows: seq<Record>)
    ensures DiskRows(Put(disk, p, rows)) + multiset(RowsAt(disk, p)) == DiskRows(disk) + multiset(rows)
  {
    var put := Put(disk, p, rows);
    if disk == [] {
      assert put[1..] == [];
    } else if disk[0].path == p {
      assert put[1..] == disk[1..];
      SwapAdded(DiskRows(disk[1..]), multiset(rows), multiset(disk[0].rows));
    } else {
      PutReplaces(disk[1..], p, rows);
      assert put[1..] == Put(disk[1..], p, rows);
      AddToBoth(multiset(disk[0].rows), DiskRows(put[1..]), multiset(RowsAt(disk, p)),
                DiskRows(disk[1..]), multiset(rows));
    }
  }

  lemma {:induction false} NoRowsOffDisk(disk: seq<File>, p: Path)
    requires !OnDisk(disk, p)
    ensures RowsAt(disk, p) == []
  {
    if disk != [] {
      OffDiskInRest(disk, p);
      NoRowsOffDisk(disk[1..], p);
    }
  }

  lemma {:induction false} ListedExactlyWhenOnDisk(disk: seq<File>, p: Path)
    ensures p.name in Names(disk, p.dir) <==> OnDisk(disk, p)
  {
    if disk != [] {
      var n := |disk| - 1;
      ListedExactlyWhenOnDisk(disk[..n], p);
      assert OnDisk(disk, p) <==> OnDisk(disk[..n], p) || disk[n].path == p;
    }
  }

  lemma SegmentPathsDiffer(f: Family, n: nat, g: Family, m: nat)
    requires f.Valid() && g.Valid()
    ensures SegmentPath(f, n) == SegmentPath(g, m) <==> f == g && n == m
  {
    N.NameReadsBack(f.channel, f.hour, n);
    N.NameReadsBack(g.channel, g.hour, m);
  }

  // ---------------------------------------------------------------- the writer

  function SeededNext(seqs: map<Family, nat>, disk: seq<File>, f: Family): nat {
    if f in seqs then seqs[f] else N.Highest(Names(disk, f.dir), f.Stem()) + 1
  }

  class ParquetSnapshotWriter {
    const threshold: nat
    var buffer: seq<Record>
    var seqs: map<Family, nat>
    var written: nat

    constructor (flushThreshold: int)
      ensures buffer == [] && seqs == map[] && written == 0
      ensures threshold >= 1 && (flushThreshold >= 1 ==> threshold == flushThreshold)
    {
      threshold := if flushThreshold >= 1 then flushThreshold else 1;
      buffer, seqs, written := [], map[], 0;
    }

    method Add(r: Record) returns (full: bool)
      modifies this`buffer
      ensures buffer == old(buffer) + [r]
      ensures full <==> |buffer| >= threshold
    {
      buffer := buffer + [r];
      full := |buffer| >= threshold;
    }

    /** The swap at the head of a flush; the batch then belongs to the worker alone. */
    method TakeBatch() returns (batch: seq<Record>)
      modifies this`buffer
      ensures batch == old(buffer) && buffer == []
    {
      batch := buffer;
      buffer := [];
    }

    method GroupRecords(batch: seq<Record>) returns (groups: seq<Group>)
      ensures groups == GroupBatch(batch)
    {
      groups := [];
      for i := 0 to |batch|
        invariant groups == GroupBatch(batch[..i])
      {
        assert batch[..i + 1][..i] == batch[..i];
        groups := AddToGroups(groups, batch[i]);
      }
      assert batch[..|batch|] == batch;
    }

    method NextSegment(f: Family, disk: seq<File>) returns (p: Path)
      modifies this`seqs
      ensures p == SegmentPath(f, SeededNext(old(seqs), disk, f))
      ensures seqs == old(seqs)[f := SeededNext(old(seqs), disk, f) + 1]
    {
      if f !in seqs {
        var next := N.ScanNextSeq(Names(disk, f.dir), f.Stem());
        seqs := seqs[f := next];
      }
      var n := seqs[f];
      seqs := seqs[f := n + 1];
      p := SegmentPath(f, n);
    }

    method Finish(total: nat)
      modifies this`written
      ensures written == old(written) + total
    {
      written := written + total;
    }
  }
}
