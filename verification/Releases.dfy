/**
 The release columns of KHKT_Evaluation/rq1_v2/data.py: sort by publication time, keep the first
 publication of each observation period, drop late revisions of old periods, and join each row of the
 panel backwards to the latest survivor.
 */
module Releases {
  import opened Basics
  import S = Sorting

  /** Times are integers (nanoseconds); a value that is not finite is None. */
  datatype Release = Release(available: int, observation: int, value: Option<real>, unitOk: bool, sourced: bool)

  datatype Failure = NoData | BadUnit | RepeatedPublication | BadValue | ObservedAfterPublished | NoSource

  // ---------------------------------------------------------------- sorting by publication

  predicate NotLater(a: Release, b: Release) {
    a.available <= b.available
  }

  function Sort(rs: seq<Release>): (s: seq<Release>)
    ensures |s| == |rs|
  {
    S.Sort(NotLater, rs)
  }

  ghost predicate Ordered(s: seq<Release>) {
    S.Sorted(NotLater, s)
  }

  ghost predicate StrictlyOrdered(s: seq<Release>) {
    forall i, j :: 0 <= i < j < |s| ==> s[i].available < s[j].available
  }

  lemma SortOrders(rs: seq<Release>)
    ensures Ordered(Sort(rs))
    ensures forall x :: x in Sort(rs) <==> x in rs
  {
    assert S.Orders(NotLater);
    S.SortOrders(NotLater, rs);
    forall x ensures x in Sort(rs) <==> x in rs {
      S.SortMembers(NotLater, rs, x);
    }
  }

  /** No two releases of the table share a publication time. */
  ghost predicate DistinctTimes(rs: seq<Release>) {
    forall i, j :: 0 <= i < j < |rs| ==> rs[i].available != rs[j].available
  }

  predicate AdjacentTimesDiffer(s: seq<Release>) {
    forall i :: 0 < i < |s| ==> s[i - 1].available != s[i].available
  }

  lemma {:induction false} AdjacentSuffices(s: seq<Release>)
    requires Ordered(s) && AdjacentTimesDiffer(s)
    ensures StrictlyOrdered(s)
  {
    forall i, j | 0 <= i < j < |s| ensures s[i].available < s[j].available {
      assert s[j - 1].available != s[j].available;
      assert i < j - 1 ==> NotLater(s[i], s[j - 1]);
      assert NotLater(s[j - 1], s[j]);
    }
  }

  // ---------------------------------------------------------------- the pipeline

  /** drop_duplicates("observation_at", keep="first") */
  function FirstOfPeriod(s: seq<Release>): seq<Release> {
    if s == [] then []
    else
      var kept := FirstOfPeriod(s[..|s| - 1]);
      if exists k :: 0 <= k < |s| - 1 && s[k].observation == s[|s| - 1].observation then kept
      else kept + [s[|s| - 1]]
  }

  function NewestPeriod(s: seq<Release>): (o: int)
    requires s != []
  {
    if |s| == 1 then s[0].observation else MaxInt(NewestPeriod(s[..|s| - 1]), s[|s| - 1].observation)
  }

  /** rows.observation_at >= rows.observation_at.cummax() */
  function NoLateRevisions(s: seq<Release>): seq<Release> {
    if s == [] then []
    else
      var kept := NoLateRevisions(s[..|s| - 1]);
      if s[|s| - 1].observation >= NewestPeriod(s) then kept + [s[|s| - 1]] else kept
  }

  /** merge_asof(direction="backward"): the last row published at or before t. */
  function AsOf(s: seq<Release>, t: int): Option<Release> {
    if s == [] then None
    else if s[|s| - 1].available <= t then Some(s[|s| - 1])
    else AsOf(s[..|s| - 1], t)
  }

  function Survivors(rs: seq<Release>): seq<Release> {
    NoLateRevisions(FirstOfPeriod(Sort(rs)))
  }

  function Check(rs: seq<Release>): Option<Failure> {
    if exists k :: 0 <= k < |rs| && rs[k].observation > rs[k].available then Some(ObservedAfterPublished)
    else if exists k :: 0 <= k < |rs| && !rs[k].sourced then Some(NoSource)
    else if rs == [] then Some(NoData)
    else if exists k :: 0 <= k < |rs| && !rs[k].unitOk then Some(BadUnit)
    else if !AdjacentTimesDiffer(Sort(rs)) then Some(RepeatedPublication)
    else if exists k :: 0 <= k < |rs| && rs[k].value.None? then Some(BadValue)
    else None
  }

  datatype Column = Rejected(failure: Failure) | Joined(cells: seq<Option<Release>>)

  /** One macro feature's column of the panel, for the given row times. */
  function Prepare(rs: seq<Release>, times: seq<int>): (c: Column)
    ensures c.Joined? ==> |c.cells| == |times|
  {
    var failure := Check(rs);
    if failure.Some? then Rejected(failure.value)
    else
      var kept := Survivors(rs);
      Joined(seq(|times|, i requires 0 <= i < |times| => AsOf(kept, times[i])))
  }

  // ---------------------------------------------------------------- the promise

  /** r is the first publication of its period, and its period the newest, among what was out by t. */
  ghost predicate FirstOfNewest(rs: seq<Release>, t: int, r: Release) {
    && r in rs && r.available <= t
    && (forall x :: x in rs && x.available <= t ==> x.observation <= r.observation)
    && (forall x :: x in rs && x.available <= t && x.observation == r.observation ==> r.available <= x.available)
  }

  ghost predicate Promised(rs: seq<Release>, t: int, cell: Option<Release>) {
    match cell
    case None => forall x :: x in rs ==> x.available > t
    case Some(r) => FirstOfNewest(rs, t, r)
  }

  ghost predicate IsFirst(s: seq<Release>, x: Release) {
    x in s && forall y :: y in s && y.observation == x.observation ==> x.available <= y.available
  }

  lemma LastIsLater(s: seq<Release>)
    requires StrictlyOrdered(s) && s != []
    ensures s == s[..|s| - 1] + [s[|s| - 1]] && StrictlyOrdered(s[..|s| - 1])
    ensures forall y :: y in s[..|s| - 1] ==> y.available < s[|s| - 1].available
  {
  }

  /** A repeated period at the end changes no first publication. */
  lemma RepeatIsNoFirst(s: seq<Release>, k: nat, x: Release)
    requires StrictlyOrdered(s) && k < |s| - 1 && s[k].observation == s[|s| - 1].observation
    ensures IsFirst(s, x) <==> IsFirst(s[..|s| - 1], x)
  {
    LastIsLater(s);
    assert s[k] in s[..|s| - 1];
  }

  /** A new period at the end adds its row to the first publications. */
  lemma NewPeriodIsFirst(s: seq<Release>, x: Release)
    requires StrictlyOrdered(s) && s != []
    requires forall k :: 0 <= k < |s| - 1 ==> s[k].observation != s[|s| - 1].observation
    ensures IsFirst(s, x) <==> IsFirst(s[..|s| - 1], x) || x == s[|s| - 1]
  {
    LastIsLater(s);
  }

  lemma {:induction false} FirstMember(s: seq<Release>, x: Release)
    requires StrictlyOrdered(s)
    ensures x in FirstOfPeriod(s) <==> IsFirst(s, x)
  {
    if s != [] {
      var n := |s| - 1;
      FirstMember(s[..n], x);
      if k :| 0 <= k < n && s[k].observation == s[n].observation {
        RepeatIsNoFirst(s, k, x);
      } else {
        NewPeriodIsFirst(s, x);
      }
    }
  }

  lemma {:induction false} FirstsOrdered(s: seq<Release>)
    requires StrictlyOrdered(s)
    ensures StrictlyOrdered(FirstOfPeriod(s))
    ensures forall x :: x in FirstOfPeriod(s) ==> x in s
  {
    if s != [] {
      LastIsLater(s);
      FirstsOrdered(s[..|s| - 1]);
    }
  }

  lemma FirstOfPeriodKeeps(s: seq<Release>)
    requires StrictlyOrdered(s)
    ensures StrictlyOrdered(FirstOfPeriod(s))
    ensures forall x :: x in FirstOfPeriod(s) <==> IsFirst(s, x)
  {
    FirstsOrdered(s);
    forall x ensures x in FirstOfPeriod(s) <==> IsFirst(s, x) {
      FirstMember(s, x);
    }
  }

  lemma {:induction false} NewestBounds(s: seq<Release>)
    requires s != []
    ensures forall x :: x in s ==> x.observation <= NewestPeriod(s)
    ensures exists x :: x in s && x.observation == NewestPeriod(s)
  {
    var n := |s| - 1;
    assert s == s[..n] + [s[n]];
    if n > 0 {
      NewestBounds(s[..n]);
    }
  }

  ghost predicate IsNewest(s: seq<Release>, x: Release) {
    x in s && forall y :: y in s && y.available <= x.available ==> y.observation <= x.observation
  }

  lemma {:induction false} SurvivorMember(s: seq<Release>, x: Release)
    requires StrictlyOrdered(s)
    ensures x in NoLateRevisions(s) <==> IsNewest(s, x)
  {
    if s != [] {
      LastIsLater(s);
      SurvivorMember(s[..|s| - 1], x);
      NewestBounds(s);
    }
  }

  lemma {:induction false} SurvivorsOrdered(s: seq<Release>)
    requires StrictlyOrdered(s)
    ensures StrictlyOrdered(NoLateRevisions(s))
    ensures forall x :: x in NoLateRevisions(s) ==> x in s
  {
    if s != [] {
      LastIsLater(s);
      SurvivorsOrdered(s[..|s| - 1]);
    }
  }

  lemma SurvivorsAreNewest(s: seq<Release>)
    requires StrictlyOrdered(s)
    ensures StrictlyOrdered(NoLateRevisions(s))
    ensures forall x :: x in NoLateRevisions(s) <==> IsNewest(s, x)
  {
    SurvivorsOrdered(s);
    forall x ensures x in NoLateRevisions(s) <==> IsNewest(s, x) {
      SurvivorMember(s, x);
    }
  }

  lemma {:induction false} AsOfIsLatest(s: seq<Release>, t: int)
    requires StrictlyOrdered(s)
    ensures match AsOf(s, t)
      case None => forall x :: x in s ==> x.available > t
      case Some(r) =>
        r in s && r.available <= t && forall x :: x in s && x.available <= t ==> x.available <= r.available
  {
    if s != [] {
      LastIsLater(s);
      AsOfIsLatest(s[..|s| - 1], t);
    }
  }

  /** Some survivor published by t carries the newest period published by t. */
  lemma NewestSurvives(s: seq<Release>, t: int, o: int)
    requires StrictlyOrdered(s)
    requires exists x :: x in s && x.available <= t && x.observation == o
    requires forall x :: x in s && x.available <= t ==> x.observation <= o
    ensures exists x :: x in NoLateRevisions(s) && x.available <= t && x.observation == o
  {
    var x :| x in s && x.available <= t && x.observation == o;
    SurvivorsAreNewest(s);
    assert x in NoLateRevisions(s);
  }

  lemma {:induction false} NewestOutBy(rs: seq<Release>, t: int) returns (o: int)
    requires exists x :: x in rs && x.available <= t
    ensures exists x :: x in rs && x.available <= t && x.observation == o
    ensures forall x :: x in rs && x.available <= t ==> x.observation <= o
  {
    var n := |rs| - 1;
    assert rs == rs[..n] + [rs[n]];
    if exists x :: x in rs[..n] && x.available <= t {
      o := NewestOutBy(rs[..n], t);
      if rs[n].available <= t && rs[n].observation > o {
        o := rs[n].observation;
      }
    } else {
      o := rs[n].observation;
    }
  }

  lemma SortedPipelineKeepsPromise(s: seq<Release>, t: int)
    requires StrictlyOrdered(s)
    ensures Promised(s, t, AsOf(NoLateRevisions(FirstOfPeriod(s)), t))
  {
    var firsts := FirstOfPeriod(s);
    var kept := NoLateRevisions(firsts);
    FirstOfPeriodKeeps(s);
    SurvivorsAreNewest(firsts);
    AsOfIsLatest(kept, t);
    if exists x :: x in s && x.available <= t {
      var o := NewestOutBy(s, t);
      FirstPublicationExists(s, t, o);
      NewestSurvives(firsts, t, o);
      var r := AsOf(kept, t).value;
      LatestSurvivorIsNewest(firsts, kept, t, o, r);
      FirstsAreFirst(s, firsts, t, r);
    }
  }

  /** A period published by t has its first publication by t. */
  lemma FirstPublicationExists(s: seq<Release>, t: int, o: int)
    requires StrictlyOrdered(s)
    requires exists x :: x in s && x.available <= t && x.observation == o
    requires forall x :: x in s && x.available <= t ==> x.observation <= o
    ensures exists x :: x in FirstOfPeriod(s) && x.available <= t && x.observation == o
    ensures forall x :: x in FirstOfPeriod(s) && x.available <= t ==> x.observation <= o
  {
    FirstsOrdered(s);
    var f := EarliestOf(s, o);
    FirstMember(s, f);
  }

  lemma {:induction false} EarliestOf(s: seq<Release>, o: int) returns (f: Release)
    requires StrictlyOrdered(s)
    requires exists x :: x in s && x.observation == o
    ensures f in s && f.observation == o
    ensures forall y :: y in s && y.observation == o ==> f.available <= y.available
  {
    var n := |s| - 1;
    assert s == s[..n] + [s[n]];
    if exists x :: x in s[..n] && x.observation == o {
      f := EarliestOf(s[..n], o);
      assert f.available < s[n].available;
    } else {
      f := s[n];
    }
  }

  lemma LatestSurvivorIsNewest(firsts: seq<Release>, kept: seq<Release>, t: int, o: int, r: Release)
    requires StrictlyOrdered(firsts) && kept == NoLateRevisions(firsts)
    requires exists x :: x in kept && x.available <= t && x.observation == o
    requires forall x :: x in firsts && x.available <= t ==> x.observation <= o
    requires r in kept && r.available <= t
    requires forall x :: x in kept && x.available <= t ==> x.available <= r.available
    ensures r.observation == o && r in firsts
  {
    SurvivorsAreNewest(firsts);
    var x :| x in kept && x.available <= t && x.observation == o;
    assert x.available <= r.available;
  }

  lemma FirstsAreFirst(s: seq<Release>, firsts: seq<Release>, t: int, r: Release)
    requires StrictlyOrdered(s) && firsts == FirstOfPeriod(s) && r in firsts && r.available <= t
    requires forall x :: x in s && x.available <= t ==> x.observation <= r.observation
    ensures FirstOfNewest(s, t, r)
  {
    FirstOfPeriodKeeps(s);
  }

  /**
   Every cell is the first publication of the newest observation period that was out at its row's time,
   and empty only where nothing was out.
   */
  lemma CellsKeepPromise(rs: seq<Release>, times: seq<int>, i: nat)
    requires Prepare(rs, times).Joined? && i < |times|
    ensures Promised(rs, times[i], Prepare(rs, times).cells[i])
  {
    SortOrders(rs);
    AdjacentSuffices(Sort(rs));
    SortedPipelineKeepsPromise(Sort(rs), times[i]);
  }

  /** The promise fixes the cell: two tables that agree on what was out by t give equal cells. */
  lemma PromiseIsDeterminate(rs: seq<Release>, qs: seq<Release>, t: int, a: Option<Release>, b: Option<Release>)
    requires DistinctTimes(rs)
    requires forall x: Release :: x.available <= t ==> (x in rs <==> x in qs)
    requires Promised(rs, t, a) && Promised(qs, t, b)
    ensures a == b
  {
    if a.Some? && b.Some? {
      assert b.value in rs && a.value in qs;
      assert a.value.observation == b.value.observation;
      assert a.value.available == b.value.available;
      var i :| 0 <= i < |rs| && rs[i] == a.value;
      var j :| 0 <= j < |rs| && rs[j] == b.value;
    }
  }

  lemma {:induction false} AcceptedTimesDiffer(rs: seq<Release>)
    requires AdjacentTimesDiffer(Sort(rs))
    ensures DistinctTimes(rs)
  {
    SortOrders(rs);
    AdjacentSuffices(Sort(rs));
    StrictSortMeansDistinct(rs);
  }

  lemma {:induction false} StrictSortMeansDistinct(rs: seq<Release>)
    requires StrictlyOrdered(Sort(rs))
    ensures DistinctTimes(rs)
  {
    if rs != [] {
      var n := |rs| - 1;
      StrictInsert(rs[n], Sort(rs[..n]));
      StrictSortMeansDistinct(rs[..n]);
      SortOrders(rs[..n]);
      forall i | 0 <= i < n ensures rs[i].available != rs[n].available {
        assert rs[i] in rs[..n];
      }
    }
  }

  lemma StrictFront(t: seq<Release>, l: Release)
    requires StrictlyOrdered(t + [l])
    ensures StrictlyOrdered(t)
    ensures forall x :: x in t ==> x.available < l.available
  {
    var s := t + [l];
    assert s[..|t|] == t && s[|t|] == l;
    forall x | x in t ensures x.available < l.available {
      var k :| 0 <= k < |t| && t[k] == x;
      assert s[k] == x;
    }
  }

  lemma StrictSnoc(t: seq<Release>, l: Release)
    requires StrictlyOrdered(t)
    requires forall x :: x in t ==> x.available < l.available
    ensures StrictlyOrdered(t + [l])
  {
  }

  lemma {:induction false} StrictInsert(r: Release, s: seq<Release>)
    requires StrictlyOrdered(S.Insert(NotLater, r, s))
    ensures StrictlyOrdered(s)
    ensures forall x :: x in s ==> x.available != r.available
  {
    if s == [] {
    } else if NotLater(s[|s| - 1], r) {
      StrictFront(s, r);
    } else {
      var front, last := s[..|s| - 1], s[|s| - 1];
      assert s == front + [last];
      StrictFront(S.Insert(NotLater, r, front), last);
      StrictInsert(r, front);
      forall x | x in front ensures x.available < last.available {
        S.InsertMembers(NotLater, r, front, x);
      }
      StrictSnoc(front, last);
    }
  }

  lemma AcceptedIsDistinct(rs: seq<Release>, times: seq<int>)
    requires Prepare(rs, times).Joined?
    ensures DistinctTimes(rs)
  {
    assert AdjacentTimesDiffer(Sort(rs));
    AcceptedTimesDiffer(rs);
  }

  /**
   No look-ahead: two accepted release tables that contain the same releases up to time t, in whatever
   row order, give the same cell at t. In particular adding, removing or revising anything published
   after t leaves the panel at t as it was.
   */
  lemma FutureReleasesDoNotMatter(rs: seq<Release>, qs: seq<Release>, times: seq<int>, i: nat)
    requires Prepare(rs, times).Joined? && Prepare(qs, times).Joined? && i < |times|
    requires forall x: Release :: x.available <= times[i] ==> (x in rs <==> x in qs)
    ensures Prepare(rs, times).cells[i] == Prepare(qs, times).cells[i]
  {
    CellsKeepPromise(rs, times, i);
    CellsKeepPromise(qs, times, i);
    AcceptedIsDistinct(rs, times);
    PromiseIsDeterminate(rs, qs, times[i], Prepare(rs, times).cells[i], Prepare(qs, times).cells[i]);
  }

  /** A table is accepted exactly when it is well formed and no two releases share a publication time. */
  lemma AcceptedExactlyWhenWellFormed(rs: seq<Release>, times: seq<int>)
    ensures Prepare(rs, times).Joined? <==>
      && rs != [] && DistinctTimes(rs)
      && forall x :: x in rs ==> x.observation <= x.available && x.sourced && x.unitOk && x.value.Some?
  {
    if AdjacentTimesDiffer(Sort(rs)) {
      AcceptedTimesDiffer(rs);
    } else {
      SharedTimeSurvivesSort(rs);
    }
  }

  lemma SharedTimeSurvivesSort(rs: seq<Release>)
    requires !AdjacentTimesDiffer(Sort(rs))
    ensures !DistinctTimes(rs)
  {
    if DistinctTimes(rs) {
      DistinctSortsStrictly(rs);
      assert false;
    }
  }

  lemma {:induction false} DistinctSortsStrictly(rs: seq<Release>)
    requires DistinctTimes(rs)
    ensures StrictlyOrdered(Sort(rs))
  {
    if rs != [] {
      var n := |rs| - 1;
      DistinctSortsStrictly(rs[..n]);
      SortOrders(rs[..n]);
      forall x | x in Sort(rs[..n]) ensures x.available != rs[n].available {
        assert x in rs[..n];
      }
      InsertStrictly(rs[n], Sort(rs[..n]));
    }
  }

  lemma {:induction false} InsertStrictly(r: Release, s: seq<Release>)
    requires StrictlyOrdered(s) && forall x :: x in s ==> x.available != r.available
    ensures StrictlyOrdered(S.Insert(NotLater, r, s))
  {
    if s == [] {
    } else {
      var front, last := s[..|s| - 1], s[|s| - 1];
      assert s == front + [last];
      StrictFront(front, last);
      if NotLater(last, r) {
        StrictSnoc(s, r);
      } else {
        InsertStrictly(r, front);
        forall x | x in S.Insert(NotLater, r, front) ensures x.available < last.available {
          S.InsertMembers(NotLater, r, front, x);
        }
        StrictSnoc(S.Insert(NotLater, r, front), last);
      }
    }
  }
}
