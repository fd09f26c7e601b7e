/**
 Walk-forward folds of KHKT_Evaluation/rq1_v2/run.py and the block permutation of its model.py: which rows
 train, validate and test, and the shuffled control that never moves a row across those sets.
 */
module Folds {
  import opened Basics

  // ---------------------------------------------------------------- masks

  /** Row times in ascending order, the length of a label window, and which rows have all their data. */
  datatype Panel = Panel(times: seq<int>, horizon: int, usable: seq<bool>)
  {
    predicate Valid() {
      |times| == |usable| && horizon > 0
    }

    /** The time at which the label of row i is complete. */
    function LabelEnd(i: nat): int
      requires i < |times|
    {
      times[i] + horizon
    }
  }

  datatype Fold = Fold(trainStart: int, validationStart: int, testStart: int, testEnd: int)

  datatype Masks = Masks(train: seq<bool>, validation: seq<bool>, testing: seq<bool>)

  function Within(x: Panel, lo: int, hi: int): (m: seq<bool>)
    requires x.Valid()
    ensures |m| == |x.times|
  {
    seq(|x.times|, i requires 0 <= i < |x.times| =>
      lo <= x.times[i] && x.times[i] < hi && x.LabelEnd(i) < hi && x.usable[i])
  }

  function CountTrue(m: seq<bool>): nat {
    if m == [] then 0 else CountTrue(m[..|m| - 1]) + if m[|m| - 1] then 1 else 0
  }

  const MIN_LABELS := 32

  /** None is the error for bad stamps or for a set with too few labels. */
  function FoldMasks(x: Panel, f: Fold): Option<Masks>
    requires x.Valid()
  {
    if !(f.trainStart < f.validationStart < f.testStart < f.testEnd) then None
    else
      var m := Masks(Within(x, f.trainStart, f.validationStart), Within(x, f.validationStart, f.testStart),
                     Within(x, f.testStart, f.testEnd));
      if CountTrue(m.train) < MIN_LABELS || CountTrue(m.validation) < MIN_LABELS || CountTrue(m.testing) < MIN_LABELS
      then None else Some(m)
  }

  /** Row j lies inside the label window of row i. */
  predicate InLabelOf(x: Panel, i: nat, j: nat)
    requires x.Valid() && i < |x.times| && j < |x.times|
  {
    x.times[i] <= x.times[j] <= x.LabelEnd(i)
  }

  ghost predicate Purged(x: Panel, earlier: seq<bool>, later: seq<bool>)
    requires x.Valid() && |earlier| == |later| == |x.times|
  {
    forall i, j :: 0 <= i < |x.times| && 0 <= j < |x.times| && earlier[i] && later[j] ==>
      x.times[i] < x.times[j] && !InLabelOf(x, i, j)
  }

  /** The three sets are disjoint, in time order, and no label window of one reaches a row of the next. */
  lemma FoldSetsArePurged(x: Panel, f: Fold)
    requires x.Valid() && FoldMasks(x, f).Some?
    ensures var m := FoldMasks(x, f).value;
      && Purged(x, m.train, m.validation) && Purged(x, m.validation, m.testing) && Purged(x, m.train, m.testing)
      && forall i :: 0 <= i < |x.times| ==>
           !(m.train[i] && m.validation[i]) && !(m.validation[i] && m.testing[i]) && !(m.train[i] && m.testing[i])
  {
    var m := FoldMasks(x, f).value;
    WithinIsPurged(x, f.trainStart, f.validationStart, f.testStart);
    WithinIsPurged(x, f.validationStart, f.testStart, f.testEnd);
  }

  /** The purge costs nothing else: a usable row stays in its set exactly when its label is complete in time. */
  lemma SetsKeepEverySafeRow(x: Panel, f: Fold, i: nat)
    requires x.Valid() && FoldMasks(x, f).Some? && i < |x.times|
    ensures var m := FoldMasks(x, f).value;
      && (m.train[i] <==> x.usable[i] && f.trainStart <= x.times[i] && x.LabelEnd(i) < f.validationStart)
      && (m.validation[i] <==> x.usable[i] && f.validationStart <= x.times[i] && x.LabelEnd(i) < f.testStart)
      && (m.testing[i] <==> x.usable[i] && f.testStart <= x.times[i] && x.LabelEnd(i) < f.testEnd)
  {
  }

  lemma WithinIsPurged(x: Panel, lo: int, mid: int, hi: int)
    requires x.Valid()
    ensures Purged(x, Within(x, lo, mid), Within(x, mid, hi))
  {
  }

  /** The check at the head of the fold loop: a test interval starts no earlier than the previous one ends. */
  method AcceptFolds(folds: seq<Fold>) returns (ok: bool)
    ensures ok <==> forall k :: 0 < k < |folds| ==> folds[k - 1].testEnd <= folds[k].testStart
  {
    var previousEnd: Option<int> := None;
    for k := 0 to |folds|
      invariant previousEnd == if k == 0 then None else Some(folds[k - 1].testEnd)
      invariant forall j :: 0 < j < k ==> folds[j - 1].testEnd <= folds[j].testStart
    {
      if previousEnd.Some? && folds[k].testStart < previousEnd.value {
        return false;
      }
      previousEnd := Some(folds[k].testEnd);
    }
    ok := true;
  }

  /** Checking neighbours is enough: no row is tested in two accepted folds. */
  lemma {:induction false} TestSetsNeverOverlap(x: Panel, folds: seq<Fold>, a: nat, b: nat, i: nat)
    requires x.Valid() && a < b < |folds| && i < |x.times|
    requires forall k :: 0 < k < |folds| ==> folds[k - 1].testEnd <= folds[k].testStart
    requires forall k :: 0 <= k < |folds| ==> FoldMasks(x, folds[k]).Some?
    ensures !(FoldMasks(x, folds[a]).value.testing[i] && FoldMasks(x, folds[b]).value.testing[i])
  {
    LaterFoldsStartLater(x, folds, a, b);
  }

  lemma {:induction false} LaterFoldsStartLater(x: Panel, folds: seq<Fold>, a: nat, b: nat)
    requires x.Valid() && a < b < |folds|
    requires forall k :: 0 < k < |folds| ==> folds[k - 1].testEnd <= folds[k].testStart
    requires forall k :: 0 <= k < |folds| ==> FoldMasks(x, folds[k]).Some?
    ensures folds[a].testEnd <= folds[b].testStart
    decreases b
  {
    if a + 1 < b {
      LaterFoldsStartLater(x, folds, a, b - 1);
      assert FoldMasks(x, folds[b - 1]).Some?;
    }
  }

  // ---------------------------------------------------------------- rows of a set and their blocks

  /** numpy.flatnonzero */
  function Positions(mask: seq<bool>): (idx: seq<nat>)
    ensures forall k :: 0 <= k < |idx| ==> idx[k] < |mask|
  {
    if mask == [] then []
    else Positions(mask[..|mask| - 1]) + if mask[|mask| - 1] then [|mask| - 1] else []
  }

  lemma {:induction false} PositionsListTheSet(mask: seq<bool>)
    ensures Ascending(Positions(mask))
    ensures forall i: nat :: i in Positions(mask) <==> i < |mask| && mask[i]
  {
    if mask != [] {
      var n := |mask| - 1;
      PositionsListTheSet(mask[..n]);
      assert mask == mask[..n] + [mask[n]];
    }
  }

  /** Consecutive blocks; the last one may be short. */
  function Chunks(idx: seq<nat>, block: nat): (cs: seq<seq<nat>>)
    requires block >= 1
  {
    if |idx| <= block then (if idx == [] then [] else [idx]) else [idx[..block]] + Chunks(idx[block..], block)
  }

  predicate InRange(order: seq<nat>, n: nat) {
    forall k :: 0 <= k < |order| ==> order[k] < n
  }

  /** The chunks laid end to end in the given order. */
  function Arrange(chunks: seq<seq<nat>>, order: seq<nat>): seq<nat>
    requires InRange(order, |chunks|)
  {
    if order == [] then [] else chunks[order[0]] + Arrange(chunks, order[1..])
  }

  function Upto(n: nat): (r: seq<nat>)
    ensures |r| == n && forall k :: 0 <= k < n ==> r[k] == k
  {
    seq(n, k => k)
  }

  predicate IsPermutation(order: seq<nat>, n: nat) {
    multiset(order) == multiset(Upto(n))
  }

  lemma PermutationInRange(order: seq<nat>, n: nat)
    requires IsPermutation(order, n)
    ensures |order| == n && InRange(order, n)
  {
    assert |order| == |multiset(order)| == |multiset(Upto(n))|;
    forall k | 0 <= k < |order| ensures order[k] < n {
      assert order[k] in multiset(order);
      assert order[k] in Upto(n);
    }
  }

  /** order without its entry j */
  function Without(order: seq<nat>, j: nat): (rest: seq<nat>)
    requires j < |order|
    ensures |rest| == |order| - 1
  {
    if j == 0 then order[1..] else [order[0]] + Without(order[1..], j - 1)
  }

  lemma HeadInBag(s: seq<nat>)
    requires s != []
    ensures multiset(s) == multiset{s[0]} + multiset(s[1..])
  {
    assert s == [s[0]] + s[1..];
  }

  lemma {:induction false} WithoutInRange(order: seq<nat>, j: nat, n: nat)
    requires j < |order| && InRange(order, n)
    ensures InRange(Without(order, j), n)
  {
    if j > 0 {
      WithoutInRange(order[1..], j - 1, n);
    }
  }

  lemma {:induction false} WithoutOne(order: seq<nat>, j: nat)
    requires j < |order|
    ensures multiset(order) == multiset(Without(order, j)) + multiset{order[j]}
  {
    HeadInBag(order);
    if j > 0 {
      WithoutOne(order[1..], j - 1);
      var rest := Without(order, j);
      HeadInBag(rest);
      assert rest[1..] == Without(order[1..], j - 1);
    }
  }

  lemma {:induction false} ArrangeAt(chunks: seq<seq<nat>>, order: seq<nat>, j: nat)
    requires j < |order| && InRange(order, |chunks|) && InRange(Without(order, j), |chunks|)
    ensures multiset(Arrange(chunks, order)) ==
      multiset(chunks[order[j]]) + multiset(Arrange(chunks, Without(order, j)))
  {
    if j > 0 {
      WithoutInRange(order[1..], j - 1, |chunks|);
      ArrangeAt(chunks, order[1..], j - 1);
      assert Without(order, j)[1..] == Without(order[1..], j - 1);
    }
  }

  lemma SharedEntry(a: seq<nat>, b: seq<nat>) returns (j: nat)
    requires a != [] && multiset(a) == multiset(b)
    ensures j < |b| && b[j] == a[0]
  {
    assert a[0] in multiset(b);
    j :| 0 <= j < |b| && b[j] == a[0];
  }

  /** Reordering the chunks reorders the rows. */
  lemma {:induction false} ArrangeIsReordering(chunks: seq<seq<nat>>, a: seq<nat>, b: seq<nat>)
    requires multiset(a) == multiset(b)
    requires InRange(a, |chunks|) && InRange(b, |chunks|)
    ensures multiset(Arrange(chunks, a)) == multiset(Arrange(chunks, b))
  {
    if a == [] {
      assert |b| == |multiset(b)|;
    } else {
      var j := SharedEntry(a, b);
      WithoutInRange(b, j, |chunks|);
      WithoutInRange(a, 0, |chunks|);
      WithoutOne(b, j);
      WithoutOne(a, 0);
      assert multiset(Without(a, 0)) == multiset(a) - multiset{a[0]};
      assert multiset(Without(b, j)) == multiset(b) - multiset{b[j]};
      ArrangeIsReordering(chunks, Without(a, 0), Without(b, j));
      ArrangeAt(chunks, b, j);
      ArrangeAt(chunks, a, 0);
    }
  }

  lemma {:induction false} ArrangeShifted(all: seq<seq<nat>>, order: seq<nat>, rest: seq<seq<nat>>, down: seq<nat>)
    requires |order| == |down| && InRange(order, |all|) && InRange(down, |rest|)
    requires forall k :: 0 <= k < |down| ==> order[k] == down[k] + 1
    requires |all| == |rest| + 1 && all[1..] == rest
    ensures Arrange(all, order) == Arrange(rest, down)
  {
    if order != [] {
      ArrangeShifted(all, order[1..], rest, down[1..]);
      assert all[order[0]] == rest[down[0]];
    }
  }

  lemma {:induction false} ChunksRejoin(idx: seq<nat>, block: nat)
    requires block >= 1
    ensures Arrange(Chunks(idx, block), Upto(|Chunks(idx, block)|)) == idx
  {
    var cs := Chunks(idx, block);
    if |idx| > block {
      ChunksRejoin(idx[block..], block);
      ArrangeShifted(cs, Upto(|cs|)[1..], Chunks(idx[block..], block), Upto(|cs| - 1));
    } else if idx != [] {
      assert Upto(1)[1..] == [];
    }
  }

  // ---------------------------------------------------------------- the permutation

  /** out[idx] = x[arranged], as where each row's data comes from. */
  function Assign(sigma: seq<nat>, idx: seq<nat>, from: seq<nat>): (s: seq<nat>)
    requires |idx| == |from| && forall k :: 0 <= k < |idx| ==> idx[k] < |sigma|
    ensures |s| == |sigma|
  {
    if idx == [] then sigma
    else Assign(sigma, idx[..|idx| - 1], from[..|from| - 1])[idx[|idx| - 1] := from[|from| - 1]]
  }

  const MIN_BLOCKS := 4

  predicate GoodOrders(masks: seq<seq<bool>>, block: nat, orders: seq<seq<nat>>)
    requires block >= 1
  {
    |orders| == |masks| &&
    forall m :: 0 <= m < |masks| ==> IsPermutation(orders[m], |Chunks(Positions(masks[m]), block)|)
  }

  /** The rows of the set in their new places. */
  function Arranged(mask: seq<bool>, block: nat, order: seq<nat>): (p: seq<nat>)
    requires block >= 1 && IsPermutation(order, |Chunks(Positions(mask), block)|)
  {
    PermutationInRange(order, |Chunks(Positions(mask), block)|);
    Arrange(Chunks(Positions(mask), block), order)
  }

  lemma ArrangedPermutesTheSet(mask: seq<bool>, block: nat, order: seq<nat>)
    requires block >= 1 && IsPermutation(order, |Chunks(Positions(mask), block)|)
    ensures multiset(Arranged(mask, block, order)) == multiset(Positions(mask))
    ensures |Arranged(mask, block, order)| == |Positions(mask)|
  {
    var chunks := Chunks(Positions(mask), block);
    PermutationInRange(order, |chunks|);
    ArrangeIsReordering(chunks, order, Upto(|chunks|));
    ChunksRejoin(Positions(mask), block);
    var p := Arranged(mask, block, order);
    assert |p| == |multiset(p)|;
    assert |Positions(mask)| == |multiset(Positions(mask))|;
  }

  /** The rows of one set in order, and for each the row whose data goes there. */
  datatype Move = Move(idx: seq<nat>, from: seq<nat>)
  {
    ghost predicate Valid(n: nat) {
      |idx| == |from| && Ascending(idx) && InRange(idx, n)
    }

    function Onto(sigma: seq<nat>): (s: seq<nat>)
      requires |idx| == |from| && InRange(idx, |sigma|)
      ensures |s| == |sigma|
    {
      Assign(sigma, idx, from)
    }
  }

  ghost predicate ValidMoves(moves: seq<Move>, n: nat) {
    forall m :: 0 <= m < |moves| ==> moves[m].Valid(n)
  }

  /** The move rearranges the rows of this set. */
  ghost predicate Rearranges(move: Move, mask: seq<bool>) {
    move.Valid(|mask|) && move.idx == Positions(mask) && multiset(move.from) == multiset(move.idx)
  }

  ghost predicate MovesFit(moves: seq<Move>, masks: seq<seq<bool>>) {
    |moves| == |masks| && forall m :: 0 <= m < |moves| ==> Rearranges(moves[m], masks[m])
  }

  function MoveOf(mask: seq<bool>, block: nat, order: seq<nat>): (v: Move)
    requires block >= 1 && IsPermutation(order, |Chunks(Positions(mask), block)|)
    ensures Rearranges(v, mask)
  {
    ArrangedPermutesTheSet(mask, block, order);
    PositionsListTheSet(mask);
    Move(Positions(mask), Arranged(mask, block, order))
  }

  /** The moves of a call, for the chunk orders drawn from the generator. */
  function Moves(masks: seq<seq<bool>>, block: nat, orders: seq<seq<nat>>, n: nat): (moves: seq<Move>)
    requires block >= 1 && GoodOrders(masks, block, orders) && forall m :: 0 <= m < |masks| ==> |masks[m]| == n
    ensures |moves| == |masks| && ValidMoves(moves, n)
  {
    seq(|masks|, m requires 0 <= m < |masks| => MoveOf(masks[m], block, orders[m]))
  }

  lemma MovesDoFit(masks: seq<seq<bool>>, block: nat, orders: seq<seq<nat>>, n: nat)
    requires block >= 1 && GoodOrders(masks, block, orders) && forall m :: 0 <= m < |masks| ==> |masks[m]| == n
    ensures MovesFit(Moves(masks, block, orders, n), masks)
  {
  }

  /** Where each row's data comes from after the first k sets have been shuffled. */
  ghost function Shuffle(n: nat, moves: seq<Move>, k: nat): (sigma: seq<nat>)
    requires ValidMoves(moves, n) && k <= |moves|
    ensures |sigma| == n
  {
    if k == 0 then Upto(n) else moves[k - 1].Onto(Shuffle(n, moves, k - 1))
  }

  lemma {:induction false} AssignAt(sigma: seq<nat>, idx: seq<nat>, from: seq<nat>)
    requires |idx| == |from| && forall k :: 0 <= k < |idx| ==> idx[k] < |sigma|
    requires Ascending(idx)
    ensures forall k :: 0 <= k < |idx| ==> Assign(sigma, idx, from)[idx[k]] == from[k]
    ensures forall i: nat :: i < |sigma| && i !in idx ==> Assign(sigma, idx, from)[i] == sigma[i]
  {
    if idx != [] {
      var n := |idx| - 1;
      AssignAt(sigma, idx[..n], from[..n]);
      assert idx == idx[..n] + [idx[n]];
      forall k | 0 <= k < n ensures Assign(sigma, idx, from)[idx[k]] == from[k] {
        assert idx[..n][k] == idx[k] && idx[k] != idx[n];
      }
    }
  }

  ghost predicate DisjointMasks(masks: seq<seq<bool>>, n: nat) {
    && (forall m :: 0 <= m < |masks| ==> |masks[m]| == n)
    && (forall a, b, i :: 0 <= a < b < |masks| && 0 <= i < n ==> !(masks[a][i] && masks[b][i]))
  }

  ghost predicate StaysIn(sigma: seq<nat>, mask: seq<bool>)
    requires |sigma| == |mask|
  {
    forall i :: 0 <= i < |mask| && mask[i] ==> sigma[i] < |mask| && mask[sigma[i]]
  }

  ghost predicate OneToOne(sigma: seq<nat>, mask: seq<bool>)
    requires |sigma| == |mask|
  {
    forall i, j :: 0 <= i < j < |mask| && mask[i] && mask[j] ==> sigma[i] != sigma[j]
  }

  ghost predicate Hit(sigma: seq<nat>, mask: seq<bool>, j: nat)
    requires |sigma| == |mask|
  {
    exists i :: 0 <= i < |mask| && mask[i] && sigma[i] == j
  }

  ghost predicate Onto(sigma: seq<nat>, mask: seq<bool>)
    requires |sigma| == |mask|
  {
    forall j: nat :: j < |mask| && mask[j] ==> Hit(sigma, mask, j)
  }

  /** Inside a shuffled set sigma is a bijection of the set's rows. */
  ghost predicate ShufflesSet(sigma: seq<nat>, mask: seq<bool>)
    requires |sigma| == |mask|
  {
    StaysIn(sigma, mask) && OneToOne(sigma, mask) && Onto(sigma, mask)
  }

  lemma DistinctPermutation(p: seq<nat>, idx: seq<nat>)
    requires multiset(p) == multiset(idx) && Ascending(idx)
    ensures forall i, j :: 0 <= i < j < |p| ==> p[i] != p[j]
  {
    forall i, j | 0 <= i < j < |p| ensures p[i] != p[j] {
      if p[i] == p[j] {
        TwiceInBag(p, i, j);
        AtMostOnce(idx, p[i]);
        assert false;
      }
    }
  }

  lemma TwiceInBag(p: seq<nat>, i: nat, j: nat)
    requires i < j < |p| && p[i] == p[j]
    ensures multiset(p)[p[i]] >= 2
  {
    assert p == p[..i] + [p[i]] + p[i + 1..j] + [p[j]] + p[j + 1..];
  }

  lemma {:induction false} AtMostOnce(idx: seq<nat>, v: nat)
    requires Ascending(idx)
    ensures multiset(idx)[v] <= 1
  {
    if idx != [] {
      var n := |idx| - 1;
      AtMostOnce(idx[..n], v);
      assert idx == idx[..n] + [idx[n]];
      if v == idx[n] {
        assert v !in idx[..n];
      }
    }
  }

  lemma RearrangedIsShuffled(move: Move, mask: seq<bool>)
    requires Rearranges(move, mask)
    ensures ShufflesSet(move.Onto(Upto(|mask|)), mask)
  {
    AssignAt(Upto(|mask|), move.idx, move.from);
    PositionsListTheSet(mask);
    var s := move.Onto(Upto(|mask|));
    RearrangedStaysIn(move, mask, s);
    RearrangedIsOneToOne(move, mask, s);
    RearrangedIsOnto(move, mask, s);
  }

  ghost predicate Places(s: seq<nat>, move: Move)
    requires |move.idx| == |move.from|
  {
    forall k :: 0 <= k < |move.idx| ==> move.idx[k] < |s| && s[move.idx[k]] == move.from[k]
  }

  ghost predicate Lists(idx: seq<nat>, mask: seq<bool>) {
    forall i: nat :: i in idx <==> i < |mask| && mask[i]
  }

  lemma RearrangedStaysIn(move: Move, mask: seq<bool>, s: seq<nat>)
    requires Rearranges(move, mask) && |s| == |mask| && Places(s, move) && Lists(move.idx, mask)
    ensures StaysIn(s, mask)
  {
    forall i | 0 <= i < |mask| && mask[i] ensures s[i] < |mask| && mask[s[i]] {
      assert i in move.idx;
      var k :| 0 <= k < |move.idx| && move.idx[k] == i;
      assert move.from[k] in multiset(move.idx);
    }
  }

  lemma RearrangedIsOneToOne(move: Move, mask: seq<bool>, s: seq<nat>)
    requires Rearranges(move, mask) && |s| == |mask| && Places(s, move) && Lists(move.idx, mask)
    ensures OneToOne(s, mask)
  {
    DistinctPermutation(move.from, move.idx);
    forall i, j | 0 <= i < j < |mask| && mask[i] && mask[j] ensures s[i] != s[j] {
      assert i in move.idx && j in move.idx;
      var k :| 0 <= k < |move.idx| && move.idx[k] == i;
      var l :| 0 <= l < |move.idx| && move.idx[l] == j;
      assert move.from[k] != move.from[l] by {
        assert k != l;
      }
    }
  }

  lemma RearrangedIsOnto(move: Move, mask: seq<bool>, s: seq<nat>)
    requires Rearranges(move, mask) && |s| == |mask| && Places(s, move) && Lists(move.idx, mask)
    ensures Onto(s, mask)
  {
    forall j: nat | j < |mask| && mask[j] ensures Hit(s, mask, j) {
      assert j in move.idx;
      assert j in multiset(move.from);
      var k :| 0 <= k < |move.from| && move.from[k] == j;
      assert move.idx[k] in move.idx;
      assert mask[move.idx[k]] && s[move.idx[k]] == j;
    }
  }

  /** A move changes its own rows, the same way whatever came before, and no other row. */
  lemma MoveStep(sigma: seq<nat>, move: Move, i: nat)
    requires move.Valid(|sigma|) && i < |sigma|
    ensures move.Onto(sigma)[i] == if i in move.idx then move.Onto(Upto(|sigma|))[i] else sigma[i]
  {
    AssignAt(sigma, move.idx, move.from);
    AssignAt(Upto(|sigma|), move.idx, move.from);
  }

  /** Later sets do not touch the rows of set m. */
  lemma {:induction false} RowsFollowTheirOwnSet(n: nat, moves: seq<Move>, k: nat, m: nat, i: nat)
    requires ValidMoves(moves, n) && m < k <= |moves| && i < n
    requires i in moves[m].idx && forall q :: m < q < k ==> i !in moves[q].idx
    ensures Shuffle(n, moves, k)[i] == moves[m].Onto(Upto(n))[i]
    decreases k
  {
    MoveStep(Shuffle(n, moves, k - 1), moves[k - 1], i);
    if m < k - 1 {
      RowsFollowTheirOwnSet(n, moves, k - 1, m, i);
    }
  }

  lemma {:induction false} OtherRowsStay(n: nat, moves: seq<Move>, k: nat, i: nat)
    requires ValidMoves(moves, n) && k <= |moves| && i < n
    requires forall m :: 0 <= m < k ==> i !in moves[m].idx
    ensures Shuffle(n, moves, k)[i] == i
  {
    if k > 0 {
      MoveStep(Shuffle(n, moves, k - 1), moves[k - 1], i);
      OtherRowsStay(n, moves, k - 1, i);
    }
  }

  lemma SameHits(a: seq<nat>, b: seq<nat>, mask: seq<bool>, j: nat)
    requires |a| == |b| == |mask| && Hit(a, mask, j)
    requires forall i :: 0 <= i < |mask| && mask[i] ==> b[i] == a[i]
    ensures Hit(b, mask, j)
  {
    var i :| 0 <= i < |mask| && mask[i] && a[i] == j;
    assert b[i] == j;
  }

  lemma SameOnSet(a: seq<nat>, b: seq<nat>, mask: seq<bool>)
    requires |a| == |b| == |mask| && ShufflesSet(a, mask)
    requires forall i :: 0 <= i < |mask| && mask[i] ==> b[i] == a[i]
    ensures ShufflesSet(b, mask)
  {
    assert StaysIn(b, mask) by {
      forall i | 0 <= i < |mask| && mask[i] ensures b[i] < |mask| && mask[b[i]] {
        assert b[i] == a[i];
      }
    }
    assert OneToOne(b, mask);
    assert Onto(b, mask) by {
      forall j: nat | j < |mask| && mask[j] ensures Hit(b, mask, j) {
        SameHits(a, b, mask, j);
      }
    }
  }

  /** Every set's rows are rearranged among themselves and rows outside all sets keep their data. */
  ghost predicate StaysInsideSets(sigma: seq<nat>, masks: seq<seq<bool>>)
    requires forall m :: 0 <= m < |masks| ==> |masks[m]| == |sigma|
  {
    && (forall m :: 0 <= m < |masks| ==> ShufflesSet(sigma, masks[m]))
    && (forall i :: 0 <= i < |sigma| && (forall m :: 0 <= m < |masks| ==> !masks[m][i]) ==> sigma[i] == i)
  }

  lemma OwnSetIsShuffled(n: nat, masks: seq<seq<bool>>, moves: seq<Move>, m: nat)
    requires DisjointMasks(masks, n) && MovesFit(moves, masks) && ValidMoves(moves, n) && m < |masks|
    ensures ShufflesSet(Shuffle(n, moves, |masks|), masks[m])
  {
    var sigma, own := Shuffle(n, moves, |masks|), moves[m].Onto(Upto(n));
    assert Rearranges(moves[m], masks[m]);
    RearrangedIsShuffled(moves[m], masks[m]);
    forall i: nat | i < n && masks[m][i] ensures sigma[i] == own[i] {
      OwnRowIsOnlyThere(n, masks, moves, m, i);
      RowsFollowTheirOwnSet(n, moves, |masks|, m, i);
    }
    SameOnSet(own, sigma, masks[m]);
  }

  lemma OwnRowIsOnlyThere(n: nat, masks: seq<seq<bool>>, moves: seq<Move>, m: nat, i: nat)
    requires DisjointMasks(masks, n) && MovesFit(moves, masks) && m < |masks| && i < n && masks[m][i]
    ensures i in moves[m].idx && forall q :: m < q < |masks| ==> i !in moves[q].idx
  {
    assert Rearranges(moves[m], masks[m]);
    PositionsListTheSet(masks[m]);
    forall q | m < q < |masks| ensures i !in moves[q].idx {
      assert Rearranges(moves[q], masks[q]);
      PositionsListTheSet(masks[q]);
    }
  }

  lemma OutsideRowStays(n: nat, masks: seq<seq<bool>>, moves: seq<Move>, i: nat)
    requires MovesFit(moves, masks) && ValidMoves(moves, n) && i < n
    requires forall m :: 0 <= m < |masks| ==> |masks[m]| == n && !masks[m][i]
    ensures Shuffle(n, moves, |masks|)[i] == i
  {
    forall m | 0 <= m < |masks| ensures i !in moves[m].idx {
      assert Rearranges(moves[m], masks[m]);
      PositionsListTheSet(masks[m]);
    }
    OtherRowsStay(n, moves, |masks|, i);
  }

  lemma FittingMovesStayInside(n: nat, masks: seq<seq<bool>>, moves: seq<Move>)
    requires DisjointMasks(masks, n) && MovesFit(moves, masks) && ValidMoves(moves, n)
    ensures StaysInsideSets(Shuffle(n, moves, |masks|), masks)
  {
    forall m | 0 <= m < |masks| ensures ShufflesSet(Shuffle(n, moves, |masks|), masks[m]) {
      OwnSetIsShuffled(n, masks, moves, m);
    }
    forall i: nat | i < n && forall m :: 0 <= m < |masks| ==> !masks[m][i]
      ensures Shuffle(n, moves, |masks|)[i] == i
    {
      OutsideRowStays(n, masks, moves, i);
    }
  }

  /**
   Whatever permutations the generator draws, after the shuffle every set's rows are a rearrangement of
   the same set's rows, each used exactly once, and rows outside all sets stay where they were.
   */
  lemma ShuffleStaysInsideSets(n: nat, masks: seq<seq<bool>>, block: nat, orders: seq<seq<nat>>)
    requires block >= 1 && GoodOrders(masks, block, orders) && DisjointMasks(masks, n)
    ensures StaysInsideSets(Shuffle(n, Moves(masks, block, orders, n), |masks|), masks)
  {
    MovesDoFit(masks, block, orders, n);
    FittingMovesStayInside(n, masks, Moves(masks, block, orders, n));
  }

  /** The shuffled control of an accepted fold never moves data across train, validation and test. */
  lemma FoldControlStaysInsideSets(x: Panel, f: Fold, block: nat, orders: seq<seq<nat>>)
    requires x.Valid() && block >= 1 && FoldMasks(x, f).Some?
    requires GoodOrders(SetsOf(FoldMasks(x, f).value), block, orders)
    ensures var sets := SetsOf(FoldMasks(x, f).value);
      && (forall m :: 0 <= m < 3 ==> |sets[m]| == |x.times|)
      && StaysInsideSets(Shuffle(|x.times|, Moves(sets, block, orders, |x.times|), 3), sets)
  {
    var sets := SetsOf(FoldMasks(x, f).value);
    FoldSetsAreDisjoint(x, f);
    ShuffleStaysInsideSets(|x.times|, sets, block, orders);
  }

  lemma FoldSetsAreDisjoint(x: Panel, f: Fold)
    requires x.Valid() && FoldMasks(x, f).Some?
    ensures DisjointMasks(SetsOf(FoldMasks(x, f).value), |x.times|)
  {
    FoldSetsArePurged(x, f);
  }

  function SetsOf(m: Masks): (sets: seq<seq<bool>>)
    ensures |sets| == 3 && sets[0] == m.train && sets[1] == m.validation && sets[2] == m.testing
  {
    [m.train, m.validation, m.testing]
  }

  /** y holds at every place i the row sigma[i] of x. */
  predicate Gathered<T(==)>(y: seq<T>, x: seq<T>, sigma: seq<nat>) {
    |y| == |sigma| && forall i :: 0 <= i < |y| ==> sigma[i] < |x| && y[i] == x[sigma[i]]
  }

  lemma GatheredUpdate<T>(y: seq<T>, x: seq<T>, sigma: seq<nat>, i: nat, j: nat)
    requires Gathered(y, x, sigma) && i < |y| && j < |x|
    ensures Gathered(y[i := x[j]], x, sigma[i := j])
  {
  }

  /** Writes the arranged rows of one set over the copy. */
  method ScatterSet<T(==)>(x: seq<T>, out: array<T>, idx: seq<nat>, from: seq<nat>, ghost sigma: seq<nat>)
    requires |idx| == |from| && Gathered(out[..], x, sigma)
    requires forall k :: 0 <= k < |idx| ==> idx[k] < out.Length && from[k] < |x|
    modifies out
    ensures Gathered(out[..], x, Assign(sigma, idx, from))
  {
    for k := 0 to |idx|
      invariant Gathered(out[..], x, Assign(sigma, idx[..k], from[..k]))
    {
      ghost var was := out[..];
      assert idx[..k + 1][..k] == idx[..k] && from[..k + 1][..k] == from[..k];
      GatheredUpdate(was, x, Assign(sigma, idx[..k], from[..k]), idx[k], from[k]);
      out[idx[k]] := x[from[k]];
      assert out[..] == was[idx[k] := x[from[k]]];
    }
    assert idx[..|idx|] == idx && from[..|from|] == from;
  }

  /** A set of at most three blocks of rows. */
  predicate TooFewBlocks(mask: seq<bool>, block: nat) {
    |Positions(mask)| <= (MIN_BLOCKS - 1) * block
  }

  lemma {:induction false} ChunkCount(idx: seq<nat>, block: nat, k: nat)
    requires block >= 1
    ensures |Chunks(idx, block)| <= k <==> |idx| <= k * block
  {
    if idx != [] && k > 0 && |idx| > block {
      ChunkCount(idx[block..], block, k - 1);
      assert k * block == (k - 1) * block + block;
    } else if k > 0 {
      assert k * block == (k - 1) * block + block;
    }
  }

  /** One set: out[idx] = x[arranged], or the error for a set of fewer than four blocks. */
  method ShuffleSet<T(==)>(
    x: seq<T>, out: array<T>, mask: seq<bool>, block: nat, order: seq<nat>, ghost sigma: seq<nat>)
    returns (ok: bool)
    requires block >= 1 && IsPermutation(order, |Chunks(Positions(mask), block)|)
    requires |mask| == |x| && |sigma| == |x| && Gathered(out[..], x, sigma)
    modifies out
    ensures ok <==> !TooFewBlocks(mask, block)
    ensures ok ==> Gathered(out[..], x, MoveOf(mask, block, order).Onto(sigma))
  {
    ChunkCount(Positions(mask), block, MIN_BLOCKS - 1);
    if |Chunks(Positions(mask), block)| < MIN_BLOCKS {
      return false;
    }
    var move := MoveOf(mask, block, order);
    FromSameSet(move.from, move.idx, |x|);
    ScatterSet(x, out, move.idx, move.from, sigma);
    ok := true;
  }

  /** x.copy() */
  method CopyOf<T(0, ==)>(x: seq<T>) returns (out: array<T>)
    ensures fresh(out) && Gathered(out[..], x, Upto(|x|))
  {
    out := new T[|x|](i requires 0 <= i < |x| => x[i]);
  }

  /** From state to state each set makes its move. */
  ghost predicate StepOf(states: seq<seq<nat>>, masks: seq<seq<bool>>, block: nat, orders: seq<seq<nat>>, m: nat)
    requires block >= 1 && GoodOrders(masks, block, orders) && m < |masks| < |states|
  {
    |states[m]| == |masks[m]| && states[m + 1] == MoveOf(masks[m], block, orders[m]).Onto(states[m])
  }

  ghost predicate Path(states: seq<seq<nat>>, masks: seq<seq<bool>>, block: nat, orders: seq<seq<nat>>)
    requires block >= 1 && GoodOrders(masks, block, orders)
  {
    |states| == |masks| + 1 && forall m :: 0 <= m < |masks| ==> StepOf(states, masks, block, orders, m)
  }

  predicate Moved(states: seq<seq<nat>>, moves: seq<Move>, m: nat, n: nat)
    requires m < |moves| && m + 1 < |states| && |moves[m].idx| == |moves[m].from| && InRange(moves[m].idx, n)
  {
    |states[m]| == n && states[m + 1] == moves[m].Onto(states[m])
  }

  /** The states of a shuffle, one after the other. */
  lemma {:induction false} Trail(n: nat, moves: seq<Move>, k: nat) returns (states: seq<seq<nat>>)
    requires ValidMoves(moves, n) && k <= |moves|
    ensures |states| == k + 1 && states[0] == Upto(n) && states[k] == Shuffle(n, moves, k)
    ensures forall m :: 0 <= m < k ==> Moved(states, moves, m, n)
  {
    if k == 0 {
      states := [Upto(n)];
    } else {
      var before := Trail(n, moves, k - 1);
      states := before + [moves[k - 1].Onto(before[k - 1])];
      forall m | 0 <= m < k ensures Moved(states, moves, m, n) {
        assert m < k - 1 ==> Moved(before, moves, m, n);
      }
    }
  }

  lemma MoveAt(masks: seq<seq<bool>>, block: nat, orders: seq<seq<nat>>, n: nat, m: nat)
    requires block >= 1 && GoodOrders(masks, block, orders) && m < |masks|
    requires forall k :: 0 <= k < |masks| ==> |masks[k]| == n
    ensures Moves(masks, block, orders, n)[m] == MoveOf(masks[m], block, orders[m])
  {
  }

  lemma ShufflePath(n: nat, masks: seq<seq<bool>>, block: nat, orders: seq<seq<nat>>) returns (states: seq<seq<nat>>)
    requires block >= 1 && GoodOrders(masks, block, orders) && forall k :: 0 <= k < |masks| ==> |masks[k]| == n
    ensures Path(states, masks, block, orders) && states[0] == Upto(n)
    ensures states[|masks|] == Shuffle(n, Moves(masks, block, orders, n), |masks|)
  {
    var moves := Moves(masks, block, orders, n);
    states := Trail(n, moves, |masks|);
    forall m | 0 <= m < |masks| ensures StepOf(states, masks, block, orders, m) {
      MoveAt(masks, block, orders, n, m);
      assert Moved(states, moves, m, n);
    }
  }

  /** None of the first k sets has too few blocks. */
  predicate LargeEnough(masks: seq<seq<bool>>, block: nat, k: nat)
    requires k <= |masks|
  {
    k == 0 || (LargeEnough(masks, block, k - 1) && !TooFewBlocks(masks[k - 1], block))
  }

  lemma {:induction false} LargeEnoughMeans(masks: seq<seq<bool>>, block: nat, k: nat)
    requires k <= |masks|
    ensures LargeEnough(masks, block, k) <==> forall m :: 0 <= m < k ==> !TooFewBlocks(masks[m], block)
  {
    if k > 0 {
      LargeEnoughMeans(masks, block, k - 1);
    }
  }

  lemma OneTooSmall(masks: seq<seq<bool>>, block: nat, m: nat)
    requires m < |masks| && TooFewBlocks(masks[m], block)
    ensures !LargeEnough(masks, block, |masks|)
  {
    LargeEnoughMeans(masks, block, |masks|);
  }

  /** The loop over the sets; false for the error of a set with fewer than four blocks. */
  method PermuteSets<T(==)>(
    x: seq<T>, out: array<T>, masks: seq<seq<bool>>, block: nat, orders: seq<seq<nat>>, ghost states: seq<seq<nat>>)
    returns (ok: bool)
    requires block >= 1 && GoodOrders(masks, block, orders) && forall k :: 0 <= k < |masks| ==> |masks[k]| == |x|
    requires Path(states, masks, block, orders) && Gathered(out[..], x, states[0])
    modifies out
    ensures ok <==> LargeEnough(masks, block, |masks|)
    ensures ok ==> Gathered(out[..], x, states[|masks|])
  {
    for m := 0 to |masks|
      invariant LargeEnough(masks, block, m) && Gathered(out[..], x, states[m])
    {
      assert StepOf(states, masks, block, orders, m);
      ok := ShuffleSet(x, out, masks[m], block, orders[m], states[m]);
      if !ok {
        OneTooSmall(masks, block, m);
        return;
      }
    }
    ok := true;
  }

  /** The shuffled control: every set in turn, or None for the error of a set with fewer than four blocks. */
  method PermuteBlocks<T(0, ==)>(x: seq<T>, masks: seq<seq<bool>>, block: nat, orders: seq<seq<nat>>)
    returns (r: Option<seq<T>>)
    requires block >= 1 && GoodOrders(masks, block, orders) && forall k :: 0 <= k < |masks| ==> |masks[k]| == |x|
    ensures r.None? <==> exists m :: 0 <= m < |masks| && TooFewBlocks(masks[m], block)
    ensures r.Some? ==> Gathered(r.value, x, Shuffle(|x|, Moves(masks, block, orders, |x|), |masks|))
  {
    var out := CopyOf(x);
    ghost var states := ShufflePath(|x|, masks, block, orders);
    var ok := PermuteSets(x, out, masks, block, orders, states);
    LargeEnoughMeans(masks, block, |masks|);
    r := if ok then Some(out[..]) else None;
  }

  lemma FromSameSet(from: seq<nat>, idx: seq<nat>, n: nat)
    requires multiset(from) == multiset(idx) && forall k :: 0 <= k < |idx| ==> idx[k] < n
    ensures forall k :: 0 <= k < |from| ==> from[k] < n
  {
    forall k | 0 <= k < |from| ensures from[k] < n {
      assert from[k] in multiset(from);
      assert from[k] in idx;
    }
  }
}
