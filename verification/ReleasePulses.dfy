/**
 The pulses of KHKT_Evaluation/rq1_v2/innovations.py: at each release, the simulated impact of the released
 values against the values before, found with two dictionaries carried along the panel.

 The simulated impact is any function of the current and the counterfactual values.
 */
module ReleasePulses {
  import opened Basics

  const WIDTH := 5

  /** One panel row: a value and the publication stamp of each macro feature. */
  datatype Row = Row(values: seq<real>, stamps: seq<Option<int>>)

  ghost predicate Shaped(rows: seq<Row>, names: nat) {
    forall t :: 0 <= t < |rows| ==> |rows[t].values| == names && |rows[t].stamps| == names
  }

  type Impact = (seq<real>, seq<real>) -> seq<real>

  const ZEROS: seq<real> := seq(WIDTH, _ => 0.0)

  /** The latest stamp a feature has shown. */
  function LastStamp(rows: seq<Row>, i: nat): Option<int>
    requires forall t :: 0 <= t < |rows| ==> i < |rows[t].stamps|
  {
    if rows == [] then None
    else if rows[|rows| - 1].stamps[i].Some? then rows[|rows| - 1].stamps[i]
    else LastStamp(rows[..|rows| - 1], i)
  }

  /** The last row shows a stamp of feature i that differs from the latest one before it. */
  predicate Releases(rows: seq<Row>, i: nat)
    requires rows != [] && forall t :: 0 <= t < |rows| ==> i < |rows[t].stamps|
  {
    rows[|rows| - 1].stamps[i].Some? && LastStamp(rows[..|rows| - 1], i) != rows[|rows| - 1].stamps[i]
  }

  /** The value feature i had when it was last released. */
  function LastReleased(rows: seq<Row>, i: nat): Option<real>
    requires forall t :: 0 <= t < |rows| ==> i < |rows[t].stamps| && i < |rows[t].values|
  {
    if rows == [] then None
    else if Releases(rows, i) then Some(rows[|rows| - 1].values[i])
    else LastReleased(rows[..|rows| - 1], i)
  }

  /** What the row would have shown without its releases: each released feature at its previous value. */
  function Counterfactual(rows: seq<Row>, names: nat): (vs: seq<real>)
    requires rows != [] && forall t :: 0 <= t < |rows| ==> |rows[t].values| == names && |rows[t].stamps| == names
    ensures |vs| == names
  {
    seq(names, i requires 0 <= i < names =>
      if Releases(rows, i) && LastReleased(rows[..|rows| - 1], i).Some?
      then LastReleased(rows[..|rows| - 1], i).value else rows[|rows| - 1].values[i])
  }

  predicate AnyChange(rows: seq<Row>, names: nat)
    requires rows != [] && forall t :: 0 <= t < |rows| ==> |rows[t].values| == names && |rows[t].stamps| == names
  {
    exists i :: 0 <= i < names && Releases(rows, i) && LastReleased(rows[..|rows| - 1], i).Some?
  }

  /** The pulse of the last row, from the rows up to it. */
  function PulseOf(rows: seq<Row>, names: nat, impact: Impact): seq<real>
    requires rows != [] && forall t :: 0 <= t < |rows| ==> |rows[t].values| == names && |rows[t].stamps| == names
  {
    if AnyChange(rows, names) then impact(rows[|rows| - 1].values, Counterfactual(rows, names)) else ZEROS
  }

  /** The dictionaries of the loop hold feature i's latest stamp and its value at its latest release. */
  ghost predicate Knows(rows: seq<Row>, i: nat, stamps: map<nat, int>, values: map<nat, real>)
    requires forall t :: 0 <= t < |rows| ==> i < |rows[t].stamps| && i < |rows[t].values|
  {
    && LastStamp(rows, i) == (if i in stamps then Some(stamps[i]) else None)
    && LastReleased(rows, i) == (if i in values then Some(values[i]) else None)
  }

  ghost predicate Remembers(
    rows: seq<Row>, names: nat, stamps: map<nat, int>, values: map<nat, real>)
    requires Shaped(rows, names)
  {
    && (forall i: nat :: i in stamps || i in values ==> i < names)
    && (forall i: nat :: i < names ==> Knows(rows, i, stamps, values))
  }

  /** One pass of the loop over the panel: the pulse of a row from the dictionaries before it. */
  method PulseOfRow(
    ghost rows: seq<Row>, row: Row, names: nat, impact: Impact, stamps: map<nat, int>, values: map<nat, real>)
    returns (pulse: seq<real>)
    requires Shaped(rows + [row], names) && Shaped(rows, names) && Remembers(rows, names, stamps, values)
    ensures pulse == PulseOf(rows + [row], names, impact)
  {
    ghost var all := rows + [row];
    assert all[..|rows|] == rows && all[|all| - 1] == row;
    var counterfactual := row.values;
    var changed := false;
    for i := 0 to names
      invariant |counterfactual| == names
      invariant forall k :: 0 <= k < names ==>
        counterfactual[k] == if k < i then Counterfactual(all, names)[k] else row.values[k]
      invariant changed <==> exists k :: 0 <= k < i && Releases(all, k) && LastReleased(rows, k).Some?
    {
      assert Knows(rows, i, stamps, values);
      var stamp := row.stamps[i];
      if stamp.Some? && (i !in stamps || stamps[i] != stamp.value) && i in values {
        assert Releases(all, i) && LastReleased(rows, i).Some?;
        changed := true;
        counterfactual := counterfactual[i := values[i]];
      }
    }
    assert changed ==> counterfactual == Counterfactual(all, names);
    pulse := if changed then impact(row.values, counterfactual) else ZEROS;
  }

  /** What the loop does with one feature of a row is what it has to remember. */
  lemma KnowsNext(
    rows: seq<Row>, row: Row, i: nat, stamps: map<nat, int>, values: map<nat, real>,
    stamps': map<nat, int>, values': map<nat, real>)
    requires forall t :: 0 <= t < |rows| ==> i < |rows[t].stamps| && i < |rows[t].values|
    requires i < |row.stamps| && i < |row.values|
    requires Knows(rows, i, stamps, values)
    requires var stamp := row.stamps[i];
      if stamp.Some? && (i !in stamps || stamps[i] != stamp.value)
      then stamps' == stamps[i := stamp.value] && values' == values[i := row.values[i]]
      else stamps' == stamps && values' == values
    ensures Knows(rows + [row], i, stamps', values')
  {
    assert (rows + [row])[..|rows|] == rows;
  }

  method Remember(
    ghost rows: seq<Row>, row: Row, names: nat, stamps0: map<nat, int>, values0: map<nat, real>)
    returns (stamps: map<nat, int>, values: map<nat, real>)
    requires Shaped(rows + [row], names) && Shaped(rows, names) && Remembers(rows, names, stamps0, values0)
    ensures Remembers(rows + [row], names, stamps, values)
  {
    ghost var all := rows + [row];
    assert all[|rows|] == row;
    stamps, values := stamps0, values0;
    for i := 0 to names
      invariant forall k: nat :: k in stamps || k in values ==> k < names
      invariant forall k: nat :: i <= k < names ==> Knows(rows, k, stamps, values)
      invariant forall k: nat :: k < i ==> Knows(all, k, stamps, values)
    {
      assert Knows(rows, i, stamps, values);
      ghost var was, held := stamps, values;
      var stamp := row.stamps[i];
      if stamp.Some? && (i !in stamps || stamps[i] != stamp.value) {
        values := values[i := row.values[i]];
        stamps := stamps[i := stamp.value];
      }
      KnowsNext(rows, row, i, was, held, stamps, values);
      forall k: nat | k < names && k != i
        ensures Knows(rows, k, stamps, values) == Knows(rows, k, was, held)
        ensures Knows(all, k, stamps, values) == Knows(all, k, was, held)
      {
      }
    }
  }

  /** The pulse column: each row's pulse is a function of the rows up to it and of nothing later. */
  method Pulses(rows: seq<Row>, names: nat, impact: Impact) returns (pulses: seq<seq<real>>)
    requires Shaped(rows, names)
    ensures |pulses| == |rows|
    ensures forall t :: 0 <= t < |rows| ==> pulses[t] == PulseOf(rows[..t + 1], names, impact)
  {
    pulses := [];
    var stamps: map<nat, int> := map[];
    var values: map<nat, real> := map[];
    for t := 0 to |rows|
      invariant |pulses| == t && Remembers(rows[..t], names, stamps, values)
      invariant forall k :: 0 <= k < t ==> pulses[k] == PulseOf(rows[..k + 1], names, impact)
    {
      assert rows[..t + 1] == rows[..t] + [rows[t]];
      var pulse := PulseOfRow(rows[..t], rows[t], names, impact, stamps, values);
      stamps, values := Remember(rows[..t], rows[t], names, stamps, values);
      pulses := pulses + [pulse];
    }
  }
}
