/**
 The vetoes of one tick in core/engine.py: handlers raise them against a domain with an authority, and a caller
 asks whether an action of its own authority is suppressed.
 */
module Vetoes {
  import opened Basics

  datatype Veto = Veto(source: string, domain: string, authority: int, reason: string)

  const DEFAULT_AUTHORITY := 100
  const DEFAULT_BELOW := 10000

  /** Veto k stands against the domain. */
  predicate Targets(vetoes: seq<Veto>, domain: string, k: nat)
    requires k < |vetoes|
  {
    vetoes[k].domain == domain
  }

  predicate Standing(vetoes: seq<Veto>, domain: string) {
    exists k :: 0 <= k < |vetoes| && Targets(vetoes, domain, k)
  }

  /** The code's answer: some veto on the domain has at least the caller's authority. */
  predicate Vetoed(vetoes: seq<Veto>, domain: string, authority: int) {
    exists k :: 0 <= k < |vetoes| && Targets(vetoes, domain, k) && vetoes[k].authority >= authority
  }

  /** The design: a veto with a higher authority suppresses the action. */
  predicate Outranked(vetoes: seq<Veto>, domain: string, authority: int) {
    exists k :: 0 <= k < |vetoes| && Targets(vetoes, domain, k) && vetoes[k].authority > authority
  }

  /** The first line of the query's description: a veto with a lower authority. */
  predicate Undercut(vetoes: seq<Veto>, domain: string, authority: int) {
    exists k :: 0 <= k < |vetoes| && Targets(vetoes, domain, k) && vetoes[k].authority < authority
  }

  /** The authorities standing against a domain. */
  function Relevant(vetoes: seq<Veto>, domain: string): seq<int> {
    if vetoes == [] then []
    else
      var v := vetoes[|vetoes| - 1];
      Relevant(vetoes[..|vetoes| - 1], domain) + if v.domain == domain then [v.authority] else []
  }

  function Highest(xs: seq<int>): (m: int)
    requires xs != []
    ensures m in xs && forall i :: 0 <= i < |xs| ==> xs[i] <= m
  {
    if |xs| == 1 then xs[0] else MaxInt(Highest(xs[..|xs| - 1]), xs[|xs| - 1])
  }

  function Lowest(xs: seq<int>): (m: int)
    requires xs != []
    ensures m in xs && forall i :: 0 <= i < |xs| ==> m <= xs[i]
  {
    if |xs| == 1 then xs[0] else MinInt(Lowest(xs[..|xs| - 1]), xs[|xs| - 1])
  }

  function AuthorityOn(vetoes: seq<Veto>, domain: string): int {
    if Relevant(vetoes, domain) == [] then 0 else Highest(Relevant(vetoes, domain))
  }

  class TickContext {
    var vetoes: seq<Veto>

    constructor ()
      ensures vetoes == []
    {
      vetoes := [];
    }

    method RaiseVeto(source: string, domain: string, authority: int, reason: string)
      modifies this`vetoes
      ensures vetoes == old(vetoes) + [Veto(source, domain, authority, reason)]
    {
      vetoes := vetoes + [Veto(source, domain, authority, reason)];
    }

    method IsVetoed(domain: string, below: int) returns (r: bool)
      ensures r <==> Vetoed(vetoes, domain, below)
    {
      r := exists k :: 0 <= k < |vetoes| && vetoes[k].domain == domain && vetoes[k].authority >= below;
      assert r ==> Vetoed(vetoes, domain, below) by {
        if r {
          var k :| 0 <= k < |vetoes| && vetoes[k].domain == domain && vetoes[k].authority >= below;
          assert Targets(vetoes, domain, k);
        }
      }
    }

    method VetoAuthority(domain: string) returns (n: int)
      ensures n == AuthorityOn(vetoes, domain)
    {
      var relevant := Relevant(vetoes, domain);
      n := if relevant == [] then 0 else Highest(relevant);
    }
  }

  // ---------------------------------------------------------------- what the queries mean

  lemma {:induction false} RelevantLists(vetoes: seq<Veto>, domain: string)
    ensures forall a :: a in Relevant(vetoes, domain) <==>
      exists k :: 0 <= k < |vetoes| && Targets(vetoes, domain, k) && vetoes[k].authority == a
  {
    if vetoes != [] {
      var n := |vetoes| - 1;
      var front := vetoes[..n];
      RelevantLists(front, domain);
      forall a ensures a in Relevant(vetoes, domain) <==>
          exists k :: 0 <= k < |vetoes| && Targets(vetoes, domain, k) && vetoes[k].authority == a
      {
        if k :| 0 <= k < |front| && Targets(front, domain, k) && front[k].authority == a {
          assert Targets(vetoes, domain, k) && vetoes[k] == front[k];
        }
        if k :| 0 <= k < |vetoes| && Targets(vetoes, domain, k) && vetoes[k].authority == a {
          assert k < n ==> Targets(front, domain, k) && front[k] == vetoes[k];
        }
        assert vetoes[n].domain == domain ==> Targets(vetoes, domain, n);
      }
    }
  }

  lemma SomeRelevant(vetoes: seq<Veto>, domain: string, a: int)
    requires a in Relevant(vetoes, domain)
    ensures exists k :: 0 <= k < |vetoes| && Targets(vetoes, domain, k) && vetoes[k].authority == a
  {
    RelevantLists(vetoes, domain);
  }

  lemma TargetIsRelevant(vetoes: seq<Veto>, domain: string, k: nat)
    requires k < |vetoes| && Targets(vetoes, domain, k)
    ensures vetoes[k].authority in Relevant(vetoes, domain)
  {
    RelevantLists(vetoes, domain);
  }

  /** The three questions, put to the highest and the lowest authority standing against the domain. */
  lemma HighestDecides(vetoes: seq<Veto>, domain: string, a: int)
    ensures var xs := Relevant(vetoes, domain);
      && (Standing(vetoes, domain) <==> xs != [])
      && (Vetoed(vetoes, domain, a) <==> xs != [] && Highest(xs) >= a)
      && (Outranked(vetoes, domain, a) <==> xs != [] && Highest(xs) > a)
      && (Undercut(vetoes, domain, a) <==> xs != [] && Lowest(xs) < a)
  {
    var xs := Relevant(vetoes, domain);
    forall k: nat | k < |vetoes| && Targets(vetoes, domain, k)
      ensures xs != [] && Lowest(xs) <= vetoes[k].authority <= Highest(xs)
    {
      TargetIsRelevant(vetoes, domain, k);
    }
    if xs != [] {
      SomeRelevant(vetoes, domain, Highest(xs));
      SomeRelevant(vetoes, domain, Lowest(xs));
    }
  }

  /** The queries agree: an action is vetoed exactly when a veto stands and its authority reaches the caller's. */
  lemma QueriesAgree(vetoes: seq<Veto>, domain: string, a: int)
    ensures Vetoed(vetoes, domain, a) <==> Standing(vetoes, domain) && AuthorityOn(vetoes, domain) >= a
  {
    HighestDecides(vetoes, domain, a);
  }

  /**
   The code suppresses an action exactly when a higher authority stands against it, as designed, unless the
   highest authority that stands equals the caller's own.
   */
  lemma SuppressesAsDesignedExactlyWhen(vetoes: seq<Veto>, domain: string, a: int)
    ensures (Vetoed(vetoes, domain, a) <==> Outranked(vetoes, domain, a)) <==>
      !(Standing(vetoes, domain) && AuthorityOn(vetoes, domain) == a)
  {
    HighestDecides(vetoes, domain, a);
  }

  /** It does what the first line of its description says exactly when nothing stands or both kinds do. */
  lemma MatchesFirstLineExactlyWhen(vetoes: seq<Veto>, domain: string, a: int)
    ensures var xs := Relevant(vetoes, domain);
      (Vetoed(vetoes, domain, a) <==> Undercut(vetoes, domain, a)) <==> xs == [] || Lowest(xs) < a <= Highest(xs)
  {
    HighestDecides(vetoes, domain, a);
  }

  /** A veto of the caller's own authority suppresses it: the failing input. */
  lemma EqualAuthoritySuppresses(domain: string, a: int)
    ensures var vetoes := [Veto("peer", domain, a, "")];
      Vetoed(vetoes, domain, a) && !Outranked(vetoes, domain, a)
  {
    assert Targets([Veto("peer", domain, a, "")], domain, 0);
  }

  /** With both defaults a veto is never seen by the query. */
  lemma DefaultsNeverMeet(vetoes: seq<Veto>, domain: string)
    requires forall k :: 0 <= k < |vetoes| ==> vetoes[k].authority == DEFAULT_AUTHORITY
    ensures !Vetoed(vetoes, domain, DEFAULT_BELOW)
  {
  }

  /** Raising a veto lifts none: the answer changes only from no to yes, and then by the new veto alone. */
  lemma RaisingOnlyAdds(vetoes: seq<Veto>, v: Veto, domain: string, a: int)
    ensures Vetoed(vetoes + [v], domain, a) <==> Vetoed(vetoes, domain, a) || (v.domain == domain && v.authority >= a)
  {
    var more := vetoes + [v];
    if k :| 0 <= k < |vetoes| && Targets(vetoes, domain, k) && vetoes[k].authority >= a {
      assert Targets(more, domain, k) && more[k] == vetoes[k];
    }
    if k :| 0 <= k < |more| && Targets(more, domain, k) && more[k].authority >= a {
      assert k < |vetoes| ==> Targets(vetoes, domain, k) && vetoes[k] == more[k];
    }
    if v.domain == domain && v.authority >= a {
      assert Targets(more, domain, |vetoes|);
    }
  }
}
