/** Trust path search: is the target a trusted acquaintance of the source?
    The exhaustive search returns the first enumerated path whose TSP reaches
    the threshold `msp`; the optimized search judges a single best path. */
module Acquaintance {
  import opened Digraphs
  import opened Trust

  /** What both searches return: the decision, an exemplar path and a TSP. */
  datatype Outcome = Outcome(found: bool, path: seq<int>, tsp: real)

  const NotFound := Outcome(false, [], 0.0)

  predicate AllScorable(g: Digraph, paths: seq<seq<int>>)
  {
    forall k :: 0 <= k < |paths| ==> Scorable(g, paths[k])
  }

  /** The first of `paths` whose TSP reaches `msp`, with that TSP; NotFound if none does. */
  function FirstMatch(g: Digraph, msp: real, paths: seq<seq<int>>): (r: Outcome)
    requires AllScorable(g, paths)
    ensures r.found <==> exists k :: 0 <= k < |paths| && Tsp(g, paths[k]) >= msp
    ensures r.found ==> exists k :: 0 <= k < |paths| && r.path == paths[k] && r.tsp == Tsp(g, paths[k]) &&
                                    msp <= r.tsp && forall j :: 0 <= j < k ==> Tsp(g, paths[j]) < msp
    ensures !r.found ==> r == NotFound
  {
    if paths == [] then NotFound
    else if Tsp(g, paths[0]) >= msp then Outcome(true, paths[0], Tsp(g, paths[0]))
    else
      var r := FirstMatch(g, msp, paths[1..]);
      assert forall k :: 1 <= k < |paths| ==> paths[k] == paths[1..][k - 1];
      r
  }

  /** The decision of the exhaustive search, for an enumeration `paths` of the
      simple source-to-target paths. */
  function Exhaustive(g: Digraph, target: int, msp: real, paths: seq<seq<int>>): (r: Outcome)
    requires AllScorable(g, paths)
    ensures target !in g.nodes ==> r == NotFound
    ensures target in g.nodes ==> r == FirstMatch(g, msp, paths)
  {
    if target !in g.nodes then NotFound else FirstMatch(g, msp, paths)
  }

  /** `is_acquaintance`: walks the enumeration and stops at the first path
      whose TSP reaches `msp`. */
  method IsAcquaintance(g: Digraph, source: int, target: int, msp: real, paths: seq<seq<int>>)
    returns (r: Outcome)
    requires WellFormed(g)
    requires forall k :: 0 <= k < |paths| ==> PathFromTo(g.arcs, paths[k], source, target)
    ensures AllScorable(g, paths)
    ensures r == Exhaustive(g, target, msp, paths)
  {
    forall k | 0 <= k < |paths| ensures Scorable(g, paths[k]) {
      PathIsScorable(g, paths[k]);
    }
    if target !in g.nodes {
      return NotFound;
    }
    for i := 0 to |paths|
      invariant FirstMatch(g, msp, paths) == FirstMatch(g, msp, paths[i..])
    {
      assert paths[i..][1..] == paths[i + 1..];
      var tsp := ComputeTsp(g, paths[i]);
      if tsp >= msp {
        return Outcome(true, paths[i], tsp);
      }
    }
    return NotFound;
  }

  /** The decision tail of `is_acquaintance_optimization`, given the path the
      shortest-path search over log weights returned. */
  function Optimized(g: Digraph, target: int, msp: real, best: seq<int>): (r: Outcome)
    requires target in g.nodes ==> Scorable(g, best)
    ensures target !in g.nodes ==> r == NotFound
    ensures target in g.nodes ==> r.tsp == Tsp(g, best) && (r.found <==> msp <= r.tsp)
    ensures r.path == if r.found then best else []
  {
    if target !in g.nodes then NotFound
    else
      var tsp := Tsp(g, best);
      if tsp >= msp then Outcome(true, best, tsp) else Outcome(false, [], tsp)
  }

  /** No enumerated path has a higher TSP than `best`. */
  predicate Maximal(g: Digraph, paths: seq<seq<int>>, best: seq<int>)
    requires AllScorable(g, paths) && Scorable(g, best)
  {
    forall k :: 0 <= k < |paths| ==> Tsp(g, paths[k]) <= Tsp(g, best)
  }

  /** When the best path is among the enumerated ones and no enumerated path
      beats it, both searches make the same decision; the exhaustive one never
      reports a higher TSP; and on failure they report different TSPs: 0 for
      the exhaustive search, the best path's TSP for the optimized one. */
  lemma SearchesAgree(g: Digraph, target: int, msp: real, paths: seq<seq<int>>, best: seq<int>)
    requires WellFormed(g) && ScoresInUnit(g)
    requires forall k :: 0 <= k < |paths| ==> IsPath(g.arcs, paths[k])
    requires best in paths
    ensures AllScorable(g, paths) && Scorable(g, best)
    ensures Maximal(g, paths, best) ==>
      Exhaustive(g, target, msp, paths).found == Optimized(g, target, msp, best).found
    ensures Maximal(g, paths, best) ==>
      Exhaustive(g, target, msp, paths).tsp <= Optimized(g, target, msp, best).tsp
    ensures Maximal(g, paths, best) && target in g.nodes && !Optimized(g, target, msp, best).found ==>
      Exhaustive(g, target, msp, paths).tsp == 0.0 && Optimized(g, target, msp, best).tsp == Tsp(g, best)
  {
    forall k | 0 <= k < |paths| ensures Scorable(g, paths[k]) && 0.0 <= Tsp(g, paths[k]) {
      TspInUnitInterval(g, paths[k]);
    }
    var e := Exhaustive(g, target, msp, paths);
    if target in g.nodes && Maximal(g, paths, best) {
      var kb :| 0 <= kb < |paths| && paths[kb] == best;
      if Tsp(g, best) >= msp {
        assert Tsp(g, paths[kb]) >= msp;
      }
      if e.found {
        var k :| 0 <= k < |paths| && e.path == paths[k] && e.tsp == Tsp(g, paths[k]);
        assert Tsp(g, paths[k]) <= Tsp(g, best);
      }
    }
  }

  /** Three users in a line, 0 -> 1 -> 2, with c(1) = 0.9, p(0,1) = 0.8,
      c(2) = 1 and p(1,2) = 0.5: the TSP of [0, 1, 2] is 0.36, which passes
      a threshold of 0.3 and fails one of 0.5, where only the optimized
      search still reports 0.36. */
  lemma LineScenario()
    ensures var g := Digraph({0, 1, 2}, {(0, 1), (1, 2)}, map[0 := 0.7, 1 := 0.9, 2 := 1.0],
                             map[(0, 1) := 0.8, (1, 2) := 0.5]);
            && Scorable(g, [0, 1, 2])
            && Tsp(g, [0, 1, 2]) == 0.36
            && Exhaustive(g, 2, 0.3, [[0, 1, 2]]) == Outcome(true, [0, 1, 2], 0.36)
            && Optimized(g, 2, 0.3, [0, 1, 2]) == Outcome(true, [0, 1, 2], 0.36)
            && Exhaustive(g, 2, 0.5, [[0, 1, 2]]) == NotFound
            && Optimized(g, 2, 0.5, [0, 1, 2]) == Outcome(false, [], 0.36)
  {
    var g := Digraph({0, 1, 2}, {(0, 1), (1, 2)}, map[0 := 0.7, 1 := 0.9, 2 := 1.0],
                     map[(0, 1) := 0.8, (1, 2) := 0.5]);
    var path := [0, 1, 2];
    assert path[..2] == [0, 1] && [0, 1][..1] == [0];
    assert Tsp(g, [0, 1]) == 0.72;
    assert Tsp(g, path) == 0.36;
    assert [[0, 1, 2]][1..] == [];
  }

  /** Two routes from 0 to 3, through 1 (TSP 0.4) and through 2 (TSP 0.6):
      with the route through 1 enumerated first and a threshold of 0.3, the
      exhaustive search settles for 0.4 while the optimized search, handed
      the best route, reports 0.6. */
  lemma FirstIsNotBest()
    ensures var g := Digraph({0, 1, 2, 3}, {(0, 1), (1, 3), (0, 2), (2, 3)},
                             map[0 := 1.0, 1 := 1.0, 2 := 1.0, 3 := 1.0],
                             map[(0, 1) := 0.4, (1, 3) := 1.0, (0, 2) := 0.6, (2, 3) := 1.0]);
            && AllScorable(g, [[0, 1, 3], [0, 2, 3]])
            && Exhaustive(g, 3, 0.3, [[0, 1, 3], [0, 2, 3]]) == Outcome(true, [0, 1, 3], 0.4)
            && Optimized(g, 3, 0.3, [0, 2, 3]) == Outcome(true, [0, 2, 3], 0.6)
  {
    var g := Digraph({0, 1, 2, 3}, {(0, 1), (1, 3), (0, 2), (2, 3)},
                     map[0 := 1.0, 1 := 1.0, 2 := 1.0, 3 := 1.0],
                     map[(0, 1) := 0.4, (1, 3) := 1.0, (0, 2) := 0.6, (2, 3) := 1.0]);
    assert [0, 1, 3][..2] == [0, 1] && [0, 1][..1] == [0];
    assert [0, 2, 3][..2] == [0, 2] && [0, 2][..1] == [0];
    assert Tsp(g, [0, 1, 3]) == 0.4;
    assert Tsp(g, [0, 2, 3]) == 0.6;
  }
}
