/** DAG builder: orients the (bi-directional) friendship graph outward from a
    source user and keeps only what the source can reach. */
module Dag {
  import opened Digraphs

  /** Position of `x` in the circular order that starts at `source`:
      `(x - source) % n`. For `n > 0` the floor modulo of the source language
      and Dafny's Euclidean `%` coincide: both lie in [0, n). */
  function Rank(x: int, source: int, n: int): (r: int)
    requires n > 0
    ensures 0 <= r < n
    ensures x == source ==> r == 0
  {
    (x - source) % n
  }

  /** The copy of `g` without every arc (x, y) whose rank does not increase. */
  function Oriented(g: Digraph, source: int, n: int): (o: Digraph)
    requires n > 0
    ensures o.nodes == g.nodes && o.c == g.c && o.p == g.p
    ensures forall a :: a in o.arcs <==> a in g.arcs && Rank(a.0, source, n) < Rank(a.1, source, n)
  {
    g.(arcs := set a | a in g.arcs && Rank(a.0, source, n) < Rank(a.1, source, n))
  }

  /** The subgraph induced by `keep`, carrying the scores of what it keeps. */
  function Induced(g: Digraph, keep: set<int>): (h: Digraph)
    requires WellFormed(g)
    ensures WellFormed(h)
    ensures h.nodes == g.nodes * keep
    ensures forall a :: a in h.arcs <==> a in g.arcs && a.0 in keep && a.1 in keep
    ensures forall v :: v in h.nodes ==> h.c[v] == g.c[v]
    ensures forall a :: a in h.arcs ==> h.p[a] == g.p[a]
  {
    var nodes := g.nodes * keep;
    var arcs := set a | a in g.arcs && a.0 in keep && a.1 in keep;
    Digraph(nodes, arcs, map v | v in nodes :: g.c[v], map a | a in arcs :: g.p[a])
  }

  /** The specification of the builder: the oriented graph restricted to the
      source and everything reachable from it. */
  ghost function DagOf(g: Digraph, source: int, n: int): Digraph
    requires n > 0 && WellFormed(g)
  {
    var o := Oriented(g, source, n);
    Induced(o, {source} + set v | v in g.nodes && Reachable(o.arcs, source, v))
  }

  /** `nx.descendants`: every node reachable from `source` by at least one arc
      step, other than `source` itself, found with a worklist. */
  method Descendants(arcs: set<Arc>, source: int) returns (d: set<int>)
    ensures forall v :: v in d <==> v != source && Reachable(arcs, source, v)
  {
    var universe := {source} + Targets(arcs);
    var visited, frontier := {source}, {source};
    assert PathFromTo(arcs, [source], source, source);
    while frontier != {}
      invariant source in visited && frontier <= visited <= universe
      invariant forall v :: v in visited ==> Reachable(arcs, source, v)
      invariant forall a :: a in arcs && a.0 in visited && a.0 !in frontier ==> a.1 in visited
      decreases |universe - visited|, |frontier|
    {
      var u :| u in frontier;
      var next := Successors(arcs, u) - visited;
      forall w | w in next ensures Reachable(arcs, source, w) {
        var path :| PathFromTo(arcs, path, source, u);
        Extend(arcs, path, source, u, w);
      }
      if next != {} {
        var w :| w in next;
        assert w in universe - visited && w !in universe - (visited + next);
        assert universe - (visited + next) < universe - visited;
      }
      visited := visited + next;
      frontier := frontier - {u} + next;
    }
    forall v | Reachable(arcs, source, v) ensures v in visited {
      var path :| PathFromTo(arcs, path, source, v);
      PathStaysInClosedSet(arcs, visited, path);
    }
    d := visited - {source};
  }

  /** `turn_to_directed_acyclic_graph`: orient, then keep the source and its descendants. */
  method ToDag(g: Digraph, source: int, n: int) returns (dag: Digraph)
    requires n > 0 && WellFormed(g) && source in g.nodes
    ensures dag == DagOf(g, source, n)
    ensures WellFormed(dag)
  {
    var o := Oriented(g, source, n);
    var d := Descendants(o.arcs, source);
    var reached := set v | v in g.nodes && Reachable(o.arcs, source, v);
    forall v | v in d ensures v in reached {
      var path :| PathFromTo(o.arcs, path, source, v);
      assert (path[|path| - 2], path[|path| - 1]) in o.arcs;
    }
    assert {source} + d == {source} + reached;
    dag := Induced(o, {source} + d);
  }

  /** Every arc of the DAG strictly increases the rank. */
  lemma ArcsIncreaseRank(g: Digraph, source: int, n: int)
    requires n > 0 && WellFormed(g)
    ensures forall a :: a in DagOf(g, source, n).arcs ==> Rank(a.0, source, n) < Rank(a.1, source, n)
  {
  }

  /** Along a path of arcs that increase the rank, the rank strictly increases. */
  lemma {:induction false} RankIncreasesAlongPath(arcs: set<Arc>, source: int, n: int, path: seq<int>)
    requires n > 0 && IsPath(arcs, path)
    requires forall a :: a in arcs ==> Rank(a.0, source, n) < Rank(a.1, source, n)
    ensures forall i, j :: 0 <= i < j < |path| ==> Rank(path[i], source, n) < Rank(path[j], source, n)
  {
    if |path| > 1 {
      var init := path[..|path| - 1];
      Prefix(arcs, path, |path| - 1);
      RankIncreasesAlongPath(arcs, source, n, init);
      var last := |path| - 1;
      assert (path[last - 1], path[last]) in arcs;
      forall i, j | 0 <= i < j < |path| ensures Rank(path[i], source, n) < Rank(path[j], source, n) {
        assert path[i] == init[i];
        if j < last {
          assert path[j] == init[j];
        } else if i < last - 1 {
          assert path[last - 1] == init[last - 1];
        }
      }
    }
  }

  /** Every path of the DAG is simple, so the DAG has no directed cycle. */
  lemma Acyclic(g: Digraph, source: int, n: int, path: seq<int>)
    requires n > 0 && WellFormed(g)
    requires IsPath(DagOf(g, source, n).arcs, path)
    ensures Simple(path)
    ensures |path| >= 2 ==> path[0] != path[|path| - 1]
  {
    ArcsIncreaseRank(g, source, n);
    RankIncreasesAlongPath(DagOf(g, source, n).arcs, source, n, path);
  }

  /** No arc of the DAG enters the source. */
  lemma SourceHasNoInArc(g: Digraph, source: int, n: int)
    requires n > 0 && WellFormed(g)
    ensures forall a :: a in DagOf(g, source, n).arcs ==> a.1 != source
  {
    ArcsIncreaseRank(g, source, n);
  }

  /** The source is in the DAG, and every node of the DAG is reachable from
      the source along arcs of the DAG itself. */
  lemma AllReachable(g: Digraph, source: int, n: int)
    requires n > 0 && WellFormed(g) && source in g.nodes
    ensures source in DagOf(g, source, n).nodes
    ensures forall v :: v in DagOf(g, source, n).nodes ==> Reachable(DagOf(g, source, n).arcs, source, v)
  {
    var o := Oriented(g, source, n);
    var keep := {source} + set v | v in g.nodes && Reachable(o.arcs, source, v);
    var dag := DagOf(g, source, n);
    assert PathFromTo(dag.arcs, [source], source, source);
    forall v | v in dag.nodes ensures Reachable(dag.arcs, source, v) {
      if v != source {
        var path :| PathFromTo(o.arcs, path, source, v);
        forall i | 0 <= i < |path| ensures path[i] in keep {
          Prefix(o.arcs, path, i + 1);
          if i > 0 {
            assert (path[i - 1], path[i]) in o.arcs;
          }
        }
        forall i | 0 <= i < |path| - 1 ensures (path[i], path[i + 1]) in dag.arcs {
          assert path[i] in keep && path[i + 1] in keep;
        }
        assert PathFromTo(dag.arcs, path, source, v);
      }
    }
  }

  /** The DAG keeps the scores of the graph it was built from, so they stay in [0, 1]. */
  lemma KeepsScores(g: Digraph, source: int, n: int)
    requires n > 0 && WellFormed(g) && ScoresInUnit(g)
    ensures WellFormed(DagOf(g, source, n)) && ScoresInUnit(DagOf(g, source, n))
  {
  }

  /** Of the two arcs of a friendship between distinct users 0..n-1, exactly one survives orientation. */
  lemma OneDirectionKept(x: int, y: int, source: int, n: int)
    requires 0 <= x < n && 0 <= y < n && x != y
    ensures Rank(x, source, n) < Rank(y, source, n) || Rank(y, source, n) < Rank(x, source, n)
  {
    if Rank(x, source, n) == Rank(y, source, n) {
      var qx, qy := (x - source) / n, (y - source) / n;
      assert x - source == qx * n + Rank(x, source, n);
      assert y - source == qy * n + Rank(y, source, n);
      assert x - y == qx * n - qy * n;
      Distribute(qx, qy, n);
      NoSmallMultiple(qx - qy, n);
    }
  }

  lemma Distribute(a: int, b: int, n: int)
    ensures a * n - b * n == (a - b) * n
  {
  }

  /** The only multiple of a positive `n` strictly between -n and n is 0. */
  lemma NoSmallMultiple(k: int, n: int)
    requires n > 0 && -n < k * n < n
    ensures k == 0
  {
  }
}
