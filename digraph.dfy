/** Directed graphs with node credibilities and arc trust probabilities,
    the shape the DAG builder and the path search work on. */
module Digraphs {

  type Arc = (int, int)

  /** A directed graph whose nodes carry a credibility `c` and whose arcs
      carry a trust probability `p`. */
  datatype Digraph = Digraph(nodes: set<int>, arcs: set<Arc>, c: map<int, real>, p: map<Arc, real>)

  /** Arcs join nodes of the graph, and every node and arc has its score. */
  predicate WellFormed(g: Digraph)
  {
    && (forall a :: a in g.arcs ==> a.0 in g.nodes && a.1 in g.nodes && a in g.p)
    && (forall v :: v in g.nodes ==> v in g.c)
  }

  /** Every score of the graph lies in [0, 1]. */
  predicate ScoresInUnit(g: Digraph)
    requires WellFormed(g)
  {
    && (forall v :: v in g.nodes ==> 0.0 <= g.c[v] <= 1.0)
    && (forall a :: a in g.arcs ==> 0.0 <= g.p[a] <= 1.0)
  }

  /** A non-empty node sequence whose consecutive nodes are joined by arcs. */
  predicate IsPath(arcs: set<Arc>, path: seq<int>)
  {
    |path| >= 1 && forall i :: 0 <= i < |path| - 1 ==> (path[i], path[i + 1]) in arcs
  }

  predicate PathFromTo(arcs: set<Arc>, path: seq<int>, s: int, t: int)
  {
    IsPath(arcs, path) && path[0] == s && path[|path| - 1] == t
  }

  /** No node occurs twice. */
  predicate Simple(path: seq<int>)
  {
    forall i, j :: 0 <= i < j < |path| ==> path[i] != path[j]
  }

  ghost predicate Reachable(arcs: set<Arc>, s: int, t: int)
  {
    exists path :: PathFromTo(arcs, path, s, t)
  }

  function Successors(arcs: set<Arc>, u: int): (r: set<int>)
    ensures forall w :: w in r <==> (u, w) in arcs
  {
    set a | a in arcs && a.0 == u :: a.1
  }

  function Targets(arcs: set<Arc>): (r: set<int>)
    ensures forall a :: a in arcs ==> a.1 in r
    ensures forall w :: w in r ==> exists a :: a in arcs && a.1 == w
  {
    set a | a in arcs :: a.1
  }

  /** A path followed by one more arc is a path. */
  lemma Extend(arcs: set<Arc>, path: seq<int>, s: int, u: int, w: int)
    requires PathFromTo(arcs, path, s, u) && (u, w) in arcs
    ensures PathFromTo(arcs, path + [w], s, w)
  {
    var q := path + [w];
    forall i | 0 <= i < |q| - 1 ensures (q[i], q[i + 1]) in arcs {
      if i < |path| - 1 {
        assert q[i] == path[i] && q[i + 1] == path[i + 1];
      }
    }
  }

  /** Every prefix of a path is a path. */
  lemma Prefix(arcs: set<Arc>, path: seq<int>, k: nat)
    requires IsPath(arcs, path) && 1 <= k <= |path|
    ensures PathFromTo(arcs, path[..k], path[0], path[k - 1])
  {
    var q := path[..k];
    forall i | 0 <= i < |q| - 1 ensures (q[i], q[i + 1]) in arcs {
      assert q[i] == path[i] && q[i + 1] == path[i + 1];
    }
  }

  /** A node set that contains `path[0]` and is closed under arcs contains the whole path. */
  lemma {:induction false} PathStaysInClosedSet(arcs: set<Arc>, closed: set<int>, path: seq<int>)
    requires IsPath(arcs, path) && path[0] in closed
    requires forall a :: a in arcs && a.0 in closed ==> a.1 in closed
    ensures forall i :: 0 <= i < |path| ==> path[i] in closed
  {
    if |path| > 1 {
      var init := path[..|path| - 1];
      Prefix(arcs, path, |path| - 1);
      PathStaysInClosedSet(arcs, closed, init);
      assert path[|path| - 2] == init[|init| - 1];
      assert (path[|path| - 2], path[|path| - 1]) in arcs;
      forall i | 0 <= i < |path| ensures path[i] in closed {
        if i < |path| - 1 {
          assert path[i] == init[i];
        }
      }
    }
  }
}
