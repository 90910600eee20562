/** `build_directed_graph`: the scored friendship graph, made bi-directional
    and then acyclic from the source, is what both acquaintance searches run on. */
module Pipeline {
  import opened Digraphs
  import opened Network
  import opened Dag
  import opened Trust

  /** `g.to_directed()` followed by `turn_to_directed_acyclic_graph()`. */
  method BuildDirectedGraph(net: SocialGraph, source: int) returns (dag: Digraph)
    requires SimpleEdges(net.n, net.edges) && net.Scored() && 0 <= source < net.n
    ensures dag == DagOf(net.Directed(), source, net.n)
    ensures WellFormed(dag) && ScoresInUnit(dag)
    ensures source in dag.nodes
  {
    net.DirectedIsScored();
    dag := ToDag(net.Directed(), source, net.n);
    KeepsScores(net.Directed(), source, net.n);
    AllReachable(net.Directed(), source, net.n);
  }

  /** Every path of the DAG built from a scored graph is simple, and its TSP
      lies in [0, 1]. */
  lemma DagPathScore(g: Digraph, source: int, n: int, path: seq<int>)
    requires n > 0 && WellFormed(g) && ScoresInUnit(g)
    requires IsPath(DagOf(g, source, n).arcs, path)
    ensures Simple(path)
    ensures Scorable(DagOf(g, source, n), path)
    ensures 0.0 <= Tsp(DagOf(g, source, n), path) <= 1.0
  {
    Acyclic(g, source, n, path);
    KeepsScores(g, source, n);
    TspInUnitInterval(DagOf(g, source, n), path);
  }
}
