/** generate_edges (Code/utils/graph_util.py): the unordered edge list read off
    the upper triangle of the positive and negative adjacency matrices. */
module GraphUtil {
  import opened Matrices
  import opened Triangle

  /** (u, v) carries an edge when either adjacency matrix is positive there. */
  predicate HasEdge(aPlus: Matrix, aMinus: Matrix, u: int, v: int)
  {
    Entry(aPlus, u, v) > 0.0 || Entry(aMinus, u, v) > 0.0
  }

  /** generate_edges: the pairs u < v with an edge, row by row. The vertex
      count is the number of rows of the positive matrix; both matrices are
      read at every [u][v] with u, v below it, and nothing else is asked of
      their shape. */
  function GenerateEdges(aPlus: Matrix, aMinus: Matrix): (edges: seq<(int, int)>)
    requires Covers(aPlus, |aPlus|) && Covers(aMinus, |aPlus|)
    ensures forall p :: p in edges <==>
      0 <= p.0 < p.1 < |aPlus| && (aPlus[p.0][p.1] > 0.0 || aMinus[p.0][p.1] > 0.0)
    ensures Increasing(edges)
    ensures 2 * |edges| <= |aPlus| * (|aPlus| - 1)
  {
    var keep := (u, v) => HasEdge(aPlus, aMinus, u, v);
    PairsMember(keep, |aPlus|);
    PairsIncreasing(keep, |aPlus|);
    PairsBound(keep, |aPlus|);
    Pairs(keep, |aPlus|)
  }

  /** No diagonal or lower-triangle pair is emitted, and no pair twice. */
  lemma EdgesUpperAndDistinct(aPlus: Matrix, aMinus: Matrix)
    requires Covers(aPlus, |aPlus|) && Covers(aMinus, |aPlus|)
    ensures forall a :: 0 <= a < |GenerateEdges(aPlus, aMinus)| ==>
      GenerateEdges(aPlus, aMinus)[a].0 < GenerateEdges(aPlus, aMinus)[a].1
    ensures forall a, b :: 0 <= a < b < |GenerateEdges(aPlus, aMinus)| ==>
      GenerateEdges(aPlus, aMinus)[a] != GenerateEdges(aPlus, aMinus)[b]
  {
    var edges := GenerateEdges(aPlus, aMinus);
    forall a | 0 <= a < |edges| ensures edges[a].0 < edges[a].1 {
      assert edges[a] in edges;
    }
    forall a, b | 0 <= a < b < |edges| ensures edges[a] != edges[b] {
      assert LexLess(edges[a], edges[b]);
    }
  }
}
