/** generate_signed_graph (Code/utils/graph.py): a signed adjacency matrix A
    split into the 0/1 matrices A+ (A > 0) and A- (A < 0), their row sums
    D+ and D-, and the signed edges of the upper triangle. The networkx graph
    is modelled by its edge dictionary: each edge (i, j), i < j, mapped to its
    `sign` attribute. */
module Graph {
  import opened Sums
  import opened Matrices
  import opened Triangle

  /** 1.0 where A is positive, 0.0 elsewhere: `(A > 0).astype(int)`. */
  function PositivePart(A: Matrix): (p: Matrix)
    requires IsSquare(A, |A|)
    ensures IsSquare(p, |A|) && ZeroOne(p)
    ensures forall i, j :: 0 <= i < |A| && 0 <= j < |A| ==> (p[i][j] == 1.0 <==> A[i][j] > 0.0)
  {
    seq(|A|, i requires 0 <= i < |A| => seq(|A|, j requires 0 <= j < |A| => if A[i][j] > 0.0 then 1.0 else 0.0))
  }

  /** 1.0 where A is negative, 0.0 elsewhere: `(A < 0).astype(int)`. */
  function NegativePart(A: Matrix): (m: Matrix)
    requires IsSquare(A, |A|)
    ensures IsSquare(m, |A|) && ZeroOne(m)
    ensures forall i, j :: 0 <= i < |A| && 0 <= j < |A| ==> (m[i][j] == 1.0 <==> A[i][j] < 0.0)
  {
    seq(|A|, i requires 0 <= i < |A| => seq(|A|, j requires 0 <= j < |A| => if A[i][j] < 0.0 then 1.0 else 0.0))
  }

  /** `np.sum(M, axis=1)`: the sum of each row. */
  function RowTotals(M: Matrix): (d: Vector)
    ensures |d| == |M|
  {
    seq(|M|, i => Sum(0, |M|, j => Entry(M, i, j)))
  }

  /** The edge test of the construction loop: A+ or A- is 1 at (i, j). */
  predicate EdgeKept(aPlus: Matrix, aMinus: Matrix, i: int, j: int)
  {
    Entry(aPlus, i, j) == 1.0 || Entry(aMinus, i, j) == 1.0
  }

  /** The sign the loop stores: 1 when A+ is 1 there, else -1. */
  function SignOf(aPlus: Matrix, i: int, j: int): int
  {
    if Entry(aPlus, i, j) == 1.0 then 1 else -1
  }

  /** The edge dictionary of the graph the loop builds. */
  function SignedEdges(aPlus: Matrix, aMinus: Matrix, n: nat): (g: map<(int, int), int>)
    ensures forall p :: p in g <==> 0 <= p.0 < p.1 < n && EdgeKept(aPlus, aMinus, p.0, p.1)
    ensures forall p :: p in g ==> (g[p] == 1 <==> Entry(aPlus, p.0, p.1) == 1.0) && (g[p] == 1 || g[p] == -1)
  {
    var keep := (i, j) => EdgeKept(aPlus, aMinus, i, j);
    PairsMember(keep, n);
    map p | p in Pairs(keep, n) :: SignOf(aPlus, p.0, p.1)
  }

  /** The edge dictionary is the only map with those keys and signs. */
  lemma SignedEdgesUnique(aPlus: Matrix, aMinus: Matrix, n: nat, want: map<(int, int), int>)
    requires forall p :: p in want <==> 0 <= p.0 < p.1 < n && EdgeKept(aPlus, aMinus, p.0, p.1)
    requires forall p :: p in want ==> want[p] == SignOf(aPlus, p.0, p.1)
    ensures SignedEdges(aPlus, aMinus, n) == want
  {
    var g := SignedEdges(aPlus, aMinus, n);
    assert g.Keys == want.Keys;
  }

  /** The value generate_signed_graph returns, the networkx graph as its edge dictionary. */
  datatype SignedGraph = SignedGraph(
    vertices: seq<int>, aPlus: Matrix, aMinus: Matrix, dPlus: Vector, dMinus: Vector,
    edges: map<(int, int), int>)

  /** generate_signed_graph. The degree vectors and the two 0/1 matrices are
      whole-array numpy expressions; the edges come from the double loop over
      the upper triangle. */
  method GenerateSignedGraph(A: Matrix) returns (g: SignedGraph)
    requires IsSquare(A, |A|)
    ensures |g.vertices| == |A| && forall i :: 0 <= i < |A| ==> g.vertices[i] == i
    ensures g.aPlus == PositivePart(A) && g.aMinus == NegativePart(A)
    ensures g.dPlus == RowTotals(g.aPlus) && g.dMinus == RowTotals(g.aMinus)
    ensures g.edges == SignedEdges(g.aPlus, g.aMinus, |A|)
  {
    var n := |A|;
    var vertices := seq(n, i => i);
    var aPlus := PositivePart(A);
    var aMinus := NegativePart(A);
    var dPlus := RowTotals(aPlus);
    var dMinus := RowTotals(aMinus);
    var edges: map<(int, int), int> := map[];
    var i := 0;
    while i < n
      invariant 0 <= i <= n
      invariant forall p :: p in edges <==> 0 <= p.0 < i && p.0 < p.1 < n && EdgeKept(aPlus, aMinus, p.0, p.1)
      invariant forall p :: p in edges ==> edges[p] == SignOf(aPlus, p.0, p.1)
    {
      var j := i + 1;
      while j < n
        invariant i + 1 <= j <= n
        invariant forall p :: p in edges <==>
          ((0 <= p.0 < i && p.0 < p.1 < n) || (p.0 == i && i < p.1 < j)) && EdgeKept(aPlus, aMinus, p.0, p.1)
        invariant forall p :: p in edges ==> edges[p] == SignOf(aPlus, p.0, p.1)
      {
        if aPlus[i][j] == 1.0 {
          edges := edges[(i, j) := 1];
        } else if aMinus[i][j] == 1.0 {
          edges := edges[(i, j) := -1];
        }
        j := j + 1;
      }
      i := i + 1;
    }
    var spec := SignedEdges(aPlus, aMinus, n);
    assert edges.Keys == spec.Keys;
    g := SignedGraph(vertices, aPlus, aMinus, dPlus, dMinus, edges);
  }

  /** D+[i] is the number of j with A[i][j] > 0. */
  lemma PositiveDegreeCounts(A: Matrix, i: int)
    requires IsSquare(A, |A|) && 0 <= i < |A|
    ensures RowTotals(PositivePart(A))[i] == Count(j => Entry(A, i, j) > 0.0, 0, |A|) as real
  {
    var p := PositivePart(A);
    var keep: int -> bool := j => Entry(A, i, j) > 0.0;
    SumCounts(0, |A|, keep, j => Entry(p, i, j));
  }

  /** D-[i] is the number of j with A[i][j] < 0. */
  lemma NegativeDegreeCounts(A: Matrix, i: int)
    requires IsSquare(A, |A|) && 0 <= i < |A|
    ensures RowTotals(NegativePart(A))[i] == Count(j => Entry(A, i, j) < 0.0, 0, |A|) as real
  {
    var m := NegativePart(A);
    var keep: int -> bool := j => Entry(A, i, j) < 0.0;
    SumCounts(0, |A|, keep, j => Entry(m, i, j));
  }

  /** No pair is both a positive and a negative adjacency. */
  lemma PartsDisjoint(A: Matrix)
    requires IsSquare(A, |A|)
    ensures forall i, j :: 0 <= i < |A| && 0 <= j < |A| ==>
      !(PositivePart(A)[i][j] == 1.0 && NegativePart(A)[i][j] == 1.0)
  {
  }

  /** A symmetric input with an empty diagonal yields the signed adjacency
      the community weight and the pricing models assume. */
  lemma PartsAreSignedAdjacency(A: Matrix)
    requires IsSquare(A, |A|) && Symmetric(A) && ZeroDiagonal(A)
    ensures SignedAdjacency(|A|, PositivePart(A), NegativePart(A))
  {
    var n := |A|;
    var p := PositivePart(A);
    var m := NegativePart(A);
    forall i, j | 0 <= i < n && 0 <= j < n
      ensures Entry(p, i, j) == Entry(p, j, i) && Entry(m, i, j) == Entry(m, j, i)
    {
      assert Entry(A, i, j) == Entry(A, j, i);
    }
    forall i | 0 <= i < n
      ensures Entry(p, i, i) == 0.0 && Entry(m, i, i) == 0.0
    {
      assert Entry(A, i, i) == 0.0;
    }
  }

  /** A pair is an edge of the graph exactly when A is non-zero there. */
  lemma EdgesAreNonZeros(A: Matrix)
    requires IsSquare(A, |A|)
    ensures forall p :: p in SignedEdges(PositivePart(A), NegativePart(A), |A|) <==>
      0 <= p.0 < p.1 < |A| && A[p.0][p.1] != 0.0
  {
  }

  /** The number of edges is the number of non-zero entries strictly above
      the diagonal. */
  lemma EdgeCount(A: Matrix)
    requires IsSquare(A, |A|)
    ensures |SignedEdges(PositivePart(A), NegativePart(A), |A|)| as real
         == Upper(|A|, (i, j) => if Entry(A, i, j) != 0.0 then 1.0 else 0.0)
  {
    var n := |A|;
    var p := PositivePart(A);
    var m := NegativePart(A);
    var keep := (i, j) => EdgeKept(p, m, i, j);
    var g := SignedEdges(p, m, n);
    PairsMember(keep, n);
    PairsIncreasing(keep, n);
    IncreasingCardinality(Pairs(keep, n));
    assert g.Keys == set q | q in Pairs(keep, n);
    PairsCount(keep, n);
    UpperExt(n, (i, j) => Indicator(keep, i, j), (i, j) => if Entry(A, i, j) != 0.0 then 1.0 else 0.0);
  }

  /** The edges whose sign attribute is 1. */
  function PositiveEdges(g: map<(int, int), int>): set<(int, int)>
  {
    set p | p in g && g[p] == 1
  }

  /** For a symmetric input with an empty diagonal, the entries of A+ add up to
      twice the number of positive edges. */
  lemma PositiveSumIsTwiceEdges(A: Matrix)
    requires IsSquare(A, |A|) && Symmetric(A) && ZeroDiagonal(A)
    ensures Square(|A|, (i, j) => Entry(PositivePart(A), i, j))
         == 2.0 * |PositiveEdges(SignedEdges(PositivePart(A), NegativePart(A), |A|))| as real
  {
    var n := |A|;
    var p := PositivePart(A);
    var m := NegativePart(A);
    var g := SignedEdges(p, m, n);
    var keep := (i, j) => Entry(p, i, j) == 1.0;
    PartsAreSignedAdjacency(A);
    PairsMember(keep, n);
    PairsIncreasing(keep, n);
    IncreasingCardinality(Pairs(keep, n));
    assert PositiveEdges(g) == set q | q in Pairs(keep, n);
    PairsCount(keep, n);
    UpperExt(n, (i, j) => Indicator(keep, i, j), (i, j) => Entry(p, i, j));
    SquareOfSymmetric(n, (i, j) => Entry(p, i, j));
  }

  /** The edges whose sign attribute is -1. */
  function NegativeEdges(g: map<(int, int), int>): set<(int, int)>
  {
    set p | p in g && g[p] == -1
  }

  /** For a symmetric input with an empty diagonal, the entries of A- add up to
      twice the number of negative edges. */
  lemma NegativeSumIsTwiceEdges(A: Matrix)
    requires IsSquare(A, |A|) && Symmetric(A) && ZeroDiagonal(A)
    ensures Square(|A|, (i, j) => Entry(NegativePart(A), i, j))
         == 2.0 * |NegativeEdges(SignedEdges(PositivePart(A), NegativePart(A), |A|))| as real
  {
    var n := |A|;
    var p := PositivePart(A);
    var m := NegativePart(A);
    var g := SignedEdges(p, m, n);
    var keep := (i, j) => Entry(m, i, j) == 1.0;
    PartsAreSignedAdjacency(A);
    PairsMember(keep, n);
    PairsIncreasing(keep, n);
    IncreasingCardinality(Pairs(keep, n));
    assert NegativeEdges(g) == set q | q in Pairs(keep, n);
    PairsCount(keep, n);
    UpperExt(n, (i, j) => Indicator(keep, i, j), (i, j) => Entry(m, i, j));
    SquareOfSymmetric(n, (i, j) => Entry(m, i, j));
  }
}
