/** AP_MILPWithPartition of Code/utils/ap_milp_with_partition.py: the
    pricing problem of the partition-size variant. A binary z_uv for every
    ordered pair of vertices (u = v included) is tied to x_u * x_v, and one
    more row fixes the size of the community to k. The vertices are
    0..n-1. */
module ApMilpWithPartition {
  import opened Sums
  import opened Matrices
  import opened Triangle
  import opened Grid
  import opened Wc
  import opened Pricing
  import opened ProductPricing
  import opened Results

  /** The rows of the constructor: three per ordered pair, then the
      cardinality row. */
  function WithCardinality(n: nat, k: int): seq<ZRow>
  {
    ProductRowsFor(AllPairs(n)) + [Cardinality(k)]
  }

  /** The size of the community of x, as the cardinality row sums it. */
  lemma CardinalityIsSize(p: ZPoint, n: nat, k: int)
    requires |p.x| == n && Binary(p.x)
    ensures ZHolds(Cardinality(k), p, n) <==> |Members(p.x, n)| == k
  {
    MembersCount(p.x, n);
  }

  /** The feasible points are exactly the 0/1 vectors x with k members and
      z_uv = x_u * x_v on every ordered pair. */
  lemma FeasibleIff(p: ZPoint, n: nat, k: int)
    ensures ZFeasible(WithCardinality(n, k), p, n, AllPairs(n))
        <==> ProductShape(p, n, AllPairs(n)) && |Members(p.x, n)| == k
  {
    var G := AllPairs(n);
    GridMember(Every, n);
    ProductRowsIff(p, n, G);
    assert forall r :: r in WithCardinality(n, k) <==> r in ProductRowsFor(G) || r == Cardinality(k);
    if ProductShape(p, n, G) {
      CardinalityIsSize(p, n, k);
    }
    if ZFeasible(WithCardinality(n, k), p, n, G) {
      CardinalityIsSize(p, n, k);
    }
  }

  /** z_uu = x_u at every product point: a 0/1 value is its own square. */
  lemma DiagonalIsX(p: ZPoint, n: nat)
    requires ProductShape(p, n, AllPairs(n))
    ensures forall u :: 0 <= u < n ==> Z(p, (u, u)) == At(p.x, u)
  {
    GridMember(Every, n);
    forall u | 0 <= u < n
      ensures Z(p, (u, u)) == At(p.x, u)
    {
      assert (u, u) in AllPairs(n);
      assert Bit(At(p.x, u));
    }
  }

  // ---------------------------------------------------------------------
  // The base term: as written, and as intended
  // ---------------------------------------------------------------------

  /** The negative edge sum as written: `for u in vertices for (u, v) in
      E_minus` rebinds u in its second clause, so the whole sum over E- is
      taken once per vertex. */
  function MinusAsWritten(p: ZPoint, n: nat, eMinus: seq<Edge>): real
  {
    Sum(0, n, MinusPerVertex(p, eMinus))
  }

  /** The inner sum as written, the same for every vertex u. */
  function MinusPerVertex(p: ZPoint, eMinus: seq<Edge>): int -> real
  {
    u => SumOf(eMinus, Zs(p))
  }

  /** `base_term` as the constructor writes it. */
  function BaseTermAsWritten(p: ZPoint, n: nat, ePlus: seq<Edge>, eMinus: seq<Edge>, dPlus: Vector, dMinus: Vector, lambda: real): real
  {
    BaseShape(SumOf(ePlus, Zs(p)), DegreeProducts(dPlus, p.x, n), MinusAsWritten(p, n, eMinus),
              DegreeProducts(dMinus, p.x, n), lambda)
  }

  lemma BaseShapeGap(a: real, b: real, c: real, m: real, d: real, lambda: real, n: nat)
    requires m == n as real * c
    ensures BaseShape(a, b, m, d, lambda) == BaseShape(a, b, c, d, lambda) - 4.0 * (n as real - 1.0) * c
  {
  }

  /** The term as written counts each negative edge n times instead of once:
      it falls short of the intended one by 4 (n - 1) times the z over E-. */
  lemma AsWrittenGap(p: ZPoint, n: nat, ePlus: seq<Edge>, eMinus: seq<Edge>, dPlus: Vector, dMinus: Vector, lambda: real)
    ensures BaseTermAsWritten(p, n, ePlus, eMinus, dPlus, dMinus, lambda)
         == ZBaseTerm(p, n, ePlus, eMinus, dPlus, dMinus, lambda) - 4.0 * (n as real - 1.0) * SumOf(eMinus, Zs(p))
  {
    var a, b, c, d := SumOf(ePlus, Zs(p)), DegreeProducts(dPlus, p.x, n), SumOf(eMinus, Zs(p)), DegreeProducts(dMinus, p.x, n);
    var m := MinusAsWritten(p, n, eMinus);
    SumConst(0, n, c, MinusPerVertex(p, eMinus));
    assert m == n as real * c;
    BaseShapeGap(a, b, c, m, d, lambda, n);
    assert BaseTermAsWritten(p, n, ePlus, eMinus, dPlus, dMinus, lambda) == BaseShape(a, b, m, d, lambda);
    assert ZBaseTerm(p, n, ePlus, eMinus, dPlus, dMinus, lambda) == BaseShape(a, b, c, d, lambda);
  }

  // The two-vertex graph with one negative edge, both vertices in C.
  const PairPlus: Matrix := [[0.0, 0.0], [0.0, 0.0]]
  const PairMinus: Matrix := [[0.0, 1.0], [1.0, 0.0]]
  const PairDegrees: Vector := [1.0, 1.0]
  const BothIn: ZPoint := ZPoint([1.0, 1.0], map[(0, 0) := 1.0, (0, 1) := 1.0, (1, 0) := 1.0, (1, 1) := 1.0])

  /** On that graph with lambda = 1/2 the term as written is -6 while the
      intended term is -2 (|C| * w_C for C = {0, 1}, by ZBaseAtProducts). */
  lemma AsWrittenCounterexample()
    ensures MinusEdges(PairPlus, PairMinus, 2) == [(0, 1)] && PlusEdges(PairPlus, 2) == []
    ensures BaseTermAsWritten(BothIn, 2, [], [(0, 1)], [0.0, 0.0], PairDegrees, 0.5) == -6.0
    ensures ZBaseTerm(BothIn, 2, [], [(0, 1)], [0.0, 0.0], PairDegrees, 0.5) == -2.0
  {
    assert RowPairs(MinusKeep(PairPlus, PairMinus), 0, 1, 2) == [(0, 1)];
    assert PairsBelow(MinusKeep(PairPlus, PairMinus), 2, 2) == [(0, 1)];
    assert PairsBelow(PlusKeep(PairPlus), 2, 2) == [];
    var zs := Zs(BothIn);
    assert SumOf([(0, 1)], zs) == 1.0;
    AsWrittenGap(BothIn, 2, [], [(0, 1)], [0.0, 0.0], PairDegrees, 0.5);
    assert DegreeProducts(PairDegrees, BothIn.x, 2) == 2.0;
    assert DegreeProducts([0.0, 0.0], BothIn.x, 2) == 0.0;
  }

  // ---------------------------------------------------------------------
  // The dual term
  // ---------------------------------------------------------------------

  /** y_v * z_uv as a function of the pair (u, v). */
  function DualPairs(y: map<int, real>, p: ZPoint): Edge -> real
  {
    (e: Edge) => Dual(y, e.1) * Z(p, e)
  }

  /** The dual term of `add_lps_dual_sol`: - sum over every ordered pair
      (u, v) of y_v * z_uv. */
  function DualTerm(y: map<int, real>, p: ZPoint, n: nat): real
  {
    - SumOf(AllPairs(n), DualPairs(y, p))
  }

  /** x_v * y_v as a function of the vertex. */
  function DualsIn(y: map<int, real>, p: ZPoint): int -> real
  {
    v => At(p.x, v) * Dual(y, v)
  }

  lemma Rearrange(d: real, z: real, a: real, b: real)
    requires z == a * b
    ensures d * z == Times(a, b * d)
  {
  }

  lemma DualPairSplits(y: map<int, real>, p: ZPoint, n: nat, u: int, v: int)
    requires ProductShape(p, n, AllPairs(n)) && 0 <= u < n && 0 <= v < n
    ensures DualPairs(y, p)((u, v)) == Times(Xs(p)(u), DualsIn(y, p)(v))
  {
    PairIsProduct(p, n, u, v);
    Rearrange(Dual(y, v), Z(p, (u, v)), At(p.x, u), At(p.x, v));
  }

  /** At a product point the double sum factors into the sum of x times the
      sum of x_v * y_v. */
  lemma DualFactors(y: map<int, real>, p: ZPoint, n: nat)
    requires ProductShape(p, n, AllPairs(n))
    ensures SumOf(AllPairs(n), DualPairs(y, p)) == Times(Sum(0, n, Xs(p)), Sum(0, n, DualsIn(y, p)))
  {
    forall u, v | 0 <= u < n && 0 <= v < n
      ensures DualPairs(y, p)((u, v)) == Times(Xs(p)(u), DualsIn(y, p)(v))
    {
      DualPairSplits(y, p, n, u, v);
    }
    GridProductSum(n, DualPairs(y, p), Xs(p), DualsIn(y, p));
  }

  /** The two factors over the members of C: |C| and the duals of C. */
  lemma FactorsOverMembers(y: map<int, real>, p: ZPoint, n: nat)
    requires n <= |p.x| && Binary(p.x)
    ensures Sum(0, n, Xs(p)) == |Members(p.x, n)| as real
    ensures Sum(0, n, DualsIn(y, p)) == SumOf(Members(p.x, n), Duals(y))
  {
    MembersCount(p.x, n);
    SumExt(0, n, u => At(p.x, u), Xs(p));
    WeightedOverMembers(p.x, n, Duals(y), DualsIn(y, p));
  }

  /** At a product point the dual term is -|C| times the duals of C. */
  lemma DualAtProducts(y: map<int, real>, p: ZPoint, n: nat)
    requires ProductShape(p, n, AllPairs(n))
    ensures DualTerm(y, p, n) == - Times(|Members(p.x, n)| as real, SumOf(Members(p.x, n), Duals(y)))
  {
    DualFactors(y, p, n);
    FactorsOverMembers(y, p, n);
  }

  /** At every feasible point of a signed graph the intended objective is
      k * w_C minus k times the duals of C, with C the k members of x,
      k * w_C being the numerator of calc_w_C. */
  lemma ObjectiveAtFeasible(p: ZPoint, n: nat, k: int, aPlus: Matrix, aMinus: Matrix, dPlus: Vector, dMinus: Vector,
                            lambda: real, y: map<int, real>)
    requires SignedAdjacency(n, aPlus, aMinus)
    requires ZFeasible(WithCardinality(n, k), p, n, AllPairs(n))
    ensures |Members(p.x, n)| == k
    ensures ZBaseTerm(p, n, PlusEdges(aPlus, n), MinusEdges(aPlus, aMinus, n), dPlus, dMinus, lambda) + DualTerm(y, p, n)
         == Numerator(Members(p.x, n), aPlus, aMinus, dPlus, dMinus, lambda) - Times(k as real, SumOf(Members(p.x, n), Duals(y)))
  {
    FeasibleIff(p, n, k);
    GridShapeOnEdges(p, n, aPlus, aMinus);
    ZBaseAtProducts(p, n, aPlus, aMinus, dPlus, dMinus, lambda);
    DualAtProducts(y, p, n);
  }

  // ---------------------------------------------------------------------
  // The class
  // ---------------------------------------------------------------------

  class ApMilpWithPartition {
    const n: nat
    const aPlus: Matrix
    const aMinus: Matrix
    const dPlus: Vector
    const dMinus: Vector
    const lambda: real
    const ePlus: seq<Edge>
    const eMinus: seq<Edge>
    const edges: seq<Edge>
    /** The right-hand side of the cardinality row. */
    var k: int
    /** The constraints; the last one is the cardinality row. */
    var rows: seq<ZRow>
    /** The duals of the objective `add_lps_dual_sol` set last. */
    var duals: Option<map<int, real>>
    var apMilpOpt: real
    var apMilpSol: Option<Report>

    /** The product rows of every ordered pair, then the cardinality row
        with the current k. */
    ghost predicate Valid()
      reads this
    {
      rows == WithCardinality(n, k)
    }

    /** `AP_MILPWithPartition(vertices, A_plus, A_minus, D_plus, D_minus,
        lambda_val)` with vertices = 0..n-1: the edges, the product rows of
        the double loop, and the cardinality row with k = 1. */
    constructor (n: nat, aPlus: Matrix, aMinus: Matrix, dPlus: Vector, dMinus: Vector, lambda: real)
      requires IsSquare(aPlus, n) && IsSquare(aMinus, n)
      ensures this.n == n && this.aPlus == aPlus && this.aMinus == aMinus
      ensures this.dPlus == dPlus && this.dMinus == dMinus && this.lambda == lambda
      ensures ePlus == PlusEdges(aPlus, n) && eMinus == MinusEdges(aPlus, aMinus, n) && edges == ePlus + eMinus
      ensures k == 1 && rows == WithCardinality(n, 1) && Valid()
      ensures duals == None && apMilpSol == None
    {
      this.n, this.aPlus, this.aMinus := n, aPlus, aMinus;
      this.dPlus, this.dMinus, this.lambda := dPlus, dMinus, lambda;
      var ep, em := ClassifyEdges(aPlus, aMinus, n);
      ePlus, eMinus, edges := ep, em, ep + em;
      var rs := GridProductRows(n);
      k := 1;
      rows := rs + [Cardinality(1)];
      duals, apMilpOpt, apMilpSol := None, 0.0, None;
    }

    /** The objective the model maximises once duals are set, with the
        negative edge sum taken once (see BaseTermAsWritten for the term as
        the constructor writes it). */
    function Objective(p: ZPoint): real
      reads this
      requires duals.Some?
    {
      ZBaseTerm(p, n, ePlus, eMinus, dPlus, dMinus, lambda) + DualTerm(duals.value, p, n)
    }

    /** `update_partition_constr(k)`: sets k and the right-hand side of the
        cardinality row; no row is added or removed. */
    method UpdatePartitionConstr(k': int)
      requires Valid()
      modifies this`k, this`rows
      ensures k == k' && Valid()
      ensures |rows| == |old(rows)| && rows == old(rows)[|old(rows)| - 1 := Cardinality(k')]
    {
      k := k';
      rows := rows[|rows| - 1 := Cardinality(k')];
      assert rows == ProductRowsFor(AllPairs(n)) + [Cardinality(k')];
    }

    /** `add_lps_dual_sol(y)`: the objective becomes base_term + dual_term.
        The dual of every vertex is read, so each must be present. */
    method AddLpsDualSol(y: map<int, real>)
      requires forall u :: 0 <= u < n ==> u in y
      modifies this`duals
      ensures duals == Some(y)
    {
      duals := Some(y);
    }

    /** `solve_model()`. The solver is not modelled: its optimum and the
        point it found are the inputs. Only the z of the edges of E are
        reported. */
    method SolveModel(opt: real, p: ZPoint) returns (value: real, report: Report)
      modifies this`apMilpOpt, this`apMilpSol
      ensures value == opt && apMilpOpt == opt && apMilpSol == Some(report)
      ensures report == ReportOf(p, n, edges)
    {
      report := ReportOf(p, n, edges);
      apMilpOpt, apMilpSol := opt, Some(report);
      value := opt;
    }
  }

  /** What the reported solution means at a feasible point of a valid
      model: the reported community has k members, and each reported z_uv
      is 1 exactly when both u and v are in it. */
  lemma ReportMeaning(m: ApMilpWithPartition, p: ZPoint)
    requires m.Valid() && m.edges == m.ePlus + m.eMinus
    requires m.ePlus == PlusEdges(m.aPlus, m.n) && m.eMinus == MinusEdges(m.aPlus, m.aMinus, m.n)
    requires ZFeasible(m.rows, p, m.n, AllPairs(m.n))
    ensures |Members(p.x, m.n)| == m.k
    ensures forall e :: e in ReportOf(p, m.n, m.edges).z ==>
              (ReportOf(p, m.n, m.edges).z[e] == 1.0 <==> e.0 in Members(p.x, m.n) && e.1 in Members(p.x, m.n))
  {
    FeasibleIff(p, m.n, m.k);
    GridShapeOnEdges(p, m.n, m.aPlus, m.aMinus);
    EdgeClasses(m.aPlus, m.aMinus, m.n);
    ReportedProducts(p, m.n, m.edges);
  }
}
