/** AP_MILP of Code/utils/ap_qp.py: the all-pairs pricing problem whose
    objective is fixed once, at construction, from the duals passed in. A
    binary z_uv for every ordered pair is tied to x_u * x_v; the edge terms
    sum z over the ordered pairs with a positive (negative) entry, and the
    dual term weights z_uv by the dual of u. The vertices are 0..n-1. */
module ApQp {
  import opened Sums
  import opened Matrices
  import opened Triangle
  import opened Grid
  import opened Wc
  import opened Pricing
  import opened ProductPricing
  import opened Results

  /** The ordered pairs with a positive entry in m. */
  function Positive(m: Matrix): (int, int) -> bool
  {
    (u, v) => Entry(m, u, v) > 0.0
  }

  /** The positive (negative) edge term: z summed over the ordered pairs
      (u, v) with m[u, v] > 0, u outer, v inner. */
  function EdgeTerm(p: ZPoint, n: nat, m: Matrix): real
  {
    SumOf(GridPairs(Positive(m), n), Zs(p))
  }

  /** The objective terms without the duals. */
  function BaseTerm(p: ZPoint, n: nat, aPlus: Matrix, aMinus: Matrix, dPlus: Vector, dMinus: Vector, lambda: real): real
  {
    BaseShape(EdgeTerm(p, n, aPlus), DegreeProducts(dPlus, p.x, n), EdgeTerm(p, n, aMinus), DegreeProducts(dMinus, p.x, n), lambda)
  }

  /** y_u * z_uv as a function of the pair (u, v). */
  function DualPairs(y: map<int, real>, p: ZPoint): Edge -> real
  {
    (e: Edge) => Dual(y, e.0) * Z(p, e)
  }

  /** The dual term: - sum over every ordered pair (u, v) of y_u * z_uv. */
  function DualTerm(y: map<int, real>, p: ZPoint, n: nat): real
  {
    - SumOf(AllPairs(n), DualPairs(y, p))
  }

  // ---------------------------------------------------------------------
  // The edge terms at product points
  // ---------------------------------------------------------------------

  lemma KeptEntry(e: real, z: real, a: real, b: real)
    requires e == 0.0 || e == 1.0
    requires z == a * b
    ensures (if e > 0.0 then z else 0.0) == a * (b * e)
  {
  }

  /** For a 0/1 matrix the kept z of a pair is its term of the block sum. */
  lemma KeptIsBlock(p: ZPoint, n: nat, m: Matrix, u: int, v: int)
    requires ProductShape(p, n, AllPairs(n)) && IsSquare(m, n) && ZeroOne(m)
    requires 0 <= u < n && 0 <= v < n
    ensures KeptTerm(Positive(m), Zs(p))(u, v) == BlockTerm(m, p.x)(u, v)
  {
    PairIsProduct(p, n, u, v);
    KeptEntry(Entry(m, u, v), Z(p, (u, v)), At(p.x, u), At(p.x, v));
  }

  /** At a product point, for a 0/1 matrix, the edge term is the sum of m
      over C x C, C the community of x: each unordered edge inside C
      counts twice. */
  lemma EdgeTermIsBlock(p: ZPoint, n: nat, m: Matrix)
    requires ProductShape(p, n, AllPairs(n)) && IsSquare(m, n) && ZeroOne(m)
    ensures EdgeTerm(p, n, m) == BlockSum(m, Members(p.x, n))
  {
    GridSum(Positive(m), Zs(p), n);
    forall u, v | 0 <= u < n && 0 <= v < n
      ensures KeptTerm(Positive(m), Zs(p))(u, v) == BlockTerm(m, p.x)(u, v)
    {
      KeptIsBlock(p, n, m, u, v);
    }
    SquareExt(n, KeptTerm(Positive(m), Zs(p)), BlockTerm(m, p.x));
    BlockAsSquare(m, p.x, n);
  }

  /** The degree terms over the community. */
  lemma DegreesAtBinary(p: ZPoint, n: nat, dPlus: Vector, dMinus: Vector)
    requires ProductShape(p, n, AllPairs(n))
    ensures DegreeProducts(dPlus, p.x, n) == VecSum(dPlus, Members(p.x, n))
    ensures DegreeProducts(dMinus, p.x, n) == VecSum(dMinus, Members(p.x, n))
  {
    DegreesOverMembers(dPlus, p.x, n);
    DegreesOverMembers(dMinus, p.x, n);
  }

  lemma DoubledArith(bPlus: real, vPlus: real, bMinus: real, vMinus: real, lambda: real)
    ensures BaseShape(bPlus, vPlus, bMinus, vMinus, lambda)
         == (2.0 * bPlus - 2.0 * (1.0 - lambda) * vPlus) - (2.0 * bMinus - 2.0 * lambda * vMinus) + 2.0 * bPlus - 2.0 * bMinus
  {
  }

  /** The base shape of the block sums is |C| * w_C plus twice their
      difference. */
  lemma DoubledNumerator(C: seq<int>, aPlus: Matrix, aMinus: Matrix, dPlus: Vector, dMinus: Vector, lambda: real)
    ensures BaseShape(BlockSum(aPlus, C), VecSum(dPlus, C), BlockSum(aMinus, C), VecSum(dMinus, C), lambda)
         == Numerator(C, aPlus, aMinus, dPlus, dMinus, lambda) + 2.0 * BlockSum(aPlus, C) - 2.0 * BlockSum(aMinus, C)
  {
    DoubledArith(BlockSum(aPlus, C), VecSum(dPlus, C), BlockSum(aMinus, C), VecSum(dMinus, C), lambda);
  }

  /** At every product point of a signed graph the base term is |C| * w_C
      plus twice the block sums of A+ and A- over C x C: the ordered pairs
      count every edge inside C twice, and the weight 4 doubles them again. */
  lemma BaseAtProducts(p: ZPoint, n: nat, aPlus: Matrix, aMinus: Matrix, dPlus: Vector, dMinus: Vector, lambda: real)
    requires SignedAdjacency(n, aPlus, aMinus)
    requires ProductShape(p, n, AllPairs(n))
    ensures BaseTerm(p, n, aPlus, aMinus, dPlus, dMinus, lambda)
         == Numerator(Members(p.x, n), aPlus, aMinus, dPlus, dMinus, lambda)
            + 2.0 * BlockSum(aPlus, Members(p.x, n)) - 2.0 * BlockSum(aMinus, Members(p.x, n))
  {
    EdgeTermIsBlock(p, n, aPlus);
    EdgeTermIsBlock(p, n, aMinus);
    DegreesAtBinary(p, n, dPlus, dMinus);
    DoubledNumerator(Members(p.x, n), aPlus, aMinus, dPlus, dMinus, lambda);
  }

  // ---------------------------------------------------------------------
  // The dual term at product points
  // ---------------------------------------------------------------------

  /** x_u * y_u as a function of the vertex. */
  function DualsIn(y: map<int, real>, p: ZPoint): int -> real
  {
    u => At(p.x, u) * Dual(y, u)
  }

  lemma Rearrange(d: real, z: real, a: real, b: real)
    requires z == a * b
    ensures d * z == Times(a * d, b)
  {
  }

  lemma DualPairSplits(y: map<int, real>, p: ZPoint, n: nat, u: int, v: int)
    requires ProductShape(p, n, AllPairs(n)) && 0 <= u < n && 0 <= v < n
    ensures DualPairs(y, p)((u, v)) == Times(DualsIn(y, p)(u), Xs(p)(v))
  {
    PairIsProduct(p, n, u, v);
    Rearrange(Dual(y, u), Z(p, (u, v)), At(p.x, u), At(p.x, v));
  }

  lemma DualFactors(y: map<int, real>, p: ZPoint, n: nat)
    requires ProductShape(p, n, AllPairs(n))
    ensures SumOf(AllPairs(n), DualPairs(y, p)) == Times(Sum(0, n, DualsIn(y, p)), Sum(0, n, Xs(p)))
  {
    forall u, v | 0 <= u < n && 0 <= v < n
      ensures DualPairs(y, p)((u, v)) == Times(DualsIn(y, p)(u), Xs(p)(v))
    {
      DualPairSplits(y, p, n, u, v);
    }
    GridProductSum(n, DualPairs(y, p), DualsIn(y, p), Xs(p));
  }

  lemma FactorsOverMembers(y: map<int, real>, p: ZPoint, n: nat)
    requires n <= |p.x| && Binary(p.x)
    ensures Sum(0, n, Xs(p)) == |Members(p.x, n)| as real
    ensures Sum(0, n, DualsIn(y, p)) == SumOf(Members(p.x, n), Duals(y))
  {
    MembersCount(p.x, n);
    SumExt(0, n, u => At(p.x, u), Xs(p));
    WeightedOverMembers(p.x, n, Duals(y), DualsIn(y, p));
  }

  /** At a product point the dual term is -|C| times the duals of C. */
  lemma DualAtProducts(y: map<int, real>, p: ZPoint, n: nat)
    requires ProductShape(p, n, AllPairs(n))
    ensures DualTerm(y, p, n) == - Times(SumOf(Members(p.x, n), Duals(y)), |Members(p.x, n)| as real)
  {
    DualFactors(y, p, n);
    FactorsOverMembers(y, p, n);
  }

  /** The feasible points are exactly the product points. */
  lemma FeasibleIff(p: ZPoint, n: nat)
    ensures ZFeasible(ProductRowsFor(AllPairs(n)), p, n, AllPairs(n)) <==> ProductShape(p, n, AllPairs(n))
  {
    GridMember(Every, n);
    ProductRowsIff(p, n, AllPairs(n));
  }

  lemma BaseShapeZero(lambda: real)
    ensures BaseShape(0.0, 0.0, 0.0, 0.0, lambda) == 0.0
  {
  }

  /** Every term of the base vanishes at the zero point. */
  lemma ZeroBaseTerm(n: nat, aPlus: Matrix, aMinus: Matrix, dPlus: Vector, dMinus: Vector, lambda: real)
    ensures BaseTerm(ZeroPoint(n, AllPairs(n)), n, aPlus, aMinus, dPlus, dMinus, lambda) == 0.0
  {
    ZeroSums(n, AllPairs(n), GridPairs(Positive(aPlus), n), dPlus);
    ZeroSums(n, AllPairs(n), GridPairs(Positive(aMinus), n), dMinus);
    BaseShapeZero(lambda);
  }

  /** The dual term vanishes at the zero point. */
  lemma ZeroDualTerm(n: nat, y: map<int, real>)
    ensures DualTerm(y, ZeroPoint(n, AllPairs(n)), n) == 0.0
  {
    var p := ZeroPoint(n, AllPairs(n));
    forall e | e in AllPairs(n)
      ensures DualPairs(y, p)(e) == 0.0
    {
      assert Z(p, e) == 0.0;
    }
    SumOfConst(AllPairs(n), 0.0, DualPairs(y, p));
  }

  /** x = 0 with every z_uv = 0 is feasible, with objective 0. */
  lemma ZeroFeasible(n: nat, aPlus: Matrix, aMinus: Matrix, dPlus: Vector, dMinus: Vector, lambda: real, y: map<int, real>)
    ensures var p := ZeroPoint(n, AllPairs(n));
            && ZFeasible(ProductRowsFor(AllPairs(n)), p, n, AllPairs(n))
            && BaseTerm(p, n, aPlus, aMinus, dPlus, dMinus, lambda) + DualTerm(y, p, n) == 0.0
  {
    FeasibleIff(ZeroPoint(n, AllPairs(n)), n);
    ZeroBaseTerm(n, aPlus, aMinus, dPlus, dMinus, lambda);
    ZeroDualTerm(n, y);
  }

  // ---------------------------------------------------------------------
  // The class
  // ---------------------------------------------------------------------

  class ApQp {
    const n: nat
    const aPlus: Matrix
    const aMinus: Matrix
    const dPlus: Vector
    const dMinus: Vector
    const lambda: real
    /** The duals the objective was built from. */
    const duals: map<int, real>
    /** The constraints; no method changes them after construction. */
    const rows: seq<ZRow>
    var apMilpOpt: real
    var apMilpSol: Option<Report>

    /** `AP_MILP(vertices, A_plus, A_minus, D_plus, D_minus, lambda_val,
        lps_dual_sol)` with vertices = 0..n-1: the product rows of the
        double loop; the objective is fixed here, from y. Building it reads
        the dual of every vertex. */
    constructor (n: nat, aPlus: Matrix, aMinus: Matrix, dPlus: Vector, dMinus: Vector, lambda: real, y: map<int, real>)
      requires IsSquare(aPlus, n) && IsSquare(aMinus, n)
      requires forall u :: 0 <= u < n ==> u in y
      ensures this.n == n && this.aPlus == aPlus && this.aMinus == aMinus
      ensures this.dPlus == dPlus && this.dMinus == dMinus && this.lambda == lambda && duals == y
      ensures rows == ProductRowsFor(AllPairs(n))
      ensures apMilpSol == None
    {
      this.n, this.aPlus, this.aMinus := n, aPlus, aMinus;
      this.dPlus, this.dMinus, this.lambda := dPlus, dMinus, lambda;
      duals := y;
      var rs := GridProductRows(n);
      rows := rs;
      apMilpOpt, apMilpSol := 0.0, None;
    }

    /** The objective the model maximises. */
    function Objective(p: ZPoint): real
      reads this
    {
      BaseTerm(p, n, aPlus, aMinus, dPlus, dMinus, lambda) + DualTerm(duals, p, n)
    }

    /** `solve_ap_milp()`. The solver is not modelled: its optimum and the
        point it found are the inputs. Every z_uv is reported. */
    method SolveApMilp(opt: real, p: ZPoint) returns (value: real, report: Report)
      modifies this`apMilpOpt, this`apMilpSol
      ensures value == opt && apMilpOpt == opt && apMilpSol == Some(report)
      ensures report == ReportOf(p, n, AllPairs(n))
    {
      report := ReportOf(p, n, AllPairs(n));
      apMilpOpt, apMilpSol := opt, Some(report);
      value := opt;
    }
  }

  /** At every feasible point of a signed graph the objective is |C| * w_C
      plus twice the difference of the block sums, minus |C| times the
      duals of C. */
  lemma ObjectiveAtFeasible(m: ApQp, p: ZPoint)
    requires m.rows == ProductRowsFor(AllPairs(m.n)) && SignedAdjacency(m.n, m.aPlus, m.aMinus)
    requires ZFeasible(m.rows, p, m.n, AllPairs(m.n))
    ensures m.Objective(p)
         == Numerator(Members(p.x, m.n), m.aPlus, m.aMinus, m.dPlus, m.dMinus, m.lambda)
            + 2.0 * BlockSum(m.aPlus, Members(p.x, m.n)) - 2.0 * BlockSum(m.aMinus, Members(p.x, m.n))
            - Times(SumOf(Members(p.x, m.n), Duals(m.duals)), |Members(p.x, m.n)| as real)
  {
    FeasibleIff(p, m.n);
    BaseAtProducts(p, m.n, m.aPlus, m.aMinus, m.dPlus, m.dMinus, m.lambda);
    DualAtProducts(m.duals, p, m.n);
  }

  /** Each reported z_uv is 1 exactly when both u and v are in the reported
      community. */
  lemma ReportMeaning(m: ApQp, p: ZPoint)
    requires m.rows == ProductRowsFor(AllPairs(m.n)) && ZFeasible(m.rows, p, m.n, AllPairs(m.n))
    ensures forall e :: e in ReportOf(p, m.n, AllPairs(m.n)).z ==>
              (ReportOf(p, m.n, AllPairs(m.n)).z[e] == 1.0 <==> e.0 in Members(p.x, m.n) && e.1 in Members(p.x, m.n))
  {
    FeasibleIff(p, m.n);
    GridMember(Every, m.n);
    ReportedProducts(p, m.n, AllPairs(m.n));
  }
}
