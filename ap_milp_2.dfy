/** AP_MILP of Code/utils/ap_milp_2.py: the pricing problem with a binary
    z_e for every edge e = (u, v) of E, tied to x_u * x_v by three rows. There
    is no scale variable, so the base term is |C| * w_C rather than w_C, and
    the dual term multiplies every z_e by every vertex's dual. The vertices
    are 0..n-1. */
module ApMilp2 {
  import opened Sums
  import opened Matrices
  import opened Wc
  import opened Pricing
  import opened ProductPricing
  import opened Results

  /** The terms of the dual term that share vertex u: y_u * z_e over E. */
  function DualRow(y: map<int, real>, p: ZPoint, E: seq<Edge>, u: int): real
  {
    SumOf(E, e => Dual(y, u) * Z(p, e))
  }

  /** The dual term of `add_lps_dual_sol`: - sum over vertices u and edges
      e of E of y_u * z_e. */
  function DualTerm(y: map<int, real>, p: ZPoint, n: nat, E: seq<Edge>): real
  {
    - Sum(0, n, DualRows(y, p, E))
  }

  function DualRows(y: map<int, real>, p: ZPoint, E: seq<Edge>): int -> real
  {
    u => DualRow(y, p, E, u)
  }


  /** The total of the duals of the n vertices. */
  function DualMass(y: map<int, real>, n: nat): real
  {
    Sum(0, n, Duals(y))
  }

  /** Every vertex's row of the dual term is its dual times the sum of z
      over E. */
  lemma DualRowsFactor(y: map<int, real>, p: ZPoint, E: seq<Edge>)
    ensures forall u :: DualRows(y, p, E)(u) == SumOf(E, Zs(p)) * Duals(y)(u)
  {
    forall u
      ensures DualRow(y, p, E, u) == SumOf(E, Zs(p)) * Dual(y, u)
    {
      SumOfScale(E, Dual(y, u), Zs(p), e => Dual(y, u) * Z(p, e));
    }
  }

  /** The double sum factors: minus the total of the duals times the sum of
      z over E. */
  lemma DualTermFactors(y: map<int, real>, p: ZPoint, n: nat, E: seq<Edge>)
    ensures DualTerm(y, p, n, E) == - Times(SumOf(E, Zs(p)), DualMass(y, n))
  {
    DualRowsFactor(y, p, E);
    SumScale(0, n, SumOf(E, Zs(p)), Duals(y), DualRows(y, p, E));
  }

  /** At a product point the dual term is minus the total of the duals
      times the number of edges of E inside the community. */
  lemma DualAtProducts(y: map<int, real>, p: ZPoint, n: nat, E: seq<Edge>)
    requires ProductShape(p, n, E)
    ensures DualTerm(y, p, n, E) == - Times(EdgeProducts(E, p.x), DualMass(y, n))
  {
    DualTermFactors(y, p, n, E);
    ProductSums(p, n, E);
  }

  /** The edges of E are pairs of vertices. */
  lemma EdgesInRange(aPlus: Matrix, aMinus: Matrix, n: nat)
    ensures forall e :: e in PlusEdges(aPlus, n) + MinusEdges(aPlus, aMinus, n) ==> 0 <= e.0 < n && 0 <= e.1 < n
  {
    EdgeClasses(aPlus, aMinus, n);
  }

  /** The feasible points of the constructor's rows are exactly the 0/1
      vectors x with z_e = x_u * x_v on every edge. */
  lemma FeasibleIff(p: ZPoint, n: nat, aPlus: Matrix, aMinus: Matrix)
    ensures var E := PlusEdges(aPlus, n) + MinusEdges(aPlus, aMinus, n);
            ZFeasible(ProductRowsFor(E), p, n, E) <==> ProductShape(p, n, E)
  {
    EdgesInRange(aPlus, aMinus, n);
    ProductRowsIff(p, n, PlusEdges(aPlus, n) + MinusEdges(aPlus, aMinus, n));
  }

  /** At every feasible point of a signed graph the objective is |C| * w_C,
      written as the numerator of calc_w_C, minus the total of all duals
      times the number of edges inside C. */
  lemma ObjectiveAtFeasible(p: ZPoint, n: nat, aPlus: Matrix, aMinus: Matrix, dPlus: Vector, dMinus: Vector, lambda: real,
                            y: map<int, real>)
    requires SignedAdjacency(n, aPlus, aMinus)
    requires ZFeasible(ProductRowsFor(PlusEdges(aPlus, n) + MinusEdges(aPlus, aMinus, n)), p, n,
                       PlusEdges(aPlus, n) + MinusEdges(aPlus, aMinus, n))
    ensures ZBaseTerm(p, n, PlusEdges(aPlus, n), MinusEdges(aPlus, aMinus, n), dPlus, dMinus, lambda)
            + DualTerm(y, p, n, PlusEdges(aPlus, n) + MinusEdges(aPlus, aMinus, n))
         == Numerator(Members(p.x, n), aPlus, aMinus, dPlus, dMinus, lambda)
            - Times(EdgeProducts(PlusEdges(aPlus, n) + MinusEdges(aPlus, aMinus, n), p.x), DualMass(y, n))
  {
    FeasibleIff(p, n, aPlus, aMinus);
    ZBaseAtProducts(p, n, aPlus, aMinus, dPlus, dMinus, lambda);
    DualAtProducts(y, p, n, PlusEdges(aPlus, n) + MinusEdges(aPlus, aMinus, n));
  }

  /** x = 0 with every z_e = 0 is feasible and its objective is 0, whatever
      the duals: the optimum is never negative. */
  lemma ZeroFeasible(n: nat, aPlus: Matrix, aMinus: Matrix, dPlus: Vector, dMinus: Vector, lambda: real, y: map<int, real>)
    ensures var E := PlusEdges(aPlus, n) + MinusEdges(aPlus, aMinus, n);
            var p := ZeroPoint(n, E);
            && ZFeasible(ProductRowsFor(E), p, n, E)
            && ZBaseTerm(p, n, PlusEdges(aPlus, n), MinusEdges(aPlus, aMinus, n), dPlus, dMinus, lambda) + DualTerm(y, p, n, E) == 0.0
  {
    var E := PlusEdges(aPlus, n) + MinusEdges(aPlus, aMinus, n);
    var p := ZeroPoint(n, E);
    FeasibleIff(p, n, aPlus, aMinus);
    ZeroBase(n, E, PlusEdges(aPlus, n), MinusEdges(aPlus, aMinus, n), dPlus, dMinus, lambda);
    DualTermFactors(y, p, n, E);
    ZeroSums(n, E, E, dPlus);
  }

  // ---------------------------------------------------------------------
  // The class
  // ---------------------------------------------------------------------

  class ApMilp {
    const n: nat
    const aPlus: Matrix
    const aMinus: Matrix
    const dPlus: Vector
    const dMinus: Vector
    const lambda: real
    const ePlus: seq<Edge>
    const eMinus: seq<Edge>
    const edges: seq<Edge>
    /** The constraints; no method changes them after construction. */
    const rows: seq<ZRow>
    /** The duals of the objective `add_lps_dual_sol` set last; None while
        the model has no objective. */
    var duals: Option<map<int, real>>
    var apMilpOpt: real
    var apMilpSol: Option<Report>

    /** `AP_MILP(vertices, A_plus, A_minus, D_plus, D_minus, lambda_val)`
        with vertices = 0..n-1: the edges, then three rows per edge. */
    constructor (n: nat, aPlus: Matrix, aMinus: Matrix, dPlus: Vector, dMinus: Vector, lambda: real)
      requires IsSquare(aPlus, n) && IsSquare(aMinus, n)
      ensures this.n == n && this.aPlus == aPlus && this.aMinus == aMinus
      ensures this.dPlus == dPlus && this.dMinus == dMinus && this.lambda == lambda
      ensures ePlus == PlusEdges(aPlus, n) && eMinus == MinusEdges(aPlus, aMinus, n) && edges == ePlus + eMinus
      ensures rows == ProductRowsFor(edges)
      ensures duals == None && apMilpSol == None
    {
      this.n, this.aPlus, this.aMinus := n, aPlus, aMinus;
      this.dPlus, this.dMinus, this.lambda := dPlus, dMinus, lambda;
      var ep, em := ClassifyEdges(aPlus, aMinus, n);
      ePlus, eMinus, edges := ep, em, ep + em;
      var E := ep + em;
      var rs: seq<ZRow> := [];
      for i := 0 to |E|
        invariant rs == ProductRowsFor(E[..i])
      {
        ProductRowsSnoc(E[..i], E[i]);
        assert E[..i + 1] == E[..i] + [E[i]];
        rs := rs + ProductRowsOf(E[i]);
      }
      assert E[..|E|] == E;
      rows := rs;
      duals, apMilpOpt, apMilpSol := None, 0.0, None;
    }

    /** The objective the model maximises, once duals are set. */
    function Objective(p: ZPoint): real
      reads this
      requires duals.Some?
    {
      ZBaseTerm(p, n, ePlus, eMinus, dPlus, dMinus, lambda) + DualTerm(duals.value, p, n, edges)
    }

    /** `add_lps_dual_sol(y)`: the objective becomes base_term + dual_term;
        whatever duals it held before leave no trace. The dual of every
        vertex is read once per edge, so a missing vertex raises KeyError
        only when E is not empty. */
    method AddLpsDualSol(y: map<int, real>)
      requires edges != [] ==> forall u :: 0 <= u < n ==> u in y
      modifies this`duals
      ensures duals == Some(y)
    {
      duals := Some(y);
    }

    /** `solve_ap_milp()`. The solver is not modelled: its optimum and the
        point it found are the inputs. */
    method SolveApMilp(opt: real, p: ZPoint) returns (value: real, report: Report)
      modifies this`apMilpOpt, this`apMilpSol
      ensures value == opt && apMilpOpt == opt && apMilpSol == Some(report)
      ensures report == ReportOf(p, n, edges)
    {
      report := ReportOf(p, n, edges);
      apMilpOpt, apMilpSol := opt, Some(report);
      value := opt;
    }
  }

  /** What the reported solution means at a feasible point: each reported
      z_uv is 1 exactly when both u and v are in the reported community, and
      the reported x_u are 0/1. */
  lemma ReportMeaning(m: ApMilp, p: ZPoint)
    requires m.rows == ProductRowsFor(m.edges) && m.edges == m.ePlus + m.eMinus
    requires m.ePlus == PlusEdges(m.aPlus, m.n) && m.eMinus == MinusEdges(m.aPlus, m.aMinus, m.n)
    requires ZFeasible(m.rows, p, m.n, m.edges)
    ensures forall u :: u in ReportOf(p, m.n, m.edges).x ==> Bit(ReportOf(p, m.n, m.edges).x[u])
    ensures forall e :: e in ReportOf(p, m.n, m.edges).z ==>
              (ReportOf(p, m.n, m.edges).z[e] == 1.0 <==> e.0 in Members(p.x, m.n) && e.1 in Members(p.x, m.n))
  {
    FeasibleIff(p, m.n, m.aPlus, m.aMinus);
    EdgesInRange(m.aPlus, m.aMinus, m.n);
    ReportedProducts(p, m.n, m.edges);
    forall u | 0 <= u < m.n
      ensures Bit(At(p.x, u))
    {
    }
  }
}
