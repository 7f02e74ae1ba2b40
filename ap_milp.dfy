/** AP_MILP (Code/utils/ap_milp.py): the pricing problem of the column
    generation. A binary x_u picks a community C; the continuous s, alpha_u
    and w_uv linearise s = 1/|C|, alpha_u = s x_u and w_uv = s x_u x_v, so
    that the objective is w_C minus the duals of C's members. The vertices
    are 0..n-1. */
module ApMilp {
  import opened Sums
  import opened Matrices
  import opened Wc
  import opened Pricing
  import opened Results

  /** One `add_constr` of the constructor. */
  datatype Row =
    | ScaleFloor(u: int)             // s - (1 - x_u) <= alpha_u
    | AlphaBelowScale(u: int)        // alpha_u <= s
    | AlphaBelowX(u: int)            // alpha_u <= x_u
    | AlphaTotal                     // sum_u alpha_u == 1
    | WBelowAlpha(e: Edge, end: int) // w_e <= alpha_end
    | WFloor(e: Edge, end: int)      // alpha_end - (2 - x_u - x_v) <= w_e

  /** A candidate assignment of the model's variables. */
  datatype Point = Point(x: Vector, alpha: Vector, s: real, w: map<Edge, real>)

  /** The value of w_e; a pair without a variable reads 0. */
  function W(p: Point, e: Edge): real
  {
    if e in p.w then p.w[e] else 0.0
  }

  /** Total of the first n entries of a vector. */
  function Mass(v: Vector, n: nat): real
  {
    Sum(0, n, u => At(v, u))
  }

  ghost predicate Holds(r: Row, p: Point, n: nat)
  {
    match r
    case ScaleFloor(u) => p.s - (1.0 - At(p.x, u)) <= At(p.alpha, u)
    case AlphaBelowScale(u) => At(p.alpha, u) <= p.s
    case AlphaBelowX(u) => At(p.alpha, u) <= At(p.x, u)
    case AlphaTotal => Mass(p.alpha, n) == 1.0
    case WBelowAlpha(e, end) => W(p, e) <= At(p.alpha, end)
    case WFloor(e, end) => At(p.alpha, end) - (2.0 - At(p.x, e.0) - At(p.x, e.1)) <= W(p, e)
  }

  /** The declared domains: x_u BINARY, alpha_u, s and w_e in [0, 1]. */
  ghost predicate Domain(p: Point, n: nat, E: seq<Edge>)
  {
    && |p.x| == n && |p.alpha| == n && Binary(p.x)
    && (forall u :: 0 <= u < n ==> 0.0 <= p.alpha[u] <= 1.0)
    && 0.0 <= p.s <= 1.0
    && (forall e :: e in E ==> e in p.w && 0.0 <= p.w[e] <= 1.0)
  }

  ghost predicate Feasible(rows: seq<Row>, p: Point, n: nat, E: seq<Edge>)
  {
    Domain(p, n, E) && forall r :: r in rows ==> Holds(r, p, n)
  }

  // ---------------------------------------------------------------------
  // The rows the constructor adds
  // ---------------------------------------------------------------------

  function VertexRows(u: int): seq<Row>
  {
    [ScaleFloor(u), AlphaBelowScale(u), AlphaBelowX(u)]
  }

  /** The three rows of each vertex u < k, vertex after vertex. */
  function VertexRowsBelow(k: int): seq<Row>
    decreases k
  {
    if k <= 0 then [] else VertexRowsBelow(k - 1) + VertexRows(k - 1)
  }

  function EdgeRows(e: Edge): seq<Row>
  {
    [WBelowAlpha(e, e.0), WBelowAlpha(e, e.1), WFloor(e, e.0), WFloor(e, e.1)]
  }

  /** The four rows of each edge of E, edge after edge. */
  function EdgeRowsFor(E: seq<Edge>): seq<Row>
    decreases |E|
  {
    if E == [] then [] else EdgeRowsFor(E[..|E| - 1]) + EdgeRows(E[|E| - 1])
  }

  /** Every row of the model, in the order the constructor adds them. */
  function Rows(n: nat, E: seq<Edge>): seq<Row>
  {
    VertexRowsBelow(n) + [AlphaTotal] + EdgeRowsFor(E)
  }

  lemma {:induction false} VertexRowsPresent(k: int)
    ensures forall u :: 0 <= u < k ==>
              ScaleFloor(u) in VertexRowsBelow(k) && AlphaBelowScale(u) in VertexRowsBelow(k) && AlphaBelowX(u) in VertexRowsBelow(k)
    decreases k
  {
    if k > 0 {
      VertexRowsPresent(k - 1);
      var below, last := VertexRowsBelow(k - 1), VertexRows(k - 1);
      assert VertexRowsBelow(k) == below + last;
      forall u | 0 <= u < k
        ensures ScaleFloor(u) in below + last && AlphaBelowScale(u) in below + last && AlphaBelowX(u) in below + last
      {
        if u == k - 1 {
          assert last[0] == ScaleFloor(u) && last[1] == AlphaBelowScale(u) && last[2] == AlphaBelowX(u);
        }
      }
    }
  }

  lemma {:induction false} VertexRowsOnly(k: int)
    ensures forall r :: r in VertexRowsBelow(k) ==> (r.ScaleFloor? || r.AlphaBelowScale? || r.AlphaBelowX?) && 0 <= r.u < k
    decreases k
  {
    if k > 0 {
      VertexRowsOnly(k - 1);
      assert VertexRowsBelow(k) == VertexRowsBelow(k - 1) + VertexRows(k - 1);
    }
  }

  lemma {:induction false} EdgeRowsMember(E: seq<Edge>)
    ensures forall e :: e in E ==>
              && WBelowAlpha(e, e.0) in EdgeRowsFor(E) && WBelowAlpha(e, e.1) in EdgeRowsFor(E)
              && WFloor(e, e.0) in EdgeRowsFor(E) && WFloor(e, e.1) in EdgeRowsFor(E)
    ensures forall r :: r in EdgeRowsFor(E) ==> (r.WBelowAlpha? || r.WFloor?) && r.e in E && (r.end == r.e.0 || r.end == r.e.1)
    decreases |E|
  {
    if E != [] {
      var init := E[..|E| - 1];
      EdgeRowsMember(init);
      assert E == init + [E[|E| - 1]];
    }
  }

  /** The model holds exactly these rows: three per vertex u < n, the total,
      and four per edge of E. */
  lemma RowsMember(n: nat, E: seq<Edge>)
    ensures forall u :: 0 <= u < n ==>
              ScaleFloor(u) in Rows(n, E) && AlphaBelowScale(u) in Rows(n, E) && AlphaBelowX(u) in Rows(n, E)
    ensures AlphaTotal in Rows(n, E)
    ensures forall e :: e in E ==>
              && WBelowAlpha(e, e.0) in Rows(n, E) && WBelowAlpha(e, e.1) in Rows(n, E)
              && WFloor(e, e.0) in Rows(n, E) && WFloor(e, e.1) in Rows(n, E)
    ensures forall r :: r in Rows(n, E) ==>
              || ((r.ScaleFloor? || r.AlphaBelowScale? || r.AlphaBelowX?) && 0 <= r.u < n)
              || r.AlphaTotal?
              || ((r.WBelowAlpha? || r.WFloor?) && r.e in E && (r.end == r.e.0 || r.end == r.e.1))
  {
    VertexRowsPresent(n);
    VertexRowsOnly(n);
    EdgeRowsMember(E);
  }

  // ---------------------------------------------------------------------
  // What a feasible point looks like
  // ---------------------------------------------------------------------

  /** s at a member of the community x picks, 0 elsewhere. */
  function OnMembers(x: Vector, s: real, u: int): real
  {
    if At(x, u) == 1.0 then s else 0.0
  }

  /** s at a pair whose two ends are members, 0 elsewhere. */
  function OnPair(x: Vector, s: real, e: Edge): real
  {
    if At(x, e.0) == 1.0 && At(x, e.1) == 1.0 then s else 0.0
  }

  /** The shape the rows force: alpha is s on the community of x and 0
      elsewhere, so is w on the pairs of E, and alpha sums to 1. */
  ghost predicate LiftShape(p: Point, n: nat, E: seq<Edge>)
  {
    && |p.x| == n && Binary(p.x) && |p.alpha| == n
    && 0.0 <= p.s <= 1.0 && Mass(p.alpha, n) == 1.0
    && (forall u :: At(p.alpha, u) == OnMembers(p.x, p.s, u))
    && (forall e :: e in E ==> e in p.w && W(p, e) == OnPair(p.x, p.s, e))
  }

  lemma VertexRowsHold(p: Point, n: nat, E: seq<Edge>, u: int)
    requires Feasible(Rows(n, E), p, n, E) && 0 <= u < n
    ensures Holds(ScaleFloor(u), p, n) && Holds(AlphaBelowScale(u), p, n) && Holds(AlphaBelowX(u), p, n)
  {
    RowsMember(n, E);
  }

  /** x_u = 1 forces alpha_u = s and x_u = 0 forces alpha_u = 0 (outside
      the vertices both read 0). */
  lemma AlphaForced(p: Point, n: nat, E: seq<Edge>)
    requires Feasible(Rows(n, E), p, n, E)
    ensures forall u :: At(p.alpha, u) == OnMembers(p.x, p.s, u)
  {
    forall u
      ensures At(p.alpha, u) == OnMembers(p.x, p.s, u)
    {
      if 0 <= u < n {
        VertexRowsHold(p, n, E, u);
      }
    }
  }

  lemma TotalHolds(p: Point, n: nat, E: seq<Edge>)
    requires Feasible(Rows(n, E), p, n, E)
    ensures Mass(p.alpha, n) == 1.0
  {
    RowsMember(n, E);
    assert Holds(AlphaTotal, p, n);
  }

  lemma EdgeRowsHold(p: Point, n: nat, E: seq<Edge>, e: Edge)
    requires Feasible(Rows(n, E), p, n, E) && e in E
    ensures Holds(WBelowAlpha(e, e.0), p, n) && Holds(WBelowAlpha(e, e.1), p, n)
    ensures Holds(WFloor(e, e.0), p, n) && Holds(WFloor(e, e.1), p, n)
    ensures e in p.w && 0.0 <= p.w[e]
  {
    RowsMember(n, E);
  }

  /** w_e = s when both ends are in the community and 0 otherwise. */
  lemma WForced(p: Point, n: nat, E: seq<Edge>)
    requires Feasible(Rows(n, E), p, n, E)
    ensures forall e :: e in E ==> e in p.w && W(p, e) == OnPair(p.x, p.s, e)
  {
    AlphaForced(p, n, E);
    forall e | e in E
      ensures e in p.w && W(p, e) == OnPair(p.x, p.s, e)
    {
      EdgeRowsHold(p, n, E, e);
      assert Bit(At(p.x, e.0)) && Bit(At(p.x, e.1));
      assert At(p.alpha, e.0) == OnMembers(p.x, p.s, e.0) && At(p.alpha, e.1) == OnMembers(p.x, p.s, e.1);
    }
  }

  /** The rows force the shape ... */
  lemma FeasibleShape(p: Point, n: nat, E: seq<Edge>)
    requires Feasible(Rows(n, E), p, n, E)
    ensures LiftShape(p, n, E)
  {
    TotalHolds(p, n, E);
    AlphaForced(p, n, E);
    WForced(p, n, E);
  }

  lemma ShapeDomain(p: Point, n: nat, E: seq<Edge>)
    requires LiftShape(p, n, E)
    ensures Domain(p, n, E)
  {
    forall u | 0 <= u < n
      ensures 0.0 <= p.alpha[u] <= 1.0
    {
      assert p.alpha[u] == At(p.alpha, u);
    }
    forall e | e in E
      ensures 0.0 <= p.w[e] <= 1.0
    {
      assert p.w[e] == W(p, e);
    }
  }

  lemma ShapeEdgeRow(p: Point, n: nat, E: seq<Edge>, r: Row)
    requires LiftShape(p, n, E)
    requires (r.WBelowAlpha? || r.WFloor?) && r.e in E && (r.end == r.e.0 || r.end == r.e.1)
    ensures Holds(r, p, n)
  {
    assert Bit(At(p.x, r.e.0)) && Bit(At(p.x, r.e.1));
    assert W(p, r.e) == OnPair(p.x, p.s, r.e);
    assert At(p.alpha, r.e.0) == OnMembers(p.x, p.s, r.e.0) && At(p.alpha, r.e.1) == OnMembers(p.x, p.s, r.e.1);
  }

  /** ... and the shape satisfies every row: the feasible points are exactly
      the points of this shape. */
  lemma ShapeFeasible(p: Point, n: nat, E: seq<Edge>)
    requires LiftShape(p, n, E)
    ensures Feasible(Rows(n, E), p, n, E)
  {
    ShapeDomain(p, n, E);
    RowsMember(n, E);
    forall r | r in Rows(n, E)
      ensures Holds(r, p, n)
    {
      if r.WBelowAlpha? || r.WFloor? {
        ShapeEdgeRow(p, n, E, r);
      } else if !r.AlphaTotal? {
        assert Bit(At(p.x, r.u)) && At(p.alpha, r.u) == OnMembers(p.x, p.s, r.u);
      }
    }
  }

  // ---------------------------------------------------------------------
  // The scale s = 1/|C|
  // ---------------------------------------------------------------------

  /** A 0/1 value a picks s or 0 exactly as s * a does. */
  lemma PickIsProduct(s: real, a: real, v: real)
    requires Bit(a) && v == (if a == 1.0 then s else 0.0)
    ensures v == s * a
  {
  }

  /** alpha = s on the members and 0 elsewhere makes the mass of alpha s
      times the mass of x. */
  lemma ScaledMass(alpha: Vector, x: Vector, s: real, n: nat)
    requires Binary(x)
    requires forall u :: At(alpha, u) == OnMembers(x, s, u)
    ensures Mass(alpha, n) == s * Mass(x, n)
  {
    forall u | 0 <= u < n
      ensures At(alpha, u) == s * At(x, u)
    {
      PickIsProduct(s, At(x, u), At(alpha, u));
    }
    SumScale(0, n, s, u => At(x, u), u => At(alpha, u));
  }

  /** sum_u alpha_u = 1 with alpha = s on the members forces s * |C| = 1,
      |C| being the mass of x. */
  lemma ScaleTimesMass(alpha: Vector, x: Vector, s: real, n: nat)
    requires |x| == n && Binary(x) && Mass(alpha, n) == 1.0
    requires forall u :: At(alpha, u) == OnMembers(x, s, u)
    ensures Times(s, Mass(x, n)) == 1.0
  {
    ScaledMass(alpha, x, s, n);
  }

  /** The arithmetic of MassIsSize, over plain numbers. */
  lemma CountPositive(s: real, size: real, k: int)
    requires s * size == 1.0 && size == k as real && k >= 0
    ensures 0.0 < s && k >= 1
  {
    assert size == 0.0 ==> s * size == 0.0;
  }

  /** The mass of a 0/1 vector is the size of its community, which s * |C| = 1
      makes non-zero. */
  lemma MassIsSize(x: Vector, s: real, n: nat)
    requires |x| == n && Binary(x) && Times(s, Mass(x, n)) == 1.0
    ensures Mass(x, n) == |Members(x, n)| as real && 0.0 < s && |Members(x, n)| >= 1
  {
    MembersCount(x, n);
    CountPositive(s, Mass(x, n), |Members(x, n)|);
  }

  /** So at every point of the shape s = 1/|C| and C is not empty: the
      all-zero x is infeasible. */
  lemma ShapeScale(p: Point, n: nat, E: seq<Edge>)
    requires LiftShape(p, n, E)
    ensures Mass(p.x, n) == |Members(p.x, n)| as real
    ensures Times(p.s, Mass(p.x, n)) == 1.0 && 0.0 < p.s && |Members(p.x, n)| >= 1
  {
    ScaleTimesMass(p.alpha, p.x, p.s, n);
    MassIsSize(p.x, p.s, n);
  }

  /** The same for a point given as feasible. */
  lemma ScaleForced(p: Point, n: nat, E: seq<Edge>)
    requires Feasible(Rows(n, E), p, n, E)
    ensures Mass(p.x, n) == |Members(p.x, n)| as real
    ensures Times(p.s, Mass(p.x, n)) == 1.0 && |Members(p.x, n)| >= 1
  {
    FeasibleShape(p, n, E);
    ShapeScale(p, n, E);
  }

  lemma Reciprocal(m: real)
    requires m >= 1.0
    ensures 0.0 < 1.0 / m <= 1.0 && (1.0 / m) * m == 1.0
  {
  }

  /** The point a community determines. */
  function Lift(x: Vector, n: nat, E: seq<Edge>): (p: Point)
    requires |x| == n && Binary(x) && |Members(x, n)| >= 1
    ensures p.x == x && LiftShape(p, n, E)
  {
    MembersCount(x, n);
    Reciprocal(Mass(x, n));
    var s := 1.0 / Mass(x, n);
    var p := Point(x, seq(n, u requires 0 <= u < n => OnMembers(x, s, u)), s, map e | e in E :: OnPair(x, s, e));
    ScaledMass(p.alpha, x, s, n);
    p
  }

  /** Every binary x with a member extends to a feasible point ... */
  lemma LiftFeasible(x: Vector, n: nat, E: seq<Edge>)
    requires |x| == n && Binary(x) && |Members(x, n)| >= 1
    ensures Feasible(Rows(n, E), Lift(x, n, E), n, E)
  {
    ShapeFeasible(Lift(x, n, E), n, E);
  }

  /** Two numbers whose products with the same m are 1 are equal. */
  lemma SameInverse(s: real, t: real, m: real, m': real)
    requires s * m == 1.0 && t * m' == 1.0 && m == m'
    ensures s == t
  {
    assert t * m == 1.0;
    calc {
      s;
      s * (t * m);
      (s * m) * t;
      t;
    }
  }

  /** The shape fixes every variable once x is fixed. */
  lemma ShapeUnique(p: Point, q: Point, n: nat, E: seq<Edge>)
    requires LiftShape(p, n, E) && LiftShape(q, n, E) && p.x == q.x
    ensures p.s == q.s && p.alpha == q.alpha
    ensures forall e :: e in E ==> W(p, e) == W(q, e)
  {
    ShapeScale(p, n, E);
    ShapeScale(q, n, E);
    SameInverse(p.s, q.s, Mass(p.x, n), Mass(q.x, n));
    forall u | 0 <= u < n
      ensures p.alpha[u] == q.alpha[u]
    {
      assert At(p.alpha, u) == OnMembers(p.x, p.s, u) && At(q.alpha, u) == OnMembers(q.x, q.s, u);
    }
  }

  /** ... and to no other: a feasible point is the lift of its own x. */
  lemma LiftUnique(p: Point, n: nat, E: seq<Edge>)
    requires Feasible(Rows(n, E), p, n, E)
    ensures |Members(p.x, n)| >= 1 && p == Lift(p.x, n, E).(w := p.w)
    ensures forall e :: e in E ==> W(p, e) == W(Lift(p.x, n, E), e)
  {
    ScaleForced(p, n, E);
    FeasibleShape(p, n, E);
    ShapeUnique(p, Lift(p.x, n, E), n, E);
  }

  // ---------------------------------------------------------------------
  // The objective
  // ---------------------------------------------------------------------

  /** The w variables as a function of the pair. */
  function Weights(p: Point): Edge -> real
  {
    (e: Edge) => W(p, e)
  }

  /** `base_term`: 4 sum_{E+} w - 2 (1 - lambda) sum D+[u] alpha_u
      - 4 sum_{E-} w + 2 lambda sum D-[u] alpha_u. */
  function BaseTerm(p: Point, n: nat, ePlus: seq<Edge>, eMinus: seq<Edge>, dPlus: Vector, dMinus: Vector, lambda: real): real
  {
    BaseShape(SumOf(ePlus, Weights(p)), DegreeProducts(dPlus, p.alpha, n),
              SumOf(eMinus, Weights(p)), DegreeProducts(dMinus, p.alpha, n), lambda)
  }

  /** The dual term of `add_lps_dual_sol`: - sum_u y_u x_u. */
  function DualTerm(y: map<int, real>, p: Point, n: nat): real
  {
    - Sum(0, n, u => Dual(y, u) * At(p.x, u))
  }

  /** Scaling every part of the base shape by s scales it by s. */
  lemma BaseShapeScale(s: real, a: real, b: real, c: real, d: real, lambda: real)
    ensures BaseShape(Times(s, a), Times(s, b), Times(s, c), Times(s, d), lambda) == Times(s, BaseShape(a, b, c, d, lambda))
  {
  }

  /** w = s on the pairs inside C makes each edge sum s times the number of
      those pairs. */
  lemma WeightsScaled(p: Point, E: seq<Edge>)
    requires Binary(p.x) && forall e :: e in E ==> W(p, e) == OnPair(p.x, p.s, e)
    ensures SumOf(E, Weights(p)) == Times(p.s, EdgeProducts(E, p.x))
  {
    forall e | e in E
      ensures W(p, e) == p.s * (At(p.x, e.0) * At(p.x, e.1))
    {
      PairIsProduct(p.s, At(p.x, e.0), At(p.x, e.1), W(p, e));
    }
    SumOfScale(E, p.s, PairProduct(p.x), Weights(p));
  }

  lemma PairIsProduct(s: real, a: real, b: real, v: real)
    requires Bit(a) && Bit(b) && v == (if a == 1.0 && b == 1.0 then s else 0.0)
    ensures v == s * (a * b)
  {
  }

  lemma DegreeIsProduct(g: real, s: real, a: real, v: real)
    requires Bit(a) && v == (if a == 1.0 then s else 0.0)
    ensures g * v == s * (g * a)
  {
  }

  /** alpha = s on C makes each degree sum s times the degree sum over C. */
  lemma DegreesScaled(p: Point, d: Vector, n: nat)
    requires Binary(p.x) && forall u :: At(p.alpha, u) == OnMembers(p.x, p.s, u)
    ensures DegreeProducts(d, p.alpha, n) == Times(p.s, DegreeProducts(d, p.x, n))
  {
    forall u | 0 <= u < n
      ensures At(d, u) * At(p.alpha, u) == p.s * (At(d, u) * At(p.x, u))
    {
      DegreeIsProduct(At(d, u), p.s, At(p.x, u), At(p.alpha, u));
    }
    SumScale(0, n, p.s, u => At(d, u) * At(p.x, u), u => At(d, u) * At(p.alpha, u));
  }

  /** Both edge sums of the base term, scaled. */
  lemma EdgeSumsScaled(p: Point, ePlus: seq<Edge>, eMinus: seq<Edge>)
    requires Binary(p.x) && forall e :: e in ePlus + eMinus ==> W(p, e) == OnPair(p.x, p.s, e)
    ensures SumOf(ePlus, Weights(p)) == Times(p.s, EdgeProducts(ePlus, p.x))
    ensures SumOf(eMinus, Weights(p)) == Times(p.s, EdgeProducts(eMinus, p.x))
  {
    WeightsScaled(p, ePlus);
    WeightsScaled(p, eMinus);
  }

  /** Both degree sums of the base term, scaled. */
  lemma DegreeSumsScaled(p: Point, n: nat, dPlus: Vector, dMinus: Vector)
    requires Binary(p.x) && forall u :: At(p.alpha, u) == OnMembers(p.x, p.s, u)
    ensures DegreeProducts(dPlus, p.alpha, n) == Times(p.s, DegreeProducts(dPlus, p.x, n))
    ensures DegreeProducts(dMinus, p.alpha, n) == Times(p.s, DegreeProducts(dMinus, p.x, n))
  {
    DegreesScaled(p, dPlus, n);
    DegreesScaled(p, dMinus, n);
  }

  /** At a feasible point every variable of the base term is s times its
      0/1 value, so the base term is s times the graph terms of x. */
  lemma BaseAtFeasible(p: Point, n: nat, aPlus: Matrix, aMinus: Matrix, dPlus: Vector, dMinus: Vector, lambda: real)
    requires LiftShape(p, n, PlusEdges(aPlus, n) + MinusEdges(aPlus, aMinus, n))
    ensures BaseTerm(p, n, PlusEdges(aPlus, n), MinusEdges(aPlus, aMinus, n), dPlus, dMinus, lambda)
         == Times(p.s, EdgeObjective(aPlus, aMinus, dPlus, dMinus, lambda, p.x, n))
  {
    var ePlus, eMinus := PlusEdges(aPlus, n), MinusEdges(aPlus, aMinus, n);
    EdgeSumsScaled(p, ePlus, eMinus);
    DegreeSumsScaled(p, n, dPlus, dMinus);
    BaseShapeScale(p.s, EdgeProducts(ePlus, p.x), DegreeProducts(dPlus, p.x, n),
                   EdgeProducts(eMinus, p.x), DegreeProducts(dMinus, p.x, n), lambda);
  }

  /** The arithmetic step of ObjectiveAtFeasible, over plain numbers. */
  lemma ScaledNumerator(base: real, s: real, objective: real, mass: real, size: real, w: real, numerator: real)
    requires base == Times(s, objective) && objective == numerator
    requires Times(s, mass) == 1.0 && mass == size && Times(w, size) == numerator
    ensures base == w
  {
    calc {
      base;
      s * (w * size);
      (s * size) * w;
      w;
    }
  }

  /** The dual term at a 0/1 vector: minus the duals of C's members. */
  lemma DualAtBinary(y: map<int, real>, p: Point, n: nat)
    requires n <= |p.x| && Binary(p.x)
    ensures DualTerm(y, p, n) == - SumOf(Members(p.x, n), u => Dual(y, u))
  {
    WeightedOverMembers(p.x, n, u => Dual(y, u), u => Dual(y, u) * At(p.x, u));
  }

  /** At every point of the shape the base term is w_C for the community C
      of x. */
  lemma BaseAtShape(p: Point, n: nat, aPlus: Matrix, aMinus: Matrix, dPlus: Vector, dMinus: Vector, lambda: real)
    requires SignedAdjacency(n, aPlus, aMinus)
    requires LiftShape(p, n, PlusEdges(aPlus, n) + MinusEdges(aPlus, aMinus, n))
    ensures |Members(p.x, n)| >= 1
    ensures BaseTerm(p, n, PlusEdges(aPlus, n), MinusEdges(aPlus, aMinus, n), dPlus, dMinus, lambda)
         == CalcWC(Members(p.x, n), aPlus, aMinus, dPlus, dMinus, lambda)
  {
    var C := Members(p.x, n);
    ShapeScale(p, n, PlusEdges(aPlus, n) + MinusEdges(aPlus, aMinus, n));
    BaseAtFeasible(p, n, aPlus, aMinus, dPlus, dMinus, lambda);
    EdgeObjectiveIsNumerator(aPlus, aMinus, dPlus, dMinus, lambda, p.x, n);
    WeightTimesSize(C, aPlus, aMinus, dPlus, dMinus, lambda);
    ScaledNumerator(BaseTerm(p, n, PlusEdges(aPlus, n), MinusEdges(aPlus, aMinus, n), dPlus, dMinus, lambda),
                    p.s, EdgeObjective(aPlus, aMinus, dPlus, dMinus, lambda, p.x, n), Mass(p.x, n), |C| as real,
                    CalcWC(C, aPlus, aMinus, dPlus, dMinus, lambda), Numerator(C, aPlus, aMinus, dPlus, dMinus, lambda));
  }

  /** At every feasible point of a signed graph the objective is the reduced
      cost of the community C of x: w_C minus the duals of C's members. */
  lemma ObjectiveAtFeasible(p: Point, n: nat, aPlus: Matrix, aMinus: Matrix, dPlus: Vector, dMinus: Vector, lambda: real,
                            y: map<int, real>)
    requires SignedAdjacency(n, aPlus, aMinus)
    requires Feasible(Rows(n, PlusEdges(aPlus, n) + MinusEdges(aPlus, aMinus, n)), p, n, PlusEdges(aPlus, n) + MinusEdges(aPlus, aMinus, n))
    ensures |Members(p.x, n)| >= 1
    ensures BaseTerm(p, n, PlusEdges(aPlus, n), MinusEdges(aPlus, aMinus, n), dPlus, dMinus, lambda) + DualTerm(y, p, n)
         == CalcWC(Members(p.x, n), aPlus, aMinus, dPlus, dMinus, lambda) - SumOf(Members(p.x, n), u => Dual(y, u))
  {
    FeasibleShape(p, n, PlusEdges(aPlus, n) + MinusEdges(aPlus, aMinus, n));
    BaseAtShape(p, n, aPlus, aMinus, dPlus, dMinus, lambda);
    DualAtBinary(y, p, n);
  }

  // ---------------------------------------------------------------------
  // The class
  // ---------------------------------------------------------------------

  /** What `solve_ap_milp` reports: x_u and alpha_u per vertex, s, and w_e
      per edge of E. */
  datatype Report = Report(x: map<int, real>, alpha: map<int, real>, s: real, w: map<Edge, real>)

  class ApMilp {
    const n: nat
    const aPlus: Matrix
    const aMinus: Matrix
    const dPlus: Vector
    const dMinus: Vector
    const lambda: real
    const ePlus: seq<Edge>
    const eMinus: seq<Edge>
    const edges: seq<Edge>
    /** The constraints; no method changes them after construction. */
    const rows: seq<Row>
    /** The duals of the objective `add_lps_dual_sol` set last; None while
        the model has no objective. */
    var duals: Option<map<int, real>>
    var apMilpOpt: real
    var apMilpSol: Option<Report>

    /** `AP_MILP(vertices, A_plus, A_minus, D_plus, D_minus, lambda_val)`
        with vertices = 0..n-1. */
    constructor (n: nat, aPlus: Matrix, aMinus: Matrix, dPlus: Vector, dMinus: Vector, lambda: real)
      requires IsSquare(aPlus, n) && IsSquare(aMinus, n)
      ensures this.n == n && this.aPlus == aPlus && this.aMinus == aMinus
      ensures this.dPlus == dPlus && this.dMinus == dMinus && this.lambda == lambda
      ensures ePlus == PlusEdges(aPlus, n) && eMinus == MinusEdges(aPlus, aMinus, n) && edges == ePlus + eMinus
      ensures rows == Rows(n, edges)
      ensures duals == None && apMilpSol == None
    {
      this.n, this.aPlus, this.aMinus := n, aPlus, aMinus;
      this.dPlus, this.dMinus, this.lambda := dPlus, dMinus, lambda;
      var ep, em := ClassifyEdges(aPlus, aMinus, n);
      ePlus, eMinus, edges := ep, em, ep + em;
      var rs: seq<Row> := [];
      for u := 0 to n
        invariant rs == VertexRowsBelow(u)
      {
        rs := rs + VertexRows(u);
      }
      rs := rs + [AlphaTotal];
      var E := ep + em;
      for i := 0 to |E|
        invariant rs == VertexRowsBelow(n) + [AlphaTotal] + EdgeRowsFor(E[..i])
      {
        assert E[..i + 1][..i] == E[..i];
        rs := rs + EdgeRows(E[i]);
      }
      assert E[..|E|] == E;
      rows := rs;
      duals, apMilpOpt, apMilpSol := None, 0.0, None;
    }

    /** The objective the model maximises, once duals are set. */
    function Objective(p: Point): real
      reads this
      requires duals.Some?
    {
      BaseTerm(p, n, ePlus, eMinus, dPlus, dMinus, lambda) + DualTerm(duals.value, p, n)
    }

    /** `add_lps_dual_sol(y)`: the objective becomes base_term - sum y_u x_u;
        whatever duals it held before leave no trace. A vertex without a
        dual would raise KeyError. */
    method AddLpsDualSol(y: map<int, real>)
      requires forall u :: 0 <= u < n ==> u in y
      modifies this`duals
      ensures duals == Some(y)
    {
      duals := Some(y);
    }

    /** `solve_ap_milp()`. The solver is not modelled: its optimum and the
        point it found are the inputs. */
    method SolveApMilp(opt: real, p: Point) returns (value: real, report: Report)
      modifies this`apMilpOpt, this`apMilpSol
      ensures value == opt && apMilpOpt == opt && apMilpSol == Some(report)
      ensures forall u :: u in report.x <==> 0 <= u < n
      ensures forall u :: u in report.alpha <==> 0 <= u < n
      ensures forall u :: u in report.x ==> report.x[u] == At(p.x, u) && report.alpha[u] == At(p.alpha, u)
      ensures report.s == p.s
      ensures forall e :: e in report.w <==> e in edges
      ensures forall e :: e in report.w ==> report.w[e] == W(p, e)
    {
      report := Report(map u | 0 <= u < n :: At(p.x, u), map u | 0 <= u < n :: At(p.alpha, u), p.s,
                       map e | e in edges :: W(p, e));
      apMilpOpt, apMilpSol := opt, Some(report);
      value := opt;
    }
  }

  /** What the reported solution means: for a signed graph and a feasible
      point, each reported w_uv is the reported s exactly when both ends are
      in the community of x, and 0 otherwise. (The objective at such a
      point is the reduced cost, by ObjectiveAtFeasible.) */
  lemma ReportMeaning(m: ApMilp, p: Point, report: Report)
    requires m.rows == Rows(m.n, m.edges) && m.edges == m.ePlus + m.eMinus
    requires m.ePlus == PlusEdges(m.aPlus, m.n) && m.eMinus == MinusEdges(m.aPlus, m.aMinus, m.n)
    requires SignedAdjacency(m.n, m.aPlus, m.aMinus) && Feasible(m.rows, p, m.n, m.edges)
    requires report.s == p.s && (forall e :: e in report.w ==> e in m.edges && report.w[e] == W(p, e))
    ensures forall e :: e in report.w ==>
              report.w[e] == (if e.0 in Members(p.x, m.n) && e.1 in Members(p.x, m.n) then report.s else 0.0)
  {
    WForced(p, m.n, m.edges);
    EdgeClasses(m.aPlus, m.aMinus, m.n);
    forall e | e in report.w
      ensures report.w[e] == (if e.0 in Members(p.x, m.n) && e.1 in Members(p.x, m.n) then report.s else 0.0)
    {
      assert e in m.edges;
      assert 0 <= e.0 < m.n && 0 <= e.1 < m.n;
    }
  }
}
