/** What the pricing models with product variables share (the edge-only
    variant in Code/utils/ap_milp_2.py, the all-pairs ones in
    Code/utils/ap_milp_with_partition.py and Code/utils/ap_qp.py): a binary
    z_uv tied to x_u * x_v by three rows, the base term over those z, the
    all-zero point, and the reported solution. */
module ProductPricing {
  import opened Sums
  import opened Matrices
  import opened Triangle
  import opened Grid
  import opened Wc
  import opened Pricing

  /** The z variables as a function of the pair. */
  function Zs(p: ZPoint): Edge -> real
  {
    (e: Edge) => Z(p, e)
  }

  /** A 0/1 x over the n vertices with every listed z at the product
      x_u * x_v. */
  ghost predicate ProductShape(p: ZPoint, n: nat, pairs: seq<Edge>)
  {
    |p.x| == n && Binary(p.x) && forall e :: e in pairs ==> e in p.z && p.z[e] == At(p.x, e.0) * At(p.x, e.1)
  }

  /** The product rows and domains of a list of pairs over the vertices hold
      exactly at the product points: every binary x extends, and z is then
      forced. */
  lemma ProductRowsIff(p: ZPoint, n: nat, pairs: seq<Edge>)
    requires forall e :: e in pairs ==> 0 <= e.0 < n && 0 <= e.1 < n
    ensures ZFeasible(ProductRowsFor(pairs), p, n, pairs) <==> ProductShape(p, n, pairs)
  {
    if ZFeasible(ProductRowsFor(pairs), p, n, pairs) {
      ZForced(ProductRowsFor(pairs), p, n, pairs);
    }
    if ProductShape(p, n, pairs) {
      forall e | e in pairs
        ensures Bit(p.z[e]) && ProductRows(At(p.x, e.0), At(p.x, e.1), Z(p, e))
      {
        assert Bit(At(p.x, e.0)) && Bit(At(p.x, e.1));
        ProductForced(At(p.x, e.0), At(p.x, e.1), p.z[e]);
      }
      ProductRowsHold(pairs, p, n);
    }
  }

  lemma ProductRowsSnoc(s: seq<Edge>, e: Edge)
    ensures ProductRowsFor(s + [e]) == ProductRowsFor(s) + ProductRowsOf(e)
  {
    assert (s + [e])[..|s + [e]| - 1] == s;
  }

  /** Every ordered pair of vertices, in the constructor's loop order. */
  function AllPairs(n: nat): seq<Edge>
  {
    GridPairs(Every, n)
  }

  /** The double loop of the all-pairs constructors: the three product rows
      of every ordered pair (u, v), u outer, v inner. */
  method GridProductRows(n: nat) returns (rows: seq<ZRow>)
    ensures rows == ProductRowsFor(AllPairs(n))
  {
    rows := [];
    for u := 0 to n
      invariant rows == ProductRowsFor(GridBelow(Every, n, u))
    {
      assert GridBelow(Every, n, u) + RowPairs(Every, u, 0, 0) == GridBelow(Every, n, u);
      for v := 0 to n
        invariant rows == ProductRowsFor(GridBelow(Every, n, u) + RowPairs(Every, u, 0, v))
      {
        GridGrow(Every, n, u, v);
        ProductRowsSnoc(GridBelow(Every, n, u) + RowPairs(Every, u, 0, v), (u, v));
        rows := rows + ProductRowsOf((u, v));
      }
      GridRowDone(Every, n, u);
    }
  }

  /** At a product point z_uv is the product for every ordered pair. */
  lemma PairIsProduct(p: ZPoint, n: nat, u: int, v: int)
    requires ProductShape(p, n, AllPairs(n)) && 0 <= u < n && 0 <= v < n
    ensures Z(p, (u, v)) == At(p.x, u) * At(p.x, v)
  {
    GridMember(Every, n);
    assert (u, v) in AllPairs(n);
  }

  /** x_u as a function of the vertex. */
  function Xs(p: ZPoint): int -> real
  {
    u => At(p.x, u)
  }

  /** Every pair of the edge lists is an ordered pair of vertices, so the
      all-pairs product shape covers them. */
  lemma GridShapeOnEdges(p: ZPoint, n: nat, aPlus: Matrix, aMinus: Matrix)
    requires ProductShape(p, n, AllPairs(n))
    ensures ProductShape(p, n, PlusEdges(aPlus, n) + MinusEdges(aPlus, aMinus, n))
  {
    GridMember(Every, n);
    EdgeClasses(aPlus, aMinus, n);
  }

  // ---------------------------------------------------------------------
  // The base term
  // ---------------------------------------------------------------------

  /** `base_term` of the product models: 4 * (z over E+) - 2 (1 - lambda)
      * sum D+[u] x_u - 4 * (z over E-) + 2 lambda * sum D-[u] x_u. */
  function ZBaseTerm(p: ZPoint, n: nat, ePlus: seq<Edge>, eMinus: seq<Edge>, dPlus: Vector, dMinus: Vector, lambda: real): real
  {
    BaseShape(SumOf(ePlus, Zs(p)), DegreeProducts(dPlus, p.x, n), SumOf(eMinus, Zs(p)), DegreeProducts(dMinus, p.x, n), lambda)
  }

  /** At a product point the z summed over a list is the number of its pairs
      inside the community. */
  lemma ProductSums(p: ZPoint, n: nat, E: seq<Edge>)
    requires ProductShape(p, n, E)
    ensures SumOf(E, Zs(p)) == EdgeProducts(E, p.x)
  {
    SumOfExt(E, Zs(p), PairProduct(p.x));
  }

  /** At every product point of a signed graph the base term is |C| * w_C,
      the numerator of calc_w_C, for the community C of x. */
  lemma ZBaseAtProducts(p: ZPoint, n: nat, aPlus: Matrix, aMinus: Matrix, dPlus: Vector, dMinus: Vector, lambda: real)
    requires SignedAdjacency(n, aPlus, aMinus)
    requires ProductShape(p, n, PlusEdges(aPlus, n) + MinusEdges(aPlus, aMinus, n))
    ensures ZBaseTerm(p, n, PlusEdges(aPlus, n), MinusEdges(aPlus, aMinus, n), dPlus, dMinus, lambda)
         == Numerator(Members(p.x, n), aPlus, aMinus, dPlus, dMinus, lambda)
  {
    ProductSums(p, n, PlusEdges(aPlus, n));
    ProductSums(p, n, MinusEdges(aPlus, aMinus, n));
    EdgeObjectiveIsNumerator(aPlus, aMinus, dPlus, dMinus, lambda, p.x, n);
  }

  // ---------------------------------------------------------------------
  // The all-zero point
  // ---------------------------------------------------------------------

  /** x = 0 everywhere and every listed z at 0: the empty community. */
  function ZeroPoint(n: nat, pairs: seq<Edge>): (p: ZPoint)
    ensures ProductShape(p, n, pairs) && Members(p.x, n) == []
    ensures forall e :: Z(p, e) == 0.0
  {
    var x := seq(n, u => 0.0);
    NoMembers(x, n);
    ZPoint(x, map e | e in pairs :: 0.0)
  }

  /** Every sum of the objectives vanishes at the zero point. */
  lemma ZeroSums(n: nat, pairs: seq<Edge>, E: seq<Edge>, d: Vector)
    ensures SumOf(E, Zs(ZeroPoint(n, pairs))) == 0.0
    ensures DegreeProducts(d, ZeroPoint(n, pairs).x, n) == 0.0
  {
    var p := ZeroPoint(n, pairs);
    SumOfConst(E, 0.0, Zs(p));
    SumZero(0, n, u => At(d, u) * At(p.x, u));
  }

  /** The base term is 0 at the zero point. */
  lemma ZeroBase(n: nat, pairs: seq<Edge>, ePlus: seq<Edge>, eMinus: seq<Edge>, dPlus: Vector, dMinus: Vector, lambda: real)
    ensures ZBaseTerm(ZeroPoint(n, pairs), n, ePlus, eMinus, dPlus, dMinus, lambda) == 0.0
  {
    ZeroSums(n, pairs, ePlus, dPlus);
    ZeroSums(n, pairs, eMinus, dMinus);
  }

  // ---------------------------------------------------------------------
  // The reported solution
  // ---------------------------------------------------------------------

  /** What the product models' solve methods report: x_u per vertex and z_e
      per reported pair. */
  datatype Report = Report(x: map<int, real>, z: map<Edge, real>)

  /** The report of point p: x_u for u < n, z_e for the pairs in `pairs`. */
  function ReportOf(p: ZPoint, n: nat, pairs: seq<Edge>): (r: Report)
    ensures forall u :: u in r.x <==> 0 <= u < n
    ensures forall e :: e in r.z <==> e in pairs
    ensures forall u :: u in r.x ==> r.x[u] == At(p.x, u)
    ensures forall e :: e in r.z ==> r.z[e] == Z(p, e)
  {
    Report(map u | 0 <= u < n :: At(p.x, u), map e | e in pairs :: Z(p, e))
  }

  /** At a product point each reported z_uv is 1 exactly when both u and v
      are in the reported community. */
  lemma ReportedProducts(p: ZPoint, n: nat, pairs: seq<Edge>)
    requires ProductShape(p, n, pairs)
    requires forall e :: e in pairs ==> 0 <= e.0 < n && 0 <= e.1 < n
    ensures forall e :: e in ReportOf(p, n, pairs).z ==>
              (ReportOf(p, n, pairs).z[e] == 1.0 <==> e.0 in Members(p.x, n) && e.1 in Members(p.x, n))
  {
    forall e | e in pairs
      ensures Z(p, e) == 1.0 <==> e.0 in Members(p.x, n) && e.1 in Members(p.x, n)
    {
      assert Bit(At(p.x, e.0)) && Bit(At(p.x, e.1));
      assert At(p.x, e.0) == p.x[e.0] && At(p.x, e.1) == p.x[e.1];
    }
  }
}
