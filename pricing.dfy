/** What the pricing models (AP_MILP, AP_MILPWithPartition, the edge-only and
    the all-pairs variants) share: the split of the vertex pairs into positive
    and negative edges, the three rows that tie a product variable to two
    binary variables, and the bridge from sums over edges to the block sums
    of the community weight w_C. */
module Pricing {
  import opened Sums
  import opened Matrices
  import opened Triangle
  import opened Wc

  /** A vertex pair (u, v); the edge lists hold pairs with u < v. */
  type Edge = (int, int)

  // ---------------------------------------------------------------------
  // Edge classification
  // ---------------------------------------------------------------------

  /** A pair is a positive edge when A+[i, j] == 1. */
  function PlusKeep(aPlus: Matrix): (int, int) -> bool
  {
    (i, j) => Entry(aPlus, i, j) == 1.0
  }

  /** A pair is a negative edge when it is not positive and A-[i, j] == 1
      (the `elif` of the classification loop). */
  function MinusKeep(aPlus: Matrix, aMinus: Matrix): (int, int) -> bool
  {
    (i, j) => Entry(aPlus, i, j) != 1.0 && Entry(aMinus, i, j) == 1.0
  }

  function PlusEdges(aPlus: Matrix, n: nat): seq<Edge>
  {
    Pairs(PlusKeep(aPlus), n)
  }

  function MinusEdges(aPlus: Matrix, aMinus: Matrix, n: nat): seq<Edge>
  {
    Pairs(MinusKeep(aPlus, aMinus), n)
  }

  /** The classification loop every pricing constructor starts with: for
      i < j < n, a pair goes to E+ when A+[i, j] == 1, else to E- when
      A-[i, j] == 1, else nowhere. */
  method ClassifyEdges(aPlus: Matrix, aMinus: Matrix, n: nat) returns (ePlus: seq<Edge>, eMinus: seq<Edge>)
    requires IsSquare(aPlus, n) && IsSquare(aMinus, n)
    ensures ePlus == PlusEdges(aPlus, n) && eMinus == MinusEdges(aPlus, aMinus, n)
  {
    ePlus, eMinus := [], [];
    for i := 0 to n
      invariant ePlus == PairsBelow(PlusKeep(aPlus), n, i)
      invariant eMinus == PairsBelow(MinusKeep(aPlus, aMinus), n, i)
    {
      for j := i + 1 to n
        invariant ePlus == PairsBelow(PlusKeep(aPlus), n, i) + RowPairs(PlusKeep(aPlus), i, i + 1, j)
        invariant eMinus == PairsBelow(MinusKeep(aPlus, aMinus), n, i) + RowPairs(MinusKeep(aPlus, aMinus), i, i + 1, j)
      {
        RowPairsGrow(PlusKeep(aPlus), PairsBelow(PlusKeep(aPlus), n, i), i, i + 1, j, ePlus);
        RowPairsGrow(MinusKeep(aPlus, aMinus), PairsBelow(MinusKeep(aPlus, aMinus), n, i), i, i + 1, j, eMinus);
        ePlus, eMinus := ClassifyPair(aPlus, aMinus, n, i, j, ePlus, eMinus);
      }
    }
  }

  /** The body of the classification loop for the pair (i, j). */
  method ClassifyPair(aPlus: Matrix, aMinus: Matrix, n: nat, i: int, j: int, ePlus: seq<Edge>, eMinus: seq<Edge>)
    returns (ePlus': seq<Edge>, eMinus': seq<Edge>)
    requires IsSquare(aPlus, n) && IsSquare(aMinus, n) && 0 <= i < n && 0 <= j < n
    ensures ePlus' == ePlus + (if PlusKeep(aPlus)(i, j) then [(i, j)] else [])
    ensures eMinus' == eMinus + (if MinusKeep(aPlus, aMinus)(i, j) then [(i, j)] else [])
  {
    ePlus', eMinus' := ePlus, eMinus;
    if aPlus[i][j] == 1.0 {
      ePlus' := ePlus + [(i, j)];
    } else if aMinus[i][j] == 1.0 {
      eMinus' := eMinus + [(i, j)];
    }
  }

  /** E+ holds exactly the pairs i < j < n with A+[i, j] == 1, E- exactly
      those with A+[i, j] != 1 and A-[i, j] == 1; both lists are strictly
      increasing in lexicographic order, and no pair is in both. */
  lemma EdgeClasses(aPlus: Matrix, aMinus: Matrix, n: nat)
    ensures forall e :: e in PlusEdges(aPlus, n) <==> 0 <= e.0 < e.1 < n && Entry(aPlus, e.0, e.1) == 1.0
    ensures forall e :: e in MinusEdges(aPlus, aMinus, n)
                    <==> 0 <= e.0 < e.1 < n && Entry(aPlus, e.0, e.1) != 1.0 && Entry(aMinus, e.0, e.1) == 1.0
    ensures Increasing(PlusEdges(aPlus, n)) && Increasing(MinusEdges(aPlus, aMinus, n))
    ensures forall e :: !(e in PlusEdges(aPlus, n) && e in MinusEdges(aPlus, aMinus, n))
  {
    PairsMember(PlusKeep(aPlus), n);
    PairsMember(MinusKeep(aPlus, aMinus), n);
    PairsIncreasing(PlusKeep(aPlus), n);
    PairsIncreasing(MinusKeep(aPlus, aMinus), n);
  }

  /** For a signed adjacency, the `elif` changes nothing: E- is exactly the
      pairs with A-[i, j] == 1. */
  lemma MinusKeepSigned(aPlus: Matrix, aMinus: Matrix, n: nat)
    requires SignedAdjacency(n, aPlus, aMinus)
    ensures forall i, j :: 0 <= i < j < n ==> (MinusKeep(aPlus, aMinus)(i, j) <==> Entry(aMinus, i, j) == 1.0)
  {
  }

  // ---------------------------------------------------------------------
  // Product rows
  // ---------------------------------------------------------------------

  predicate Bit(r: real)
  {
    r == 0.0 || r == 1.0
  }

  /** The three rows x_u + x_v <= 1 + z, x_u >= z, x_v >= z. */
  predicate ProductRows(xu: real, xv: real, z: real)
  {
    xu + xv <= 1.0 + z && xu >= z && xv >= z
  }

  /** On 0/1 values the three rows hold exactly when z = x_u * x_v. */
  lemma ProductForced(xu: real, xv: real, z: real)
    requires Bit(xu) && Bit(xv) && Bit(z)
    ensures ProductRows(xu, xv, z) <==> z == xu * xv
  {
  }

  /** A row of the z-product pricing models: one of the three product rows of
      a pair, or the cardinality row sum_u x_u == k. */
  datatype ZRow =
    | PairFloor(e: Edge)
    | BelowFirst(e: Edge)
    | BelowSecond(e: Edge)
    | Cardinality(k: int)

  /** A candidate assignment: x per vertex and z per pair. */
  datatype ZPoint = ZPoint(x: Vector, z: map<Edge, real>)

  /** The value of z_e; a pair without a variable reads 0. */
  function Z(p: ZPoint, e: Edge): real
  {
    if e in p.z then p.z[e] else 0.0
  }

  ghost predicate ZHolds(r: ZRow, p: ZPoint, n: nat)
  {
    match r
    case PairFloor(e) => At(p.x, e.0) + At(p.x, e.1) <= 1.0 + Z(p, e)
    case BelowFirst(e) => At(p.x, e.0) >= Z(p, e)
    case BelowSecond(e) => At(p.x, e.1) >= Z(p, e)
    case Cardinality(k) => Sum(0, n, u => At(p.x, u)) == k as real
  }

  /** The declared domains: x_u BINARY for every vertex, z BINARY for every
      pair that has a variable. */
  ghost predicate ZDomain(p: ZPoint, n: nat, pairs: seq<Edge>)
  {
    |p.x| == n && Binary(p.x) && forall e :: e in pairs ==> e in p.z && Bit(p.z[e])
  }

  ghost predicate ZFeasible(rows: seq<ZRow>, p: ZPoint, n: nat, pairs: seq<Edge>)
  {
    ZDomain(p, n, pairs) && forall r :: r in rows ==> ZHolds(r, p, n)
  }

  function ProductRowsOf(e: Edge): seq<ZRow>
  {
    [PairFloor(e), BelowFirst(e), BelowSecond(e)]
  }

  /** The rows the constructors add, three per pair, pair after pair. */
  function ProductRowsFor(pairs: seq<Edge>): seq<ZRow>
    decreases |pairs|
  {
    if pairs == [] then [] else ProductRowsFor(pairs[..|pairs| - 1]) + ProductRowsOf(pairs[|pairs| - 1])
  }

  /** The product rows are exactly the three rows of each pair. */
  lemma {:induction false} ProductRowsMember(pairs: seq<Edge>)
    ensures forall e :: e in pairs ==>
              PairFloor(e) in ProductRowsFor(pairs) && BelowFirst(e) in ProductRowsFor(pairs) && BelowSecond(e) in ProductRowsFor(pairs)
    ensures forall r :: r in ProductRowsFor(pairs) ==> !r.Cardinality? && r.e in pairs
    decreases |pairs|
  {
    if pairs != [] {
      var init := pairs[..|pairs| - 1];
      ProductRowsMember(init);
      assert pairs == init + [pairs[|pairs| - 1]];
    }
  }

  /** Every product row holds exactly when each pair's three rows hold. */
  lemma ProductRowsHold(pairs: seq<Edge>, p: ZPoint, n: nat)
    ensures (forall r :: r in ProductRowsFor(pairs) ==> ZHolds(r, p, n))
        <==> (forall e :: e in pairs ==> ProductRows(At(p.x, e.0), At(p.x, e.1), Z(p, e)))
  {
    ProductRowsMember(pairs);
    if forall r :: r in ProductRowsFor(pairs) ==> ZHolds(r, p, n) {
      forall e | e in pairs
        ensures ProductRows(At(p.x, e.0), At(p.x, e.1), Z(p, e))
      {
        assert ZHolds(PairFloor(e), p, n) && ZHolds(BelowFirst(e), p, n) && ZHolds(BelowSecond(e), p, n);
      }
    }
  }

  /** At a feasible point whose rows include the product rows of `pairs`,
      z_e = x_u * x_v for every pair e = (u, v) in `pairs` with u, v < n. */
  lemma ZForced(rows: seq<ZRow>, p: ZPoint, n: nat, pairs: seq<Edge>)
    requires ZFeasible(rows, p, n, pairs)
    requires forall r :: r in ProductRowsFor(pairs) ==> r in rows
    requires forall e :: e in pairs ==> 0 <= e.0 < n && 0 <= e.1 < n
    ensures forall e :: e in pairs ==> Z(p, e) == At(p.x, e.0) * At(p.x, e.1)
  {
    ProductRowsHold(pairs, p, n);
    forall e | e in pairs
      ensures Z(p, e) == At(p.x, e.0) * At(p.x, e.1)
    {
      ProductForced(At(p.x, e.0), At(p.x, e.1), Z(p, e));
    }
  }

  /** The point with z_e = x_u * x_v on every pair. */
  function ProductPoint(x: Vector, pairs: seq<Edge>): (p: ZPoint)
    ensures p.x == x
    ensures forall e :: e in pairs ==> e in p.z && p.z[e] == At(x, e.0) * At(x, e.1)
  {
    ZPoint(x, map e | e in pairs :: At(x, e.0) * At(x, e.1))
  }

  /** Every 0/1 vector x over the n vertices, with z the products, meets the
      domains and every product row. */
  lemma ProductPointFeasible(x: Vector, n: nat, pairs: seq<Edge>)
    requires |x| == n && Binary(x)
    ensures ZDomain(ProductPoint(x, pairs), n, pairs)
    ensures forall r :: r in ProductRowsFor(pairs) ==> ZHolds(r, ProductPoint(x, pairs), n)
  {
    var p := ProductPoint(x, pairs);
    forall e | e in pairs
      ensures ProductRows(At(x, e.0), At(x, e.1), Z(p, e)) && Bit(p.z[e])
    {
      ProductForced(At(x, e.0), At(x, e.1), At(x, e.0) * At(x, e.1));
    }
    ProductRowsHold(pairs, p, n);
  }

  // ---------------------------------------------------------------------
  // From sums over edges to the weight w_C
  // ---------------------------------------------------------------------

  /** x_u * x_v for a pair (u, v). */
  function PairProduct(x: Vector): Edge -> real
  {
    (e: Edge) => At(x, e.0) * At(x, e.1)
  }

  /** Sum of x_u * x_v over a list of pairs: the number of listed pairs
      inside the community of a 0/1 vector x. */
  function EdgeProducts(E: seq<Edge>, x: Vector): real
  {
    SumOf(E, PairProduct(x))
  }

  /** Sum of d[u] * x_u over the vertices: sum d[C] for a 0/1 vector x. */
  function DegreeProducts(d: Vector, x: Vector, n: nat): real
  {
    Sum(0, n, u => At(d, u) * At(x, u))
  }

  /** The entry m[u][v] when both u and v are in the community of x. */
  function BlockTerm(m: Matrix, x: Vector): (int, int) -> real
  {
    (u, v) => At(x, u) * (At(x, v) * Entry(m, u, v))
  }

  /** The block sum over the community as a square sum over all pairs. */
  lemma BlockAsSquare(m: Matrix, x: Vector, n: nat)
    requires n <= |x| && Binary(x)
    ensures BlockSum(m, Members(x, n)) == Square(n, BlockTerm(m, x))
  {
    var C := Members(x, n);
    var h: (int, int) -> real := (u, v) => Entry(m, u, v);
    BlockOverMembers(x, n, h);
    forall u | u in C
      ensures SumOf(C, v => Entry(m, u, v)) == SumOf(C, v => h(u, v))
    {
      SumOfExt(C, v => Entry(m, u, v), v => h(u, v));
    }
    SumOfExt(C, u => SumOf(C, v => Entry(m, u, v)), u => SumOf(C, v => h(u, v)));
    SquareExt(n, (u, v) => At(x, u) * (At(x, v) * h(u, v)), BlockTerm(m, x));
  }

  /** Summing x_u * x_v over the kept pairs is the upper-triangle block sum,
      when `keep` marks exactly the 1-entries above the diagonal of a 0/1
      matrix. */
  lemma EdgesAsUpper(keep: (int, int) -> bool, m: Matrix, x: Vector, n: nat)
    requires IsSquare(m, n) && ZeroOne(m)
    requires forall i, j :: 0 <= i < j < n ==> (keep(i, j) <==> Entry(m, i, j) == 1.0)
    ensures EdgeProducts(Pairs(keep, n), x) == Upper(n, BlockTerm(m, x))
  {
    var f := PairProduct(x);
    PairsSum(keep, f, n);
    forall i, j | 0 <= i < j < n
      ensures Kept(keep, f, i, j) == BlockTerm(m, x)(i, j)
    {
      assert Entry(m, i, j) == 0.0 || Entry(m, i, j) == 1.0;
    }
    UpperExt(n, KeptTerm(keep, f), BlockTerm(m, x));
  }

  /** For a symmetric matrix with an empty diagonal the block counts every
      pair above the diagonal twice. */
  lemma BlockTwiceUpper(m: Matrix, x: Vector, n: nat)
    requires IsSquare(m, n) && Symmetric(m) && ZeroDiagonal(m)
    ensures Square(n, BlockTerm(m, x)) == 2.0 * Upper(n, BlockTerm(m, x))
  {
    var g := BlockTerm(m, x);
    forall i, j | 0 <= i < n && 0 <= j < n
      ensures g(i, j) == g(j, i)
    {
      assert Entry(m, i, j) == Entry(m, j, i);
    }
    forall i | 0 <= i < n
      ensures g(i, i) == 0.0
    {
      assert Entry(m, i, i) == 0.0;
    }
    SquareOfSymmetric(n, g);
  }

  /** When `keep` marks exactly the 1-entries above the diagonal of a
      symmetric 0/1 matrix with an empty diagonal, each kept pair inside the
      community stands for two entries of the block: twice the edge products
      is the block sum. */
  lemma EdgesHalfBlock(keep: (int, int) -> bool, m: Matrix, x: Vector, n: nat)
    requires IsSquare(m, n) && Symmetric(m) && ZeroOne(m) && ZeroDiagonal(m)
    requires forall i, j :: 0 <= i < j < n ==> (keep(i, j) <==> Entry(m, i, j) == 1.0)
    requires n <= |x| && Binary(x)
    ensures 2.0 * EdgeProducts(Pairs(keep, n), x) == BlockSum(m, Members(x, n))
  {
    EdgesAsUpper(keep, m, x, n);
    BlockTwiceUpper(m, x, n);
    BlockAsSquare(m, x, n);
  }

  /** Sum d[C] over the community of x is the degree products. */
  lemma DegreesOverMembers(d: Vector, x: Vector, n: nat)
    requires n <= |x| && Binary(x)
    ensures VecSum(d, Members(x, n)) == DegreeProducts(d, x, n)
  {
    WeightedOverMembers(x, n, u => At(d, u), u => At(d, u) * At(x, u));
  }

  /** The shape of every pricing base term: 4 * (positive edge sum)
      - 2 (1 - lambda) * (positive degree sum) - 4 * (negative edge sum)
      + 2 lambda * (negative degree sum). */
  function BaseShape(plusEdges: real, plusDegrees: real, minusEdges: real, minusDegrees: real, lambda: real): real
  {
    4.0 * plusEdges - 2.0 * (1.0 - lambda) * plusDegrees - 4.0 * minusEdges + 2.0 * lambda * minusDegrees
  }

  /** The dual of vertex u, as the master LP reported it. */
  function Dual(y: map<int, real>, u: int): real
  {
    if u in y then y[u] else 0.0
  }

  /** The duals as a function of the vertex. */
  function Duals(y: map<int, real>): int -> real
  {
    u => Dual(y, u)
  }

  /** The base term at a 0/1 vector x with every product variable at its
      forced value x_u * x_v. */
  function EdgeObjective(aPlus: Matrix, aMinus: Matrix, dPlus: Vector, dMinus: Vector, lambda: real, x: Vector, n: nat): real
  {
    BaseShape(EdgeProducts(PlusEdges(aPlus, n), x), DegreeProducts(dPlus, x, n),
              EdgeProducts(MinusEdges(aPlus, aMinus, n), x), DegreeProducts(dMinus, x, n), lambda)
  }

  /** For a signed adjacency the graph terms at a 0/1 vector x are |C| * w_C
      for the community C of x: the numerator of calc_w_C. */
  lemma EdgeObjectiveIsNumerator(aPlus: Matrix, aMinus: Matrix, dPlus: Vector, dMinus: Vector, lambda: real, x: Vector, n: nat)
    requires SignedAdjacency(n, aPlus, aMinus) && n <= |x| && Binary(x)
    ensures EdgeObjective(aPlus, aMinus, dPlus, dMinus, lambda, x, n) == Numerator(Members(x, n), aPlus, aMinus, dPlus, dMinus, lambda)
  {
    var C := Members(x, n);
    PlusHalfBlock(aPlus, aMinus, x, n);
    MinusHalfBlock(aPlus, aMinus, x, n);
    DegreesOverMembers(dPlus, x, n);
    DegreesOverMembers(dMinus, x, n);
    NumeratorFromParts(C, aPlus, aMinus, dPlus, dMinus, lambda,
                       EdgeProducts(PlusEdges(aPlus, n), x), EdgeProducts(MinusEdges(aPlus, aMinus, n), x),
                       DegreeProducts(dPlus, x, n), DegreeProducts(dMinus, x, n));
  }

  lemma PlusHalfBlock(aPlus: Matrix, aMinus: Matrix, x: Vector, n: nat)
    requires SignedAdjacency(n, aPlus, aMinus) && n <= |x| && Binary(x)
    ensures 2.0 * EdgeProducts(PlusEdges(aPlus, n), x) == BlockSum(aPlus, Members(x, n))
  {
    EdgesHalfBlock(PlusKeep(aPlus), aPlus, x, n);
  }

  lemma MinusHalfBlock(aPlus: Matrix, aMinus: Matrix, x: Vector, n: nat)
    requires SignedAdjacency(n, aPlus, aMinus) && n <= |x| && Binary(x)
    ensures 2.0 * EdgeProducts(MinusEdges(aPlus, aMinus, n), x) == BlockSum(aMinus, Members(x, n))
  {
    MinusKeepSigned(aPlus, aMinus, n);
    EdgesHalfBlock(MinusKeep(aPlus, aMinus), aMinus, x, n);
  }

  lemma NumeratorFromParts(C: seq<int>, aPlus: Matrix, aMinus: Matrix, dPlus: Vector, dMinus: Vector, lambda: real,
                           ePlus: real, eMinus: real, gPlus: real, gMinus: real)
    requires 2.0 * ePlus == BlockSum(aPlus, C) && 2.0 * eMinus == BlockSum(aMinus, C)
    requires VecSum(dPlus, C) == gPlus && VecSum(dMinus, C) == gMinus
    ensures BaseShape(ePlus, gPlus, eMinus, gMinus, lambda) == Numerator(C, aPlus, aMinus, dPlus, dMinus, lambda)
  {
    NumeratorArith(BlockSum(aPlus, C), ePlus, VecSum(dPlus, C), gPlus, BlockSum(aMinus, C), eMinus, VecSum(dMinus, C), gMinus, lambda);
  }

  lemma NumeratorArith(bPlus: real, ePlus: real, vPlus: real, dPlus: real,
                       bMinus: real, eMinus: real, vMinus: real, dMinus: real, lambda: real)
    requires 2.0 * ePlus == bPlus && vPlus == dPlus && 2.0 * eMinus == bMinus && vMinus == dMinus
    ensures (2.0 * bPlus - 2.0 * (1.0 - lambda) * vPlus) - (2.0 * bMinus - 2.0 * lambda * vMinus)
         == 4.0 * ePlus - 2.0 * (1.0 - lambda) * dPlus - 4.0 * eMinus + 2.0 * lambda * dMinus
  {
  }
}
