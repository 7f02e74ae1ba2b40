/** The pairs (u, v), 0 <= u, v < n, that a double loop `for u in vertices:
    for v in vertices: if keep(u, v): ...` visits and keeps, in the order it
    visits them. The all-pairs pricing models (ap_milp_with_partition.py,
    ap_qp.py) build their variables, rows and objective sums this way. */
module Grid {
  import opened Sums
  import opened Triangle

  /** The filter that keeps every pair. */
  const Every: (int, int) -> bool := (u, v) => true

  /** The kept pairs of the rows 0 <= u < rows, every column 0 <= v < n,
      row after row. */
  function GridBelow(keep: (int, int) -> bool, n: int, rows: int): seq<(int, int)>
    decreases rows
  {
    if rows <= 0 then [] else GridBelow(keep, n, rows - 1) + RowPairs(keep, rows - 1, 0, n)
  }

  /** Every kept ordered pair of 0..n-1, in the loop's order. */
  function GridPairs(keep: (int, int) -> bool, n: nat): seq<(int, int)>
  {
    GridBelow(keep, n, n)
  }

  lemma {:induction false} GridBelowMember(keep: (int, int) -> bool, n: int, rows: int)
    ensures forall p :: p in GridBelow(keep, n, rows) <==> 0 <= p.0 < rows && 0 <= p.1 < n && keep(p.0, p.1)
    decreases rows
  {
    if rows > 0 {
      GridBelowMember(keep, n, rows - 1);
      RowPairsMember(keep, rows - 1, 0, n);
    }
  }

  /** The grid holds exactly the kept ordered pairs of 0..n-1. */
  lemma GridMember(keep: (int, int) -> bool, n: nat)
    ensures forall p :: p in GridPairs(keep, n) <==> 0 <= p.0 < n && 0 <= p.1 < n && keep(p.0, p.1)
  {
    GridBelowMember(keep, n, n);
  }

  /** One step of the double loop: pair (u, v) extends row u by one column. */
  lemma GridGrow(keep: (int, int) -> bool, n: int, u: int, v: int)
    requires 0 <= v
    ensures GridBelow(keep, n, u) + RowPairs(keep, u, 0, v + 1)
         == GridBelow(keep, n, u) + RowPairs(keep, u, 0, v) + (if keep(u, v) then [(u, v)] else [])
  {
  }

  /** Closing row u of the double loop. */
  lemma GridRowDone(keep: (int, int) -> bool, n: int, u: int)
    requires 0 <= u
    ensures GridBelow(keep, n, u + 1) == GridBelow(keep, n, u) + RowPairs(keep, u, 0, n)
  {
  }

  // ---------------------------------------------------------------------
  // Sums over the grid
  // ---------------------------------------------------------------------

  /** Sum of f over the kept pairs of the first rows rows. */
  function GridBelowTotal(keep: (int, int) -> bool, f: ((int, int)) -> real, n: int, rows: int): real
  {
    SumOf(GridBelow(keep, n, rows), f)
  }

  /** The sum over the pairs of the first rows rows splits off the last row. */
  lemma GridBelowStep(keep: (int, int) -> bool, f: ((int, int)) -> real, n: nat, rows: int)
    requires rows > 0
    ensures GridBelowTotal(keep, f, n, rows)
         == GridBelowTotal(keep, f, n, rows - 1) + SumOf(RowPairs(keep, rows - 1, 0, n), f)
  {
    SumOfConcat(GridBelow(keep, n, rows - 1), RowPairs(keep, rows - 1, 0, n), f);
  }

  /** One full row of the kept pairs sums to the same row of the square. */
  lemma RowPairsFull(keep: (int, int) -> bool, f: ((int, int)) -> real, u: int, n: int)
    ensures SumOf(RowPairs(keep, u, 0, n), f) == RowSum(KeptTerm(keep, f), u, 0, n)
  {
    RowPairsSum(keep, f, u, 0, n);
    forall v | 0 <= v < n
      ensures Kept(keep, f, u, v) == KeptTerm(keep, f)(u, v)
    {
    }
    SumExt(0, n, v => Kept(keep, f, u, v), v => KeptTerm(keep, f)(u, v));
  }

  /** Summing f over the kept grid pairs is the square sum of f restricted
      to the kept pairs. */
  lemma GridSum(keep: (int, int) -> bool, f: ((int, int)) -> real, n: nat)
    ensures SumOf(GridPairs(keep, n), f) == Square(n, KeptTerm(keep, f))
  {
    var g := KeptTerm(keep, f);
    var total := r => GridBelowTotal(keep, f, n, r);
    var row := u => RowSum(g, u, 0, n);
    GridRows(keep, f, n);
    assert total(0) == 0.0;
    SumByRows(total, row, n);
    SumExt(0, n, row, i => RowSum(g, i, 0, n));
  }

  /** Each row of the grid adds its row of the square. */
  lemma GridRows(keep: (int, int) -> bool, f: ((int, int)) -> real, n: nat)
    ensures forall r :: 0 < r <= n ==>
      GridBelowTotal(keep, f, n, r) == GridBelowTotal(keep, f, n, r - 1) + RowSum(KeptTerm(keep, f), r - 1, 0, n)
  {
    forall r | 0 < r <= n
      ensures GridBelowTotal(keep, f, n, r) == GridBelowTotal(keep, f, n, r - 1) + RowSum(KeptTerm(keep, f), r - 1, 0, n)
    {
      GridRowStep(keep, f, n, r - 1);
    }
  }

  /** Row q of the grid adds row q of the square. */
  lemma GridRowStep(keep: (int, int) -> bool, f: ((int, int)) -> real, n: nat, q: nat)
    ensures GridBelowTotal(keep, f, n, q + 1) == GridBelowTotal(keep, f, n, q) + RowSum(KeptTerm(keep, f), q, 0, n)
  {
    GridBelowStep(keep, f, n, q + 1);
    RowPairsFull(keep, f, q, n);
  }

  /** A grid sum whose term splits into a factor of u and a factor of v
      is the product of the two single sums. */
  lemma GridProductSum(n: nat, f: ((int, int)) -> real, a: int -> real, b: int -> real)
    requires forall u, v :: 0 <= u < n && 0 <= v < n ==> f((u, v)) == Times(a(u), b(v))
    ensures SumOf(GridPairs(Every, n), f) == Times(Sum(0, n, a), Sum(0, n, b))
  {
    GridSum(Every, f, n);
    SquareOfProduct(n, a, b, KeptTerm(Every, f));
  }
}
