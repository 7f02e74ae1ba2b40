/** The pairs (i, j), i < j < n, that a double loop `for i in range(n): for j
    in range(i + 1, n): if keep(i, j): ...` visits and keeps, in the order it
    visits them. graph_util.generate_edges, and the edge lists that the
    pricing models build, are such loops. */
module Triangle {
  import opened Sums

  /** The kept pairs (i, j) of row i with lo <= j < hi, in increasing j. */
  function RowPairs(keep: (int, int) -> bool, i: int, lo: int, hi: int): seq<(int, int)>
    decreases hi - lo
  {
    if hi <= lo then [] else RowPairs(keep, i, lo, hi - 1) + (if keep(i, hi - 1) then [(i, hi - 1)] else [])
  }

  /** The kept pairs i < j < n of the rows 0 <= i < rows, row after row. */
  function PairsBelow(keep: (int, int) -> bool, n: int, rows: int): seq<(int, int)>
    decreases rows
  {
    if rows <= 0 then [] else PairsBelow(keep, n, rows - 1) + RowPairs(keep, rows - 1, rows, n)
  }

  /** Every kept pair i < j < n, in the loop's order. */
  function Pairs(keep: (int, int) -> bool, n: nat): seq<(int, int)>
  {
    PairsBelow(keep, n, n)
  }

  /** One step of a classification loop: appending pair (i, j) when it is
      kept extends the row by one column. */
  lemma RowPairsGrow(keep: (int, int) -> bool, done: seq<(int, int)>, i: int, lo: int, j: int, acc: seq<(int, int)>)
    requires lo <= j && acc == done + RowPairs(keep, i, lo, j)
    ensures acc + (if keep(i, j) then [(i, j)] else []) == done + RowPairs(keep, i, lo, j + 1)
  {
  }

  /** keep as a 0/1 weight, for counting with sums. */
  function Indicator(keep: (int, int) -> bool, i: int, j: int): real
  {
    if keep(i, j) then 1.0 else 0.0
  }

  predicate LexLess(p: (int, int), q: (int, int))
  {
    p.0 < q.0 || (p.0 == q.0 && p.1 < q.1)
  }

  /** Strictly increasing in lexicographic order, hence duplicate-free. */
  predicate Increasing(s: seq<(int, int)>)
  {
    forall a, b :: 0 <= a < b < |s| ==> LexLess(s[a], s[b])
  }

  lemma {:induction false} RowPairsMember(keep: (int, int) -> bool, i: int, lo: int, hi: int)
    ensures forall p :: p in RowPairs(keep, i, lo, hi) <==> p.0 == i && lo <= p.1 < hi && keep(i, p.1)
    decreases hi - lo
  {
    if lo < hi {
      RowPairsMember(keep, i, lo, hi - 1);
    }
  }

  lemma {:induction false} RowPairsIncreasing(keep: (int, int) -> bool, i: int, lo: int, hi: int)
    ensures Increasing(RowPairs(keep, i, lo, hi))
    decreases hi - lo
  {
    if lo < hi {
      RowPairsIncreasing(keep, i, lo, hi - 1);
      RowPairsMember(keep, i, lo, hi - 1);
      var before := RowPairs(keep, i, lo, hi - 1);
      forall a | 0 <= a < |before|
        ensures before[a].0 == i && before[a].1 < hi - 1
      {
        assert before[a] in before;
      }
    }
  }

  lemma {:induction false} PairsBelowMember(keep: (int, int) -> bool, n: int, rows: int)
    ensures forall p :: p in PairsBelow(keep, n, rows) <==> 0 <= p.0 < rows && p.0 < p.1 < n && keep(p.0, p.1)
    decreases rows
  {
    if rows > 0 {
      PairsBelowMember(keep, n, rows - 1);
      RowPairsMember(keep, rows - 1, rows, n);
    }
  }

  lemma {:induction false} PairsBelowIncreasing(keep: (int, int) -> bool, n: int, rows: int)
    ensures Increasing(PairsBelow(keep, n, rows))
    decreases rows
  {
    if rows > 0 {
      var before := PairsBelow(keep, n, rows - 1);
      var row := RowPairs(keep, rows - 1, rows, n);
      PairsBelowIncreasing(keep, n, rows - 1);
      RowPairsIncreasing(keep, rows - 1, rows, n);
      PairsBelowMember(keep, n, rows - 1);
      RowPairsMember(keep, rows - 1, rows, n);
      forall a, b | 0 <= a < |before| && 0 <= b < |row|
        ensures LexLess(before[a], row[b])
      {
        assert before[a] in before && row[b] in row;
      }
      ConcatIncreasing(before, row);
    }
  }

  /** Two increasing lists, every entry of the first below every entry of the
      second, make an increasing list. */
  lemma ConcatIncreasing(before: seq<(int, int)>, row: seq<(int, int)>)
    requires Increasing(before) && Increasing(row)
    requires forall a, b :: 0 <= a < |before| && 0 <= b < |row| ==> LexLess(before[a], row[b])
    ensures Increasing(before + row)
  {
    var s := before + row;
    forall a, b | 0 <= a < b < |s|
      ensures LexLess(s[a], s[b])
    {
      if b < |before| {
        assert s[a] == before[a] && s[b] == before[b];
      } else if a < |before| {
        assert s[a] == before[a] && s[b] == row[b - |before|];
      } else {
        assert s[a] == row[a - |before|] && s[b] == row[b - |before|];
      }
    }
  }

  /** The loop keeps (i, j) exactly when i < j < n and keep(i, j). */
  lemma PairsMember(keep: (int, int) -> bool, n: nat)
    ensures forall p :: p in Pairs(keep, n) <==> 0 <= p.0 < p.1 < n && keep(p.0, p.1)
  {
    PairsBelowMember(keep, n, n);
  }

  /** The loop emits its pairs in strictly increasing lexicographic order. */
  lemma PairsIncreasing(keep: (int, int) -> bool, n: nat)
    ensures Increasing(Pairs(keep, n))
  {
    PairsBelowIncreasing(keep, n, n);
  }

  lemma {:induction false} RowPairsCount(keep: (int, int) -> bool, i: int, lo: int, hi: int)
    ensures |RowPairs(keep, i, lo, hi)| as real == Sum(lo, hi, j => Indicator(keep, i, j))
    decreases hi - lo
  {
    if lo < hi {
      RowPairsCount(keep, i, lo, hi - 1);
    }
  }

  lemma {:induction false} PairsBelowCount(keep: (int, int) -> bool, n: nat, rows: int)
    requires rows <= n
    ensures |PairsBelow(keep, n, rows)| as real == Sum(0, rows, i => UpperRow((i, j) => Indicator(keep, i, j), i, n))
    decreases rows
  {
    if rows > 0 {
      var g: (int, int) -> real := (i, j) => Indicator(keep, i, j);
      PairsBelowCount(keep, n, rows - 1);
      RowPairsCount(keep, rows - 1, rows, n);
      SumExt(rows, n, j => Indicator(keep, rows - 1, j), j => g(rows - 1, j));
    }
  }

  /** The number of kept pairs is the upper-triangle sum of keep's indicator. */
  lemma PairsCount(keep: (int, int) -> bool, n: nat)
    ensures |Pairs(keep, n)| as real == Upper(n, (i, j) => Indicator(keep, i, j))
  {
    PairsBelowCount(keep, n, n);
  }

  /** f on the kept pairs, 0 elsewhere. */
  function Kept(keep: (int, int) -> bool, f: ((int, int)) -> real, i: int, j: int): real
  {
    if keep(i, j) then f((i, j)) else 0.0
  }

  /** Kept as a function of the pair, for the square and triangle sums. */
  function KeptTerm(keep: (int, int) -> bool, f: ((int, int)) -> real): (int, int) -> real
  {
    (i, j) => Kept(keep, f, i, j)
  }

  lemma {:induction false} RowPairsSum(keep: (int, int) -> bool, f: ((int, int)) -> real, i: int, lo: int, hi: int)
    ensures SumOf(RowPairs(keep, i, lo, hi), f) == Sum(lo, hi, j => Kept(keep, f, i, j))
    decreases hi - lo
  {
    if lo < hi {
      RowPairsSum(keep, f, i, lo, hi - 1);
      var tail := if keep(i, hi - 1) then [(i, hi - 1)] else [];
      SumOfConcat(RowPairs(keep, i, lo, hi - 1), tail, f);
      if keep(i, hi - 1) {
        SumOfSingleton((i, hi - 1), f);
      }
    }
  }

  /** Sum of f over the kept pairs of the first rows rows. */
  function PairsBelowTotal(keep: (int, int) -> bool, f: ((int, int)) -> real, n: int, rows: int): real
  {
    SumOf(PairsBelow(keep, n, rows), f)
  }

  /** The sum over the pairs of the first rows rows splits off the last row. */
  lemma PairsBelowStep(keep: (int, int) -> bool, f: ((int, int)) -> real, n: nat, rows: int)
    requires rows > 0
    ensures PairsBelowTotal(keep, f, n, rows)
         == PairsBelowTotal(keep, f, n, rows - 1) + SumOf(RowPairs(keep, rows - 1, rows, n), f)
  {
    SumOfConcat(PairsBelow(keep, n, rows - 1), RowPairs(keep, rows - 1, rows, n), f);
  }

  /** One row of the kept pairs sums to the same row of the upper triangle. */
  lemma RowPairsUpper(keep: (int, int) -> bool, f: ((int, int)) -> real, i: int, lo: int, n: int)
    requires lo == i + 1
    ensures SumOf(RowPairs(keep, i, lo, n), f) == UpperRow(KeptTerm(keep, f), i, n)
  {
    RowPairsSum(keep, f, i, lo, n);
    forall j | lo <= j < n
      ensures Kept(keep, f, i, j) == KeptTerm(keep, f)(i, j)
    {
    }
    SumExt(lo, n, j => Kept(keep, f, i, j), j => KeptTerm(keep, f)(i, j));
  }

  /** Summing f over the kept pairs is the upper-triangle sum of f restricted
      to the kept pairs. */
  lemma PairsSum(keep: (int, int) -> bool, f: ((int, int)) -> real, n: nat)
    ensures SumOf(Pairs(keep, n), f) == Upper(n, KeptTerm(keep, f))
  {
    var g := KeptTerm(keep, f);
    var total := r => PairsBelowTotal(keep, f, n, r);
    var row := i => UpperRow(g, i, n);
    forall r | 0 < r <= n
      ensures total(r) == total(r - 1) + row(r - 1)
    {
      PairsBelowStep(keep, f, n, r);
      RowPairsUpper(keep, f, r - 1, r, n);
    }
    SumByRows(total, row, n);
    SumExt(0, n, row, i => UpperRow(g, i, n));
  }

  lemma {:induction false} RowPairsBound(keep: (int, int) -> bool, i: int, lo: int, hi: int)
    requires lo <= hi
    ensures |RowPairs(keep, i, lo, hi)| <= hi - lo
    decreases hi - lo
  {
    if lo < hi {
      RowPairsBound(keep, i, lo, hi - 1);
    }
  }

  lemma {:induction false} PairsBelowBound(keep: (int, int) -> bool, n: nat, rows: nat)
    requires rows <= n
    ensures 2 * |PairsBelow(keep, n, rows)| <= rows * (2 * n - rows - 1)
    decreases rows
  {
    if rows > 0 {
      var r := rows - 1;
      PairsBelowBound(keep, n, r);
      RowPairsBound(keep, r, rows, n);
      BoundStep(n, rows, |PairsBelow(keep, n, r)|, |RowPairs(keep, r, rows, n)|);
    }
  }

  lemma BoundStep(n: int, rows: int, a: int, b: int)
    requires 2 * a <= (rows - 1) * (2 * n - rows) && b <= n - rows
    ensures 2 * (a + b) <= rows * (2 * n - rows - 1)
  {
    assert rows * (2 * n - rows - 1) == (rows - 1) * (2 * n - rows) + 2 * (n - rows);
  }

  /** At most one pair per unordered pair of distinct indices: n (n - 1) / 2. */
  lemma PairsBound(keep: (int, int) -> bool, n: nat)
    ensures 2 * |Pairs(keep, n)| <= n * (n - 1)
  {
    PairsBelowBound(keep, n, n);
  }

  /** A duplicate-free list of pairs has as many distinct elements as entries. */
  lemma {:induction false} IncreasingCardinality(s: seq<(int, int)>)
    requires Increasing(s)
    ensures |set p | p in s| == |s|
  {
    if s != [] {
      var init := s[..|s| - 1];
      var last := s[|s| - 1];
      assert Increasing(init) by {
        forall a, b | 0 <= a < b < |init| ensures LexLess(init[a], init[b]) {
          assert init[a] == s[a] && init[b] == s[b];
        }
      }
      IncreasingCardinality(init);
      assert last !in init by {
        forall a | 0 <= a < |init| ensures init[a] != last {
          assert init[a] == s[a] && LexLess(s[a], s[|s| - 1]);
        }
      }
      assert s == init + [last];
      assert (set p | p in s) == (set p | p in init) + {last};
    }
  }
}
