/** Finite sums over integer ranges and over sequences, with the algebra the
    weight and pricing proofs need (linearity, re-ordering, the square/triangle
    split of a double sum). */
module Sums {

  /** Sum of f(i) for lo <= i < hi. */
  function Sum(lo: int, hi: int, f: int -> real): real
    decreases hi - lo
  {
    if hi <= lo then 0.0 else Sum(lo, hi - 1, f) + f(hi - 1)
  }

  /** Sum of f over the elements of s, duplicates counted. */
  function SumOf<T>(s: seq<T>, f: T -> real): real
  {
    if |s| == 0 then 0.0 else f(s[0]) + SumOf(s[1..], f)
  }

  /** The product c * v as a function application: two products with equal
      factors are then equal by congruence, which the solver finds far more
      cheaply than by arithmetic on the bare products. */
  function Times(c: real, v: real): real
  {
    c * v
  }

  /** A running total T that starts at 0 and grows by R(r - 1) at each step
      r is the sum of R. */
  lemma {:induction false} SumByRows(T: int -> real, R: int -> real, rows: int)
    requires 0 <= rows && T(0) == 0.0
    requires forall r :: 0 < r <= rows ==> T(r) == T(r - 1) + R(r - 1)
    ensures T(rows) == Sum(0, rows, R)
    decreases rows
  {
    if rows > 0 {
      SumByRows(T, R, rows - 1);
    }
  }

  /** Sum of g(i, j) over all ordered pairs 0 <= i, j < n. */
  function Square(n: nat, g: (int, int) -> real): real
  {
    Sum(0, n, i => RowSum(g, i, 0, n))
  }

  /** Sum of g(i, j) for lo <= j < hi: one row of a double sum. */
  function RowSum(g: (int, int) -> real, i: int, lo: int, hi: int): real
  {
    Sum(lo, hi, j => g(i, j))
  }

  /** Sum of g(i, j) over the pairs 0 <= i < j < n, row i outer, column j inner. */
  function Upper(n: nat, g: (int, int) -> real): real
  {
    Sum(0, n, i => UpperRow(g, i, n))
  }

  /** Sum of g(i, j) for i < j < n: row i of the upper triangle. */
  function UpperRow(g: (int, int) -> real, i: int, n: int): real
  {
    Sum(i + 1, n, j => g(i, j))
  }

  /** Sum of g(i, i) for 0 <= i < n. */
  function Diagonal(n: nat, g: (int, int) -> real): real
  {
    Sum(0, n, i => g(i, i))
  }

  lemma {:induction false} SumExt(lo: int, hi: int, f: int -> real, g: int -> real)
    requires forall i :: lo <= i < hi ==> f(i) == g(i)
    ensures Sum(lo, hi, f) == Sum(lo, hi, g)
    decreases hi - lo
  {
    if lo < hi {
      SumExt(lo, hi - 1, f, g);
    }
  }

  lemma {:induction false} SumZero(lo: int, hi: int, f: int -> real)
    requires forall i :: lo <= i < hi ==> f(i) == 0.0
    ensures Sum(lo, hi, f) == 0.0
    decreases hi - lo
  {
    if lo < hi {
      SumZero(lo, hi - 1, f);
    }
  }

  lemma {:induction false} SumAdd(lo: int, hi: int, f: int -> real, g: int -> real, h: int -> real)
    requires forall i :: lo <= i < hi ==> h(i) == f(i) + g(i)
    ensures Sum(lo, hi, h) == Sum(lo, hi, f) + Sum(lo, hi, g)
    decreases hi - lo
  {
    if lo < hi {
      SumAdd(lo, hi - 1, f, g, h);
    }
  }

  lemma {:induction false} SumScale(lo: int, hi: int, c: real, f: int -> real, g: int -> real)
    requires forall i :: lo <= i < hi ==> g(i) == c * f(i)
    ensures Sum(lo, hi, g) == c * Sum(lo, hi, f)
    decreases hi - lo
  {
    if lo < hi {
      SumScale(lo, hi - 1, c, f, g);
    }
  }

  lemma {:induction false} SumConst(lo: int, hi: int, c: real, f: int -> real)
    requires lo <= hi
    requires forall i :: lo <= i < hi ==> f(i) == c
    ensures Sum(lo, hi, f) == (hi - lo) as real * c
    decreases hi - lo
  {
    if lo < hi {
      SumConst(lo, hi - 1, c, f);
    }
  }

  lemma {:induction false} SumNonNegative(lo: int, hi: int, f: int -> real)
    requires forall i :: lo <= i < hi ==> 0.0 <= f(i)
    ensures 0.0 <= Sum(lo, hi, f)
    decreases hi - lo
  {
    if lo < hi {
      SumNonNegative(lo, hi - 1, f);
    }
  }

  /** The number of i with lo <= i < hi that satisfy keep. */
  function Count(keep: int -> bool, lo: int, hi: int): nat
  {
    |set i | lo <= i < hi && keep(i)|
  }

  /** Summing a 0/1 indicator counts the indices where it is 1. */
  lemma {:induction false} SumCounts(lo: int, hi: int, keep: int -> bool, f: int -> real)
    requires lo <= hi
    requires forall i :: lo <= i < hi ==> f(i) == if keep(i) then 1.0 else 0.0
    ensures Sum(lo, hi, f) == Count(keep, lo, hi) as real
    decreases hi - lo
  {
    if lo < hi {
      SumCounts(lo, hi - 1, keep, f);
      CountStep(keep, lo, hi);
    }
  }

  /** Extending the range by one index adds one to the count exactly when keep holds there. */
  lemma CountStep(keep: int -> bool, lo: int, hi: int)
    requires lo < hi
    ensures Count(keep, lo, hi) == Count(keep, lo, hi - 1) + if keep(hi - 1) then 1 else 0
  {
    var before := set i | lo <= i < hi - 1 && keep(i);
    var after := set i | lo <= i < hi && keep(i);
    if keep(hi - 1) {
      assert after == before + {hi - 1};
      assert hi - 1 !in before;
    } else {
      assert after == before;
    }
  }

  lemma {:induction false} SumOfConcat<T>(a: seq<T>, b: seq<T>, f: T -> real)
    ensures SumOf(a + b, f) == SumOf(a, f) + SumOf(b, f)
    decreases |a|
  {
    if a != [] {
      assert (a + b)[1..] == a[1..] + b;
      SumOfConcat(a[1..], b, f);
    } else {
      assert a + b == b;
    }
  }

  lemma SumOfSingleton<T>(x: T, f: T -> real)
    ensures SumOf([x], f) == f(x)
  {
    assert [x][1..] == [];
  }

  lemma {:induction false} SumOfExt<T>(s: seq<T>, f: T -> real, g: T -> real)
    requires forall x :: x in s ==> f(x) == g(x)
    ensures SumOf(s, f) == SumOf(s, g)
    decreases |s|
  {
    if s != [] {
      SumOfExt(s[1..], f, g);
    }
  }

  lemma {:induction false} SumOfScale<T>(s: seq<T>, c: real, f: T -> real, g: T -> real)
    requires forall x :: x in s ==> g(x) == c * f(x)
    ensures SumOf(s, g) == c * SumOf(s, f)
    decreases |s|
  {
    if s != [] {
      SumOfScale(s[1..], c, f, g);
    }
  }

  lemma {:induction false} SumOfAdd<T>(s: seq<T>, f: T -> real, g: T -> real, h: T -> real)
    requires forall x :: x in s ==> h(x) == f(x) + g(x)
    ensures SumOf(s, h) == SumOf(s, f) + SumOf(s, g)
    decreases |s|
  {
    if s != [] {
      SumOfAdd(s[1..], f, g, h);
    }
  }

  lemma {:induction false} SumOfConst<T>(s: seq<T>, c: real, f: T -> real)
    requires forall x :: x in s ==> f(x) == c
    ensures SumOf(s, f) == |s| as real * c
    decreases |s|
  {
    if s != [] {
      SumOfConst(s[1..], c, f);
    }
  }

  /** Taking one element out of a sequence takes its term out of the sum. */
  lemma SumOfRemove<T>(s: seq<T>, j: nat, f: T -> real)
    requires j < |s|
    ensures SumOf(s, f) == f(s[j]) + SumOf(s[..j] + s[j + 1..], f)
  {
    var before, after := s[..j], s[j + 1..];
    assert s == before + ([s[j]] + after);
    SumOfConcat(before, [s[j]] + after, f);
    assert ([s[j]] + after)[1..] == after;
    SumOfConcat(before, after, f);
  }

  /** A sum over a sequence depends only on the multiset of its elements. */
  lemma {:induction false} SumOfPermutation<T>(a: seq<T>, b: seq<T>, f: T -> real)
    requires multiset(a) == multiset(b)
    ensures SumOf(a, f) == SumOf(b, f)
    decreases |a|
  {
    if a == [] {
      assert |b| == |multiset(b)| == 0;
    } else {
      var x := a[0];
      assert x in multiset(b);
      var j :| 0 <= j < |b| && b[j] == x;
      var rest := b[..j] + b[j + 1..];
      SumOfRemove(b, j, f);
      assert b == b[..j] + [b[j]] + b[j + 1..];
      assert multiset(rest) == multiset(b) - multiset{x};
      assert a == [x] + a[1..];
      assert multiset(a[1..]) == multiset(a) - multiset{x};
      SumOfPermutation(a[1..], rest, f);
    }
  }

  /** The last row and column of a square sum, split off. */
  lemma SquareStep(m: nat, g: (int, int) -> real)
    ensures Square(m + 1, g)
         == Square(m, g) + Sum(0, m, i => g(i, m)) + Sum(0, m, j => g(m, j)) + g(m, m)
  {
    var wide := i => RowSum(g, i, 0, m + 1);
    var narrow := i => RowSum(g, i, 0, m);
    var column := i => g(i, m);
    assert Square(m + 1, g) == Sum(0, m, wide) + wide(m);
    SumAdd(0, m, narrow, column, wide);
  }

  lemma UpperStep(m: nat, g: (int, int) -> real)
    ensures Upper(m + 1, g) == Upper(m, g) + Sum(0, m, i => g(i, m))
  {
    var wide := i => UpperRow(g, i, m + 1);
    var narrow := i => UpperRow(g, i, m);
    var column := i => g(i, m);
    assert Upper(m + 1, g) == Sum(0, m, wide) + wide(m);
    assert wide(m) == 0.0;
    SumAdd(0, m, narrow, column, wide);
  }

  /** A square double sum is the upper triangle, the lower triangle (the
      upper triangle of the transpose) and the diagonal. */
  lemma {:induction false} SquareSplit(n: nat, g: (int, int) -> real)
    ensures Square(n, g) == Upper(n, g) + Upper(n, (i, j) => g(j, i)) + Diagonal(n, g)
  {
    var t := (i, j) => g(j, i);
    if n == 0 {
    } else {
      var m := n - 1;
      SquareSplit(m, g);
      SquareStep(m, g);
      UpperStep(m, g);
      UpperStep(m, t);
      SumExt(0, m, i => t(i, m), j => g(m, j));
      assert Diagonal(m + 1, g) == Diagonal(m, g) + g(m, m);
    }
  }

  /** Two double sums that agree on the upper triangle have equal upper sums. */
  lemma UpperExt(n: nat, g: (int, int) -> real, h: (int, int) -> real)
    requires forall i, j :: 0 <= i < j < n ==> g(i, j) == h(i, j)
    ensures Upper(n, g) == Upper(n, h)
  {
    forall i | 0 <= i < n
      ensures UpperRow(g, i, n) == UpperRow(h, i, n)
    {
      SumExt(i + 1, n, j => g(i, j), j => h(i, j));
    }
    SumExt(0, n, i => UpperRow(g, i, n), i => UpperRow(h, i, n));
  }

  /** Two double sums that agree on every pair have equal square sums. */
  lemma SquareExt(n: nat, g: (int, int) -> real, h: (int, int) -> real)
    requires forall i, j :: 0 <= i < n && 0 <= j < n ==> g(i, j) == h(i, j)
    ensures Square(n, g) == Square(n, h)
  {
    forall i | 0 <= i < n
      ensures RowSum(g, i, 0, n) == RowSum(h, i, 0, n)
    {
      SumExt(0, n, j => g(i, j), j => h(i, j));
    }
    SumExt(0, n, i => RowSum(g, i, 0, n), i => RowSum(h, i, 0, n));
  }

  /** For a symmetric g that vanishes on the diagonal, the square sum counts
      every unordered pair twice. */
  lemma SquareOfSymmetric(n: nat, g: (int, int) -> real)
    requires forall i, j :: 0 <= i < n && 0 <= j < n ==> g(i, j) == g(j, i)
    requires forall i :: 0 <= i < n ==> g(i, i) == 0.0
    ensures Square(n, g) == 2.0 * Upper(n, g)
  {
    SquareSplit(n, g);
    SumZero(0, n, i => g(i, i));
    UpperExt(n, (i, j) => g(j, i), g);
  }

  /** A square sum of a product whose factors depend on one index each factors. */
  lemma SquareOfProduct(n: nat, a: int -> real, b: int -> real, g: (int, int) -> real)
    requires forall i, j :: 0 <= i < n && 0 <= j < n ==> g(i, j) == a(i) * b(j)
    ensures Square(n, g) == Sum(0, n, a) * Sum(0, n, b)
  {
    forall i | 0 <= i < n
      ensures RowSum(g, i, 0, n) == a(i) * Sum(0, n, b)
    {
      RowOfProduct(n, a, b, g, i);
    }
    SumScale(0, n, Sum(0, n, b), a, i => RowSum(g, i, 0, n));
  }

  lemma RowOfProduct(n: nat, a: int -> real, b: int -> real, g: (int, int) -> real, i: int)
    requires forall j :: 0 <= j < n ==> g(i, j) == a(i) * b(j)
    ensures RowSum(g, i, 0, n) == a(i) * Sum(0, n, b)
  {
    SumScale(0, n, a(i), b, j => g(i, j));
  }
}
