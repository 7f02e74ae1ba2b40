/** Vectors and square matrices over the vertices 0..n-1, and the community
    read off a 0/1 membership vector. */
module Matrices {
  import opened Sums

  type Vector = seq<real>
  type Matrix = seq<seq<real>>

  /** v[i], read as 0 outside the vector. */
  function At(v: Vector, i: int): real
  {
    if 0 <= i < |v| then v[i] else 0.0
  }

  /** m[i][j], read as 0 outside the matrix. */
  function Entry(m: Matrix, i: int, j: int): real
  {
    if 0 <= i < |m| && 0 <= j < |m[i]| then m[i][j] else 0.0
  }

  ghost predicate IsSquare(m: Matrix, n: nat)
  {
    |m| == n && forall i :: 0 <= i < n ==> |m[i]| == n
  }

  /** Every m[i][j] with i, j < n can be read. */
  ghost predicate Covers(m: Matrix, n: nat)
  {
    |m| >= n && forall i :: 0 <= i < n ==> |m[i]| >= n
  }

  /** numpy accepts i as a row and as a column index of m. A negative
      index, which numpy counts from the end, is out of range here. */
  predicate Indexes(m: Matrix, i: int)
  {
    0 <= i < |m| && forall r :: 0 <= r < |m| ==> i < |m[r]|
  }

  ghost predicate Symmetric(m: Matrix)
  {
    forall i, j :: 0 <= i < |m| && 0 <= j < |m| ==> Entry(m, i, j) == Entry(m, j, i)
  }

  ghost predicate ZeroDiagonal(m: Matrix)
  {
    forall i :: 0 <= i < |m| ==> Entry(m, i, i) == 0.0
  }

  ghost predicate ZeroOne(m: Matrix)
  {
    forall i, j :: 0 <= i < |m| && 0 <= j < |m| ==> Entry(m, i, j) == 0.0 || Entry(m, i, j) == 1.0
  }

  /** The shape of a signed graph on n vertices: two 0/1 adjacency matrices
      and two degree vectors. */
  ghost predicate Shapes(n: nat, aPlus: Matrix, aMinus: Matrix, dPlus: Vector, dMinus: Vector)
  {
    IsSquare(aPlus, n) && IsSquare(aMinus, n) && |dPlus| == n && |dMinus| == n
  }

  /** A signed adjacency as the design describes it: symmetric, 0/1, empty
      diagonal, and no pair both positive and negative. */
  ghost predicate SignedAdjacency(n: nat, aPlus: Matrix, aMinus: Matrix)
  {
    && IsSquare(aPlus, n) && IsSquare(aMinus, n)
    && Symmetric(aPlus) && Symmetric(aMinus)
    && ZeroOne(aPlus) && ZeroOne(aMinus)
    && ZeroDiagonal(aPlus) && ZeroDiagonal(aMinus)
    && forall i, j :: 0 <= i < n && 0 <= j < n ==> !(aPlus[i][j] == 1.0 && aMinus[i][j] == 1.0)
  }

  /** Every entry is 0 or 1: the values a BINARY solver variable takes. */
  ghost predicate Binary(x: Vector)
  {
    forall u :: 0 <= u < |x| ==> x[u] == 0.0 || x[u] == 1.0
  }

  /** The vertices u < n whose membership value is exactly 1.0, in increasing
      order: the community a pricing solution selects. */
  function Members(x: Vector, n: nat): (m: seq<int>)
    requires n <= |x|
    ensures forall u {:trigger u in m} :: u in m <==> 0 <= u < n && x[u] == 1.0
  {
    if n == 0 then []
    else Members(x, n - 1) + (if x[n - 1] == 1.0 then [n - 1] else [])
  }

  /** The community is listed in strictly increasing vertex order. */
  lemma {:induction false} MembersSorted(x: Vector, n: nat)
    requires n <= |x|
    ensures forall i, j :: 0 <= i < j < |Members(x, n)| ==> Members(x, n)[i] < Members(x, n)[j]
  {
    if n > 0 {
      MembersSorted(x, n - 1);
      var before := Members(x, n - 1);
      forall i | 0 <= i < |before|
        ensures before[i] < n - 1
      {
        assert before[i] in before;
      }
    }
  }

  /** A vector with no entry at 1.0 selects the empty community. */
  lemma {:induction false} NoMembers(x: Vector, n: nat)
    requires n <= |x| && forall u :: 0 <= u < n ==> x[u] != 1.0
    ensures Members(x, n) == []
  {
    if n > 0 {
      NoMembers(x, n - 1);
    }
  }

  /** Summing over the members of a 0/1 vector is summing x_u * f(u) over all u. */
  lemma {:induction false} SumOverMembers(x: Vector, n: nat, f: int -> real)
    requires n <= |x| && Binary(x)
    ensures SumOf(Members(x, n), f) == Sum(0, n, u => At(x, u) * f(u))
  {
    if n > 0 {
      var h := u => At(x, u) * f(u);
      var tail := if x[n - 1] == 1.0 then [n - 1] else [];
      SumOverMembers(x, n - 1, f);
      SumOfConcat(Members(x, n - 1), tail, f);
      assert Members(x, n) == Members(x, n - 1) + tail;
      assert Sum(0, n, h) == Sum(0, n - 1, h) + h(n - 1);
      if x[n - 1] == 1.0 {
        assert At(x, n - 1) == 1.0;
        assert SumOf(tail, f) == f(n - 1);
      } else {
        assert At(x, n - 1) == 0.0;
        assert SumOf(tail, f) == 0.0;
      }
    }
  }

  /** The community of a 0/1 vector has as many members as the vector's sum. */
  lemma MembersCount(x: Vector, n: nat)
    requires n <= |x| && Binary(x)
    ensures |Members(x, n)| as real == Sum(0, n, u => At(x, u))
  {
    var one: int -> real := u => 1.0;
    SumOverMembers(x, n, one);
    SumOfConst(Members(x, n), 1.0, one);
    SumExt(0, n, u => At(x, u) * one(u), u => At(x, u));
  }

  /** One row of a double sum over the members of a 0/1 vector. */
  lemma RowOverMembers(x: Vector, n: nat, g: (int, int) -> real, u: int)
    requires n <= |x| && Binary(x)
    ensures SumOf(Members(x, n), v => g(u, v)) == Sum(0, n, v => At(x, v) * g(u, v))
  {
    var row := v => g(u, v);
    SumOverMembers(x, n, row);
    SumExt(0, n, v => At(x, v) * row(v), v => At(x, v) * g(u, v));
  }

  /** A double sum over the members of a 0/1 vector is the square sum of
      x_u * x_v * g(u, v). */
  lemma BlockOverMembers(x: Vector, n: nat, g: (int, int) -> real)
    requires n <= |x| && Binary(x)
    ensures SumOf(Members(x, n), u => SumOf(Members(x, n), v => g(u, v)))
         == Square(n, (u, v) => At(x, u) * (At(x, v) * g(u, v)))
  {
    var m := Members(x, n);
    var outer: int -> real := u => SumOf(m, v => g(u, v));
    var inner: int -> real := u => Sum(0, n, v => At(x, v) * g(u, v));
    var h: (int, int) -> real := (u, v) => At(x, u) * (At(x, v) * g(u, v));
    var rows: int -> real := u => RowSum(h, u, 0, n);
    forall u | u in m
      ensures outer(u) == inner(u)
    {
      RowOverMembers(x, n, g, u);
    }
    SumOfExt(m, outer, inner);
    forall u | 0 <= u < n
      ensures rows(u) == At(x, u) * inner(u)
    {
      ScaledRow(x, n, g, u);
    }
    WeightedOverMembers(x, n, inner, rows);
  }

  /** SumOverMembers with the weighted terms given as a function of their own. */
  lemma WeightedOverMembers(x: Vector, n: nat, f: int -> real, weighted: int -> real)
    requires n <= |x| && Binary(x)
    requires forall u :: 0 <= u < n ==> weighted(u) == At(x, u) * f(u)
    ensures SumOf(Members(x, n), f) == Sum(0, n, weighted)
  {
    WeightedExt(x, n, f, weighted);
    SumOverMembers(x, n, f);
  }

  lemma WeightedExt(x: Vector, n: nat, f: int -> real, weighted: int -> real)
    requires forall u :: 0 <= u < n ==> weighted(u) == At(x, u) * f(u)
    ensures Sum(0, n, u => At(x, u) * f(u)) == Sum(0, n, weighted)
  {
    SumExt(0, n, u => At(x, u) * f(u), weighted);
  }

  lemma ScaledRow(x: Vector, n: nat, g: (int, int) -> real, u: int)
    ensures At(x, u) * Sum(0, n, v => At(x, v) * g(u, v))
         == RowSum((u, v) => At(x, u) * (At(x, v) * g(u, v)), u, 0, n)
  {
    var c := At(x, u);
    var f := v => At(x, v) * g(u, v);
    var k := v => c * (At(x, v) * g(u, v));
    SumScale(0, n, c, f, k);
    var h := (u, v) => At(x, u) * (At(x, v) * g(u, v));
    SumExt(0, n, k, j => h(u, j));
  }
}
