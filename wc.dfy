/** The community weight w_C of a vertex list C in a signed graph
    (Code/utils/wc.py). */
module Wc {
  import opened Sums
  import opened Matrices

  /** Sum of m[u][v] over the pairs of C x C (numpy's m[ix_(C, C)]),
      duplicates in C counted as numpy counts them. */
  function BlockSum(m: Matrix, C: seq<int>): real
  {
    SumOf(C, u => SumOf(C, v => Entry(m, u, v)))
  }

  /** Sum of d[u] over the entries of C (numpy's d[C]). */
  function VecSum(d: Vector, C: seq<int>): real
  {
    SumOf(C, u => At(d, u))
  }

  /** The positive part of the numerator: 2 * sum A+[C x C] - 2 (1 - lambda) sum D+[C]. */
  function PlusPart(C: seq<int>, aPlus: Matrix, dPlus: Vector, lambda: real): real
  {
    2.0 * BlockSum(aPlus, C) - 2.0 * (1.0 - lambda) * VecSum(dPlus, C)
  }

  /** The negative part of the numerator: 2 * sum A-[C x C] - 2 lambda sum D-[C]. */
  function MinusPart(C: seq<int>, aMinus: Matrix, dMinus: Vector, lambda: real): real
  {
    2.0 * BlockSum(aMinus, C) - 2.0 * lambda * VecSum(dMinus, C)
  }

  /** |C| * w_C: the weight before the division by the community size. */
  function Numerator(C: seq<int>, aPlus: Matrix, aMinus: Matrix, dPlus: Vector, dMinus: Vector, lambda: real): real
  {
    PlusPart(C, aPlus, dPlus, lambda) - MinusPart(C, aMinus, dMinus, lambda)
  }

  /** calc_w_C. numpy divides 0 by 0 (giving NaN) for an empty C, so a
      community must have a member. */
  function CalcWC(C: seq<int>, aPlus: Matrix, aMinus: Matrix, dPlus: Vector, dMinus: Vector, lambda: real): (w: real)
    requires |C| >= 1
    ensures w * |C| as real == Numerator(C, aPlus, aMinus, dPlus, dMinus, lambda)
  {
    Numerator(C, aPlus, aMinus, dPlus, dMinus, lambda) / |C| as real
  }

  /** The defining equation of CalcWC, with the product as a Times term. */
  lemma WeightTimesSize(C: seq<int>, aPlus: Matrix, aMinus: Matrix, dPlus: Vector, dMinus: Vector, lambda: real)
    requires |C| >= 1
    ensures Times(CalcWC(C, aPlus, aMinus, dPlus, dMinus, lambda), |C| as real) == Numerator(C, aPlus, aMinus, dPlus, dMinus, lambda)
  {
  }

  /** The block sum of C depends only on the multiset of C's entries. */
  lemma BlockSumPermutation(m: Matrix, C: seq<int>, D: seq<int>)
    requires multiset(C) == multiset(D)
    ensures BlockSum(m, C) == BlockSum(m, D)
  {
    var rowC: int -> real := u => SumOf(C, v => Entry(m, u, v));
    var rowD: int -> real := u => SumOf(D, v => Entry(m, u, v));
    forall u | u in C
      ensures rowC(u) == rowD(u)
    {
      SumOfPermutation(C, D, v => Entry(m, u, v));
    }
    SumOfExt(C, rowC, rowD);
    SumOfPermutation(C, D, rowD);
  }

  /** w_C does not depend on the order in which C lists its vertices. */
  lemma WeightPermutation(C: seq<int>, D: seq<int>, aPlus: Matrix, aMinus: Matrix, dPlus: Vector, dMinus: Vector, lambda: real)
    requires |C| >= 1 && multiset(C) == multiset(D)
    ensures |D| >= 1
    ensures CalcWC(C, aPlus, aMinus, dPlus, dMinus, lambda) == CalcWC(D, aPlus, aMinus, dPlus, dMinus, lambda)
  {
    assert |D| == |multiset(D)| == |multiset(C)| == |C|;
    BlockSumPermutation(aPlus, C, D);
    BlockSumPermutation(aMinus, C, D);
    SumOfPermutation(C, D, u => At(dPlus, u));
    SumOfPermutation(C, D, u => At(dMinus, u));
  }

  predicate Distinct(C: seq<int>)
  {
    forall i, j :: 0 <= i < j < |C| ==> C[i] != C[j]
  }

  /** A duplicate-free list holds each of its elements exactly once. */
  lemma {:induction false} DistinctMultiset(C: seq<int>)
    requires Distinct(C)
    ensures forall u :: multiset(C)[u] == if u in C then 1 else 0
  {
    if C != [] {
      assert Distinct(C[1..]) by {
        forall i, j | 0 <= i < j < |C[1..]| ensures C[1..][i] != C[1..][j] {
          assert C[1..][i] == C[i + 1] && C[1..][j] == C[j + 1];
        }
      }
      DistinctMultiset(C[1..]);
      assert C == [C[0]] + C[1..];
      assert C[0] !in C[1..] by {
        forall k | 0 <= k < |C[1..]| ensures C[1..][k] != C[0] {
          assert C[1..][k] == C[k + 1];
        }
      }
      forall u ensures multiset(C)[u] == if u in C then 1 else 0 {
        assert multiset(C) == multiset{C[0]} + multiset(C[1..]);
        assert u in C <==> u == C[0] || u in C[1..];
      }
    }
  }

  /** Two duplicate-free lists with the same vertices (the same frozenset)
      have the same weight. */
  lemma WeightOfSet(C: seq<int>, D: seq<int>, aPlus: Matrix, aMinus: Matrix, dPlus: Vector, dMinus: Vector, lambda: real)
    requires |C| >= 1 && Distinct(C) && Distinct(D)
    requires forall u :: u in C <==> u in D
    ensures |D| >= 1
    ensures CalcWC(C, aPlus, aMinus, dPlus, dMinus, lambda) == CalcWC(D, aPlus, aMinus, dPlus, dMinus, lambda)
  {
    DistinctMultiset(C);
    DistinctMultiset(D);
    assert multiset(C) == multiset(D);
    WeightPermutation(C, D, aPlus, aMinus, dPlus, dMinus, lambda);
  }

  /** The weight of a singleton {u}: with no self-loops only the degree terms remain. */
  lemma SingletonWeight(u: int, aPlus: Matrix, aMinus: Matrix, dPlus: Vector, dMinus: Vector, lambda: real)
    requires Entry(aPlus, u, u) == 0.0 && Entry(aMinus, u, u) == 0.0
    ensures CalcWC([u], aPlus, aMinus, dPlus, dMinus, lambda)
         == -2.0 * (1.0 - lambda) * At(dPlus, u) + 2.0 * lambda * At(dMinus, u)
  {
    var C := [u];
    SumOfSingleton(u, v => Entry(aPlus, u, v));
    SumOfSingleton(u, w => SumOf(C, v => Entry(aPlus, w, v)));
    SumOfSingleton(u, v => Entry(aMinus, u, v));
    SumOfSingleton(u, w => SumOf(C, v => Entry(aMinus, w, v)));
    SumOfSingleton(u, w => At(dPlus, w));
    SumOfSingleton(u, w => At(dMinus, w));
  }

  /** At lambda = 1/2 a singleton weighs its negative degree minus its positive degree. */
  lemma SingletonWeightHalf(u: int, aPlus: Matrix, aMinus: Matrix, dPlus: Vector, dMinus: Vector)
    requires Entry(aPlus, u, u) == 0.0 && Entry(aMinus, u, u) == 0.0
    ensures CalcWC([u], aPlus, aMinus, dPlus, dMinus, 0.5) == At(dMinus, u) - At(dPlus, u)
  {
    SingletonWeight(u, aPlus, aMinus, dPlus, dMinus, 0.5);
  }
}
