/** The three-vertex signed graph of Code/tests/test_graph.py: edges (0,1) and
    (1,2) negative, (0,2) positive. */
module Scenario {
  import opened Sums
  import opened Matrices
  import opened Graph
  import opened Wc

  const TestMatrix: Matrix := [[0.0, -1.0, 1.0], [-1.0, 0.0, -1.0], [1.0, -1.0, 0.0]]

  const TestPlus: Matrix := [[0.0, 0.0, 1.0], [0.0, 0.0, 0.0], [1.0, 0.0, 0.0]]
  const TestMinus: Matrix := [[0.0, 1.0, 0.0], [1.0, 0.0, 1.0], [0.0, 1.0, 0.0]]

  lemma TestParts()
    ensures PositivePart(TestMatrix) == TestPlus
    ensures NegativePart(TestMatrix) == TestMinus
  {
    var p := PositivePart(TestMatrix);
    var m := NegativePart(TestMatrix);
    forall i, j | 0 <= i < 3 && 0 <= j < 3
      ensures p[i][j] == TestPlus[i][j] && m[i][j] == TestMinus[i][j]
    {
      assert Entry(p, i, j) == 0.0 || Entry(p, i, j) == 1.0;
      assert Entry(m, i, j) == 0.0 || Entry(m, i, j) == 1.0;
    }
    assert p[0] == TestPlus[0] && p[1] == TestPlus[1] && p[2] == TestPlus[2];
    assert m[0] == TestMinus[0] && m[1] == TestMinus[1] && m[2] == TestMinus[2];
  }

  /** A sum over the list [0, 1, 2], written out. */
  lemma SumOfThree(f: int -> real)
    ensures SumOf([0, 1, 2], f) == f(0) + f(1) + f(2)
  {
    assert [0, 1, 2][1..] == [1, 2];
    assert [1, 2][1..] == [2];
    SumOfSingleton(2, f);
  }

  /** The degrees the test asserts: D+ = [1, 0, 1] and D- = [1, 2, 1]. */
  lemma TestDegrees()
    ensures RowTotals(PositivePart(TestMatrix)) == [1.0, 0.0, 1.0]
    ensures RowTotals(NegativePart(TestMatrix)) == [1.0, 2.0, 1.0]
  {
    TestParts();
    var p := RowTotals(TestPlus);
    var m := RowTotals(TestMinus);
    assert p[0] == Sum(0, 3, j => Entry(TestPlus, 0, j));
    assert p[1] == Sum(0, 3, j => Entry(TestPlus, 1, j));
    assert p[2] == Sum(0, 3, j => Entry(TestPlus, 2, j));
    assert m[0] == Sum(0, 3, j => Entry(TestMinus, 0, j));
    assert m[1] == Sum(0, 3, j => Entry(TestMinus, 1, j));
    assert m[2] == Sum(0, 3, j => Entry(TestMinus, 2, j));
  }

  lemma EdgesOfTestParts()
    ensures SignedEdges(TestPlus, TestMinus, 3) == map[(0, 1) := -1, (0, 2) := 1, (1, 2) := -1]
  {
    var want := map[(0, 1) := -1, (0, 2) := 1, (1, 2) := -1];
    forall p: (int, int) | 0 <= p.0 < p.1 < 3 ensures p in want && EdgeKept(TestPlus, TestMinus, p.0, p.1) {
      assert p == (0, 1) || p == (0, 2) || p == (1, 2);
    }
    assert SignOf(TestPlus, 0, 1) == -1 && SignOf(TestPlus, 0, 2) == 1 && SignOf(TestPlus, 1, 2) == -1;
    SignedEdgesUnique(TestPlus, TestMinus, 3, want);
  }

  /** Three edges with the signs the test asserts: (0,1) -1, (0,2) 1, (1,2) -1. */
  lemma TestEdges()
    ensures SignedEdges(PositivePart(TestMatrix), NegativePart(TestMatrix), 3)
         == map[(0, 1) := -1, (0, 2) := 1, (1, 2) := -1]
    ensures |SignedEdges(PositivePart(TestMatrix), NegativePart(TestMatrix), 3)| == 3
  {
    TestParts();
    EdgesOfTestParts();
    assert map[(0, 1) := -1, (0, 2) := 1, (1, 2) := -1].Keys == {(0, 1), (0, 2), (1, 2)};
  }

  /** The singleton weights at lambda = 1/2 are D-[u] - D+[u]: 0, 2 and 0. */
  lemma TestSingletonWeights()
    ensures CalcWC([0], TestPlus, TestMinus, [1.0, 0.0, 1.0], [1.0, 2.0, 1.0], 0.5) == 0.0
    ensures CalcWC([1], TestPlus, TestMinus, [1.0, 0.0, 1.0], [1.0, 2.0, 1.0], 0.5) == 2.0
    ensures CalcWC([2], TestPlus, TestMinus, [1.0, 0.0, 1.0], [1.0, 2.0, 1.0], 0.5) == 0.0
  {
    SingletonWeightHalf(0, TestPlus, TestMinus, [1.0, 0.0, 1.0], [1.0, 2.0, 1.0]);
    SingletonWeightHalf(1, TestPlus, TestMinus, [1.0, 0.0, 1.0], [1.0, 2.0, 1.0]);
    SingletonWeightHalf(2, TestPlus, TestMinus, [1.0, 0.0, 1.0], [1.0, 2.0, 1.0]);
  }

  /** The whole vertex set {0, 1, 2} weighs (2 * 2 - 2 - (2 * 4 - 4)) / 3 = -2/3. */
  lemma TestWholeWeight()
    ensures CalcWC([0, 1, 2], TestPlus, TestMinus, [1.0, 0.0, 1.0], [1.0, 2.0, 1.0], 0.5) == -2.0 / 3.0
  {
    BlockThree(TestPlus);
    BlockThree(TestMinus);
    SumOfThree(u => At([1.0, 0.0, 1.0], u));
    SumOfThree(u => At([1.0, 2.0, 1.0], u));
  }

  lemma BlockThree(m: Matrix)
    ensures BlockSum(m, [0, 1, 2]) == Entry(m, 0, 0) + Entry(m, 0, 1) + Entry(m, 0, 2)
      + Entry(m, 1, 0) + Entry(m, 1, 1) + Entry(m, 1, 2)
      + Entry(m, 2, 0) + Entry(m, 2, 1) + Entry(m, 2, 2)
  {
    var C := [0, 1, 2];
    var row: int -> real := u => SumOf(C, v => Entry(m, u, v));
    SumOfThree(row);
    SumOfThree(v => Entry(m, 0, v));
    SumOfThree(v => Entry(m, 1, v));
    SumOfThree(v => Entry(m, 2, v));
  }
}
