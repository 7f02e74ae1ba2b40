/** The deterministic initial partitions (Code/utils/partition.py). A
    partition is a list of blocks, each block a list of vertices. */
module Partition {
  import opened Results

  type Block = seq<int>

  /** The vertices of all blocks, block after block. */
  function Flatten(blocks: seq<Block>): seq<int>
  {
    if blocks == [] then [] else blocks[0] + Flatten(blocks[1..])
  }

  lemma {:induction false} FlattenConcat(a: seq<Block>, b: seq<Block>)
    ensures Flatten(a + b) == Flatten(a) + Flatten(b)
    decreases |a|
  {
    if a == [] {
      assert a + b == b;
    } else {
      assert (a + b)[1..] == a[1..] + b;
      FlattenConcat(a[1..], b);
    }
  }

  /** generate_singleton: one single-vertex block per vertex. */
  function GenerateSingleton(vertices: seq<int>): (blocks: seq<Block>)
    ensures |blocks| == |vertices|
    ensures forall i :: 0 <= i < |blocks| ==> |blocks[i]| == 1
  {
    seq(|vertices|, i requires 0 <= i < |vertices| => [vertices[i]])
  }

  /** Reading the singleton blocks in order gives back the vertex list: every
      vertex is in exactly one block, in input order. */
  lemma {:induction false} SingletonFlatten(vertices: seq<int>)
    ensures Flatten(GenerateSingleton(vertices)) == vertices
    decreases |vertices|
  {
    if vertices != [] {
      SingletonFlatten(vertices[1..]);
      assert GenerateSingleton(vertices)[1..] == GenerateSingleton(vertices[1..]);
    }
  }

  /** What generate_partition returns for 1 <= k <= n: the first k vertices
      open one block each and every later vertex joins block 0, because the
      counter stops at k and k % k is 0. */
  function FirstBlockCollects(vertices: seq<int>, k: int): seq<Block>
    requires 1 <= k <= |vertices|
  {
    [[vertices[0]] + vertices[k..]] + seq(k - 1, j requires 0 <= j < k - 1 => [vertices[j + 1]])
  }

  /** The outcome of generate_partition(vertices, k), case by case. */
  function PartitionOutcome(vertices: seq<int>, k: int): Result<seq<Block>>
  {
    if k > |vertices| then Err(ValueError)
    else if |vertices| == 0 then Ok([])
    else if k == 0 then Err(ZeroDivisionError)   // res[cnt % 0]
    else if k < 0 then Err(IndexError)           // res is still empty
    else Ok(FirstBlockCollects(vertices, k))
  }

  /** The partial result after the loop has seen the first t vertices. */
  function Prefix(vertices: seq<int>, k: int, t: int): seq<Block>
    requires 1 <= k && 0 <= t <= |vertices|
  {
    if t <= k then seq(t, j requires 0 <= j < t => [vertices[j]])
    else [[vertices[0]] + vertices[k..t]] + seq(k - 1, j requires 0 <= j < k - 1 => [vertices[j + 1]])
  }

  lemma PrefixOpen(vertices: seq<int>, k: int, t: int)
    requires 1 <= k && 0 <= t < |vertices| && t < k
    ensures Prefix(vertices, k, t + 1) == Prefix(vertices, k, t) + [[vertices[t]]]
  {
  }

  lemma PrefixJoin(vertices: seq<int>, k: int, t: int)
    requires 1 <= k <= t < |vertices|
    ensures |Prefix(vertices, k, t)| == k
    ensures Prefix(vertices, k, t + 1) == Prefix(vertices, k, t)[0 := Prefix(vertices, k, t)[0] + [vertices[t]]]
  {
    if t == k {
      assert vertices[k..k + 1] == [vertices[k]];
      assert Prefix(vertices, k, t)[0] == [vertices[0]];
      assert [vertices[0]] + vertices[k..k + 1] == [vertices[0]] + [vertices[k]];
    } else {
      var singles := seq(k - 1, j requires 0 <= j < k - 1 => [vertices[j + 1]]);
      var before := [vertices[0]] + vertices[k..t];
      assert vertices[k..t + 1] == vertices[k..t] + [vertices[t]];
      assert [vertices[0]] + vertices[k..t + 1] == before + [vertices[t]];
      assert Prefix(vertices, k, t) == [before] + singles;
      assert Prefix(vertices, k, t + 1) == [before + [vertices[t]]] + singles;
      assert ([before] + singles)[0 := before + [vertices[t]]] == [before + [vertices[t]]] + singles;
    }
  }

  lemma PrefixDone(vertices: seq<int>, k: int)
    requires 1 <= k <= |vertices|
    ensures Prefix(vertices, k, |vertices|) == FirstBlockCollects(vertices, k)
  {
    var n := |vertices|;
    if n == k {
      var p := Prefix(vertices, k, n);
      var f := FirstBlockCollects(vertices, k);
      assert vertices[k..] == [];
      assert |p| == |f|;
      forall j | 0 <= j < k ensures p[j] == f[j] {
        if j > 0 {
          assert f[j] == [vertices[j]];
        }
      }
    } else {
      assert vertices[k..n] == vertices[k..];
    }
  }

  lemma ModSelf(k: int)
    requires k >= 1
    ensures k % k == 0
  {
    assert k == 1 * k + 0;
  }

  /** generate_partition: the loop as written, with its counter. */
  method GeneratePartition(vertices: seq<int>, k: int) returns (r: Result<seq<Block>>)
    ensures r == PartitionOutcome(vertices, k)
  {
    var n := |vertices|;
    if k > n {
      return Err(ValueError);
    }
    var res: seq<Block> := [];
    var cnt := 0;
    var t := 0;
    while t < n
      invariant 0 <= t <= n
      invariant k <= 0 ==> t == 0 && res == [] && cnt == 0
      invariant k >= 1 ==> cnt == (if t <= k then t else k) && res == Prefix(vertices, k, t)
    {
      if k <= 0 {
        // cnt is 0 and not below k, so the first vertex reaches res[cnt % k]:
        // Python's 0 % 0 raises, and 0 % k is 0 for negative k while res is empty
        return Err(if k == 0 then ZeroDivisionError else IndexError);
      }
      res, cnt := PlaceVertex(vertices, k, t, res, cnt);
      t := t + 1;
    }
    if k >= 1 {
      PrefixDone(vertices, k);
    }
    return Ok(res);
  }

  /** One pass of the generate_partition loop for k >= 1: vertex t opens a
      new block while fewer than k blocks exist, and otherwise joins block
      cnt % k. */
  method PlaceVertex(vertices: seq<int>, k: int, t: int, res: seq<Block>, cnt: int)
    returns (res': seq<Block>, cnt': int)
    requires 1 <= k && 0 <= t < |vertices|
    requires cnt == (if t <= k then t else k) && res == Prefix(vertices, k, t)
    ensures cnt' == (if t + 1 <= k then t + 1 else k) && res' == Prefix(vertices, k, t + 1)
  {
    var i := vertices[t];
    if cnt < k {
      PrefixOpen(vertices, k, t);
      res' := res + [[i]];
      cnt' := cnt + 1;
    } else {
      PrefixJoin(vertices, k, t);
      ModSelf(k);
      var b := cnt % k;
      res' := res[b := res[b] + [i]];
      cnt' := cnt;
    }
  }

  /** For 1 <= k <= n there are exactly k blocks. */
  lemma BlockCount(vertices: seq<int>, k: int)
    requires 1 <= k <= |vertices|
    ensures PartitionOutcome(vertices, k).Ok?
    ensures |PartitionOutcome(vertices, k).value| == k
  {
  }

  /** generate_partition raises ValueError exactly when k exceeds the number
      of vertices. */
  lemma ValueErrorIff(vertices: seq<int>, k: int)
    ensures PartitionOutcome(vertices, k) == Err(ValueError) <==> k > |vertices|
  {
  }

  lemma {:induction false} FlattenSingletons(s: seq<int>)
    ensures Flatten(seq(|s|, j requires 0 <= j < |s| => [s[j]])) == s
    decreases |s|
  {
    if s != [] {
      var bs := seq(|s|, j requires 0 <= j < |s| => [s[j]]);
      FlattenSingletons(s[1..]);
      assert bs[1..] == seq(|s[1..]|, j requires 0 <= j < |s[1..]| => [s[1..][j]]);
    }
  }

  /** Every vertex is placed exactly once: the blocks hold a permutation of the
      input, so their lengths add up to n. */
  lemma FirstBlockCollectsPermutes(vertices: seq<int>, k: int)
    requires 1 <= k <= |vertices|
    ensures multiset(Flatten(FirstBlockCollects(vertices, k))) == multiset(vertices)
    ensures |Flatten(FirstBlockCollects(vertices, k))| == |vertices|
  {
    var rest := vertices[1..k];
    var singles := seq(k - 1, j requires 0 <= j < k - 1 => [vertices[j + 1]]);
    assert singles == seq(|rest|, j requires 0 <= j < |rest| => [rest[j]]);
    FlattenSingletons(rest);
    FlattenConcat([[vertices[0]] + vertices[k..]], singles);
    assert Flatten([[vertices[0]] + vertices[k..]]) == [vertices[0]] + vertices[k..];
    assert vertices == [vertices[0]] + rest + vertices[k..];
    calc {
      multiset(Flatten(FirstBlockCollects(vertices, k)));
      multiset([vertices[0]] + vertices[k..] + rest);
      multiset([vertices[0]] + rest + vertices[k..]);
      multiset(vertices);
    }
  }
}
