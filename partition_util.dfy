/** Random initial partitions (Code/utils/partition_util.py). The shuffle is
    not modelled as randomness: the shuffled order of the vertices is a
    parameter, and generate_unique_partitions draws its orders from a
    sequence of them. */
module PartitionUtil {
  import opened Results
  import opened Partition

  /** The entries s[i] with i % p == j, in order: what block j receives when
      the vertices are dealt round-robin into p blocks. */
  function Stride(s: seq<int>, j: int, p: int): seq<int>
    requires p >= 1
  {
    if s == [] then []
    else Stride(s[..|s| - 1], j, p) + (if (|s| - 1) % p == j then [s[|s| - 1]] else [])
  }

  /** The p blocks of a round-robin deal of s. */
  function Strides(s: seq<int>, p: int): seq<Block>
    requires p >= 1
  {
    seq(p, j => Stride(s, j, p))
  }

  /** The outcome of generate_random_partition(vertices, p) when the shuffle
      produced `order`. */
  function RandomPartitionOutcome(vertices: seq<int>, p: int, order: seq<int>): Result<seq<Block>>
  {
    if p > |vertices| then Err(ValueError)
    else if |vertices| == 0 then Ok([])           // range(p) is empty for p <= 0
    else if p == 0 then Err(ZeroDivisionError)    // i % 0
    else if p < 0 then Err(IndexError)            // partitions is empty
    else Ok(Strides(order, p))
  }

  /** Dealing one more vertex adds it to block |s| % p and changes nothing else. */
  lemma StridesSnoc(s: seq<int>, x: int, p: int)
    requires p >= 1
    ensures 0 <= |s| % p < p
    ensures Strides(s + [x], p) == Strides(s, p)[|s| % p := Strides(s, p)[|s| % p] + [x]]
  {
    var t := s + [x];
    assert t[..|t| - 1] == s;
    var b := |s| % p;
    var before := Strides(s, p);
    var after := Strides(t, p);
    forall j | 0 <= j < p
      ensures after[j] == before[b := before[b] + [x]][j]
    {
      assert after[j] == Stride(s, j, p) + (if b == j then [x] else []);
    }
  }

  /** generate_random_partition, with the shuffled copy of the vertex list as
      a parameter; the caller's list is never changed. */
  method GenerateRandomPartition(vertices: seq<int>, p: int, order: seq<int>) returns (r: Result<seq<Block>>)
    requires multiset(order) == multiset(vertices)
    ensures r == RandomPartitionOutcome(vertices, p, order)
  {
    if p > |vertices| {
      return Err(ValueError);
    }
    assert |order| == |vertices| by {
      assert |multiset(order)| == |multiset(vertices)|;
    }
    var partitions := NoBlocks(p);
    var i := 0;
    while i < |order|
      invariant 0 <= i <= |order|
      invariant p <= 0 ==> i == 0 && partitions == []
      invariant p >= 1 ==> partitions == Strides(order[..i], p)
    {
      if p == 0 {
        return Err(ZeroDivisionError);
      } else if p < 0 {
        // Python's 0 % p is 0 for negative p, and there is no block 0
        return Err(IndexError);
      }
      assert order[..i + 1] == order[..i] + [order[i]];
      StridesSnoc(order[..i], order[i], p);
      var b := i % p;
      partitions := partitions[b := partitions[b] + [order[i]]];
      i := i + 1;
    }
    if p >= 1 {
      assert order[..i] == order;
    }
    return Ok(partitions);
  }

  /** generate_random_partition raises ValueError exactly when there are more
      blocks than vertices. */
  lemma RandomValueErrorIff(vertices: seq<int>, p: int, order: seq<int>)
    ensures RandomPartitionOutcome(vertices, p, order) == Err(ValueError) <==> p > |vertices|
  {
  }

  /** Adding x to one block adds x to the flattened multiset. */
  lemma {:induction false} FlattenAppend(bs: seq<Block>, b: int, x: int)
    requires 0 <= b < |bs|
    ensures multiset(Flatten(bs[b := bs[b] + [x]])) == multiset(Flatten(bs)) + multiset{x}
    decreases |bs|
  {
    var cs := bs[b := bs[b] + [x]];
    assert Flatten(cs) == cs[0] + Flatten(cs[1..]);
    assert Flatten(bs) == bs[0] + Flatten(bs[1..]);
    if b == 0 {
      assert cs[0] == bs[0] + [x] && cs[1..] == bs[1..];
    } else {
      assert cs[0] == bs[0] && cs[1..] == bs[1..][b - 1 := bs[1..][b - 1] + [x]];
      FlattenAppend(bs[1..], b - 1, x);
    }
  }

  /** `[[] for _ in range(p)]`. */
  function NoBlocks(p: int): (bs: seq<Block>)
    ensures |bs| == if p <= 0 then 0 else p
  {
    if p <= 0 then [] else seq(p, _ => [])
  }

  lemma {:induction false} EmptyBlocks(p: int)
    ensures Flatten(NoBlocks(p)) == []
    decreases p
  {
    if p > 0 {
      assert NoBlocks(p)[1..] == NoBlocks(p - 1);
      EmptyBlocks(p - 1);
    }
  }

  /** The round-robin deal places every vertex exactly once. */
  lemma {:induction false} StridesPermute(s: seq<int>, p: int)
    requires p >= 1
    ensures multiset(Flatten(Strides(s, p))) == multiset(s)
    decreases |s|
  {
    if s == [] {
      assert Strides(s, p) == NoBlocks(p);
      EmptyBlocks(p);
    } else {
      var init := s[..|s| - 1];
      var x := s[|s| - 1];
      assert s == init + [x];
      StridesPermute(init, p);
      StridesSnoc(init, x, p);
      FlattenAppend(Strides(init, p), |init| % p, x);
    }
  }

  /** x is in block j exactly when it sits at a position i with i % p == j. */
  lemma {:induction false} StrideMember(s: seq<int>, j: int, p: int, x: int)
    requires p >= 1
    ensures x in Stride(s, j, p) <==> exists i :: 0 <= i < |s| && i % p == j && s[i] == x
    decreases |s|
  {
    if s != [] {
      var init := s[..|s| - 1];
      StrideMember(init, j, p, x);
      if x in Stride(s, j, p) && x !in Stride(init, j, p) {
        assert s[|s| - 1] == x;
      }
      if exists i :: 0 <= i < |s| && i % p == j && s[i] == x {
        var i :| 0 <= i < |s| && i % p == j && s[i] == x;
        if i < |s| - 1 {
          assert init[i] == x;
        }
      }
    }
  }

  /** Division by p of m + 1, from that of m. */
  lemma DivModSucc(m: nat, p: int)
    requires p >= 1
    ensures (m + 1) / p == m / p + (if m % p == p - 1 then 1 else 0)
    ensures (m + 1) % p == (if m % p == p - 1 then 0 else m % p + 1)
  {
    var q := m / p;
    var r := m % p;
    assert m == q * p + r;
    if r == p - 1 {
      assert m + 1 == (q + 1) * p + 0;
      DivModUnique(m + 1, p, q + 1, 0);
    } else {
      assert m + 1 == q * p + (r + 1);
      DivModUnique(m + 1, p, q, r + 1);
    }
  }

  /** Quotient and remainder are the only such pair. */
  lemma DivModUnique(a: int, p: int, q: int, r: int)
    requires p >= 1 && 0 <= r < p && a == q * p + r
    ensures a / p == q && a % p == r
  {
    var q' := a / p;
    var r' := a % p;
    assert a == q' * p + r';
    assert (q - q') * p == r' - r;
    if q - q' >= 1 {
      assert false;
    } else if q - q' <= -1 {
      assert false;
    }
  }

  /** Block j holds |s| / p vertices, one more for the first |s| % p blocks,
      so the block sizes differ by at most one. */
  lemma {:induction false} StrideSize(s: seq<int>, j: int, p: int)
    requires p >= 1 && 0 <= j < p
    ensures |Stride(s, j, p)| == |s| / p + (if j < |s| % p then 1 else 0)
    decreases |s|
  {
    if s != [] {
      var m := |s| - 1;
      StrideSize(s[..m], j, p);
      DivModSucc(m, p);
    }
  }

  /** Every block of a successful random partition is non-empty when p <= n,
      and no two blocks differ in size by more than one. */
  lemma RandomPartitionBalanced(vertices: seq<int>, p: int, order: seq<int>, a: int, b: int)
    requires multiset(order) == multiset(vertices)
    requires RandomPartitionOutcome(vertices, p, order).Ok?
    requires 0 <= a < b < |RandomPartitionOutcome(vertices, p, order).value|
    ensures var blocks := RandomPartitionOutcome(vertices, p, order).value;
      1 <= |blocks[a]| && 0 <= |blocks[a]| - |blocks[b]| <= 1
  {
    assert |multiset(order)| == |multiset(vertices)|;
    var n := |order|;
    StrideSize(order, a, p);
    StrideSize(order, b, p);
  }

  /** Every block of a successful random partition is non-empty, the last
      one and the only one when p = 1 included. */
  lemma RandomPartitionNonEmpty(vertices: seq<int>, p: int, order: seq<int>)
    requires multiset(order) == multiset(vertices)
    requires RandomPartitionOutcome(vertices, p, order).Ok?
    ensures var blocks := RandomPartitionOutcome(vertices, p, order).value;
      forall j :: 0 <= j < |blocks| ==> 1 <= |blocks[j]|
  {
    assert |multiset(order)| == |multiset(vertices)|;
    var blocks := RandomPartitionOutcome(vertices, p, order).value;
    forall j | 0 <= j < |blocks| ensures 1 <= |blocks[j]| {
      StrideSize(order, j, p);
    }
  }

  /** A successful random partition has p blocks holding every vertex once. */
  lemma RandomPartitionIsPartition(vertices: seq<int>, p: int, order: seq<int>)
    requires multiset(order) == multiset(vertices)
    requires RandomPartitionOutcome(vertices, p, order).Ok?
    ensures |RandomPartitionOutcome(vertices, p, order).value| == if p >= 1 then p else 0
    ensures multiset(Flatten(RandomPartitionOutcome(vertices, p, order).value)) == multiset(vertices)
  {
    if p >= 1 {
      StridesPermute(order, p);
    }
  }

  // sorted(community)

  predicate SortedInts(s: seq<int>)
  {
    forall a, b :: 0 <= a < b < |s| ==> s[a] <= s[b]
  }

  /** Inserting x before the first element not below it. */
  function Insert(x: int, s: seq<int>): (r: seq<int>)
    ensures multiset(r) == multiset(s) + multiset{x}
    ensures |r| == |s| + 1
  {
    if s == [] || x <= s[0] then [x] + s
    else
      assert s == [s[0]] + s[1..];
      [s[0]] + Insert(x, s[1..])
  }

  /** Insertion keeps a sorted list sorted. */
  lemma {:induction false} InsertSorted(x: int, s: seq<int>)
    requires SortedInts(s)
    ensures SortedInts(Insert(x, s))
    decreases |s|
  {
    if s != [] && x > s[0] {
      InsertSorted(x, s[1..]);
      InsertAtLeast(x, s[1..], s[0]);
      var r := Insert(x, s);
      assert r == [s[0]] + Insert(x, s[1..]);
    }
  }

  /** Every element of the result is at least lo when x and s's are. */
  lemma InsertAtLeast(x: int, s: seq<int>, lo: int)
    requires lo <= x && forall a :: 0 <= a < |s| ==> lo <= s[a]
    ensures forall a :: 0 <= a < |Insert(x, s)| ==> lo <= Insert(x, s)[a]
  {
    var r := Insert(x, s);
    forall a | 0 <= a < |r| ensures lo <= r[a] {
      assert r[a] in multiset(r);
      if r[a] != x {
        assert r[a] in multiset(s);
        var k :| 0 <= k < |s| && s[k] == r[a];
      }
    }
  }

  /** Python's sorted on a list of integers. */
  function SortInts(s: seq<int>): (r: seq<int>)
    ensures SortedInts(r)
    ensures multiset(r) == multiset(s)
  {
    if s == [] then []
    else
      assert s == [s[0]] + s[1..];
      InsertSorted(s[0], SortInts(s[1..]));
      Insert(s[0], SortInts(s[1..]))
  }

  /** Two sorted lists with the same elements are equal. */
  lemma {:induction false} SortedUnique(x: seq<int>, y: seq<int>)
    requires SortedInts(x) && SortedInts(y) && multiset(x) == multiset(y)
    ensures x == y
    decreases |x|
  {
    assert |x| == |multiset(x)| == |multiset(y)| == |y|;
    if x != [] {
      SortedHeads(x, y);
      SameTails(x, y);
      SortedUnique(x[1..], y[1..]);
    }
  }

  /** Two sorted lists with the same elements start alike. */
  lemma SortedHeads(x: seq<int>, y: seq<int>)
    requires SortedInts(x) && SortedInts(y) && multiset(x) == multiset(y) && x != []
    ensures y != [] && x[0] == y[0]
  {
    assert x[0] in multiset(y);
    var i :| 0 <= i < |y| && y[i] == x[0];
    assert y[0] in multiset(x);
    var k :| 0 <= k < |x| && x[k] == y[0];
    assert x[0] <= x[k] && y[0] <= y[i];
  }

  /** Removing the same first element leaves the same elements. */
  lemma SameTails(x: seq<int>, y: seq<int>)
    requires multiset(x) == multiset(y) && x != [] && y != [] && x[0] == y[0]
    ensures multiset(x[1..]) == multiset(y[1..])
  {
    assert x == [x[0]] + x[1..] && y == [y[0]] + y[1..];
    assert multiset(x[1..]) == multiset(x) - multiset{x[0]};
    assert multiset(y[1..]) == multiset(y) - multiset{y[0]};
  }

  /** Sorting forgets the order: lists with the same elements sort alike. */
  lemma SortForgetsOrder(a: seq<int>, b: seq<int>)
    ensures multiset(a) == multiset(b) <==> SortInts(a) == SortInts(b)
  {
    if multiset(a) == multiset(b) {
      SortedUnique(SortInts(a), SortInts(b));
    }
  }

  /** tuple(tuple(sorted(c)) for c in partition). */
  function Canonical(blocks: seq<Block>): (c: seq<Block>)
    ensures |c| == |blocks|
    ensures forall j :: 0 <= j < |c| ==> SortedInts(c[j]) && multiset(c[j]) == multiset(blocks[j])
  {
    seq(|blocks|, j requires 0 <= j < |blocks| => SortInts(blocks[j]))
  }

  /** Two partitions have the same canonical form exactly when they have the
      same blocks in the same positions, up to the order inside each block. */
  lemma CanonicalIff(a: seq<Block>, b: seq<Block>)
    ensures Canonical(a) == Canonical(b) <==>
      |a| == |b| && forall j :: 0 <= j < |a| ==> multiset(a[j]) == multiset(b[j])
  {
    if |a| == |b| && forall j :: 0 <= j < |a| ==> multiset(a[j]) == multiset(b[j]) {
      forall j | 0 <= j < |a| ensures Canonical(a)[j] == Canonical(b)[j] {
        SortForgetsOrder(a[j], b[j]);
      }
    }
    if Canonical(a) == Canonical(b) {
      forall j | 0 <= j < |a| ensures multiset(a[j]) == multiset(b[j]) {
        assert Canonical(a)[j] == Canonical(b)[j];
      }
    }
  }

  lemma {:induction false} FlattenMultisetBlockwise(a: seq<Block>, b: seq<Block>)
    requires |a| == |b| && forall j :: 0 <= j < |a| ==> multiset(a[j]) == multiset(b[j])
    ensures multiset(Flatten(a)) == multiset(Flatten(b))
    decreases |a|
  {
    if a != [] {
      assert multiset(a[0]) == multiset(b[0]);
      FlattenMultisetBlockwise(a[1..], b[1..]);
    }
  }

  /** What every collected sample is: p sorted blocks that together hold
      every vertex exactly once. */
  predicate CanonicalPartition(c: seq<Block>, vertices: seq<int>, p: int)
  {
    |c| == p
    && (forall j :: 0 <= j < |c| ==> SortedInts(c[j]))
    && multiset(Flatten(c)) == multiset(vertices)
  }

  lemma CanonicalOfDeal(vertices: seq<int>, p: int, order: seq<int>)
    requires p >= 1 && multiset(order) == multiset(vertices)
    ensures CanonicalPartition(Canonical(Strides(order, p)), vertices, p)
  {
    StridesPermute(order, p);
    FlattenMultisetBlockwise(Canonical(Strides(order, p)), Strides(order, p));
  }

  function ElementsOf<T>(s: seq<T>): set<T>
  {
    set x | x in s
  }

  /** The collected set after the first k deals: every one of them succeeded
      and its canonical form was collected, and nothing else was. */
  ghost predicate DealtFrom(unique: set<seq<Block>>, vertices: seq<int>, p: int, orders: seq<seq<int>>, k: int)
    requires 0 <= k <= |orders|
  {
    && (forall t :: 0 <= t < k ==>
          RandomPartitionOutcome(vertices, p, orders[t]).Ok?
          && Canonical(RandomPartitionOutcome(vertices, p, orders[t]).value) in unique)
    && (forall c :: c in unique ==>
          (exists t :: 0 <= t < k
             && RandomPartitionOutcome(vertices, p, orders[t]).Ok?
             && c == Canonical(RandomPartitionOutcome(vertices, p, orders[t]).value)))
  }

  /** One more successful deal adds its canonical form and nothing else. */
  lemma DealtStep(unique: set<seq<Block>>, c: seq<Block>, vertices: seq<int>, p: int, orders: seq<seq<int>>, k: int)
    requires 0 <= k < |orders| && DealtFrom(unique, vertices, p, orders, k)
    requires RandomPartitionOutcome(vertices, p, orders[k]).Ok?
    requires c == Canonical(RandomPartitionOutcome(vertices, p, orders[k]).value)
    ensures DealtFrom(unique + {c}, vertices, p, orders, k + 1)
  {
    forall d | d in unique + {c}
      ensures exists t :: (0 <= t < k + 1
        && RandomPartitionOutcome(vertices, p, orders[t]).Ok?
        && d == Canonical(RandomPartitionOutcome(vertices, p, orders[t]).value))
    {
      if d !in unique {
        assert d == Canonical(RandomPartitionOutcome(vertices, p, orders[k]).value);
      }
    }
  }

  /** Whatever the deals collected is a canonical partition of the vertices. */
  lemma DealtShape(unique: set<seq<Block>>, vertices: seq<int>, p: int, orders: seq<seq<int>>, k: int)
    requires forall t :: 0 <= t < |orders| ==> multiset(orders[t]) == multiset(vertices)
    requires 0 <= k <= |orders| && DealtFrom(unique, vertices, p, orders, k)
    ensures p >= 1 ==> forall c :: c in unique ==> CanonicalPartition(c, vertices, p)
  {
    if p >= 1 {
      forall c | c in unique
        ensures CanonicalPartition(c, vertices, p)
      {
        var t :| 0 <= t < k
          && RandomPartitionOutcome(vertices, p, orders[t]).Ok?
          && c == Canonical(RandomPartitionOutcome(vertices, p, orders[t]).value);
        CanonicalOfDeal(vertices, p, orders[t]);
      }
    }
  }

  /** generate_unique_partitions. The i-th call to random.shuffle yields
      orders[i]; the loop runs until it has num_samples distinct canonical
      partitions, and ends Unfinished when it runs out of orders. */
  method GenerateUniquePartitions(vertices: seq<int>, p: int, numSamples: int, orders: seq<seq<int>>)
    returns (r: Run<seq<seq<Block>>>)
    requires forall t :: 0 <= t < |orders| ==> multiset(orders[t]) == multiset(vertices)
    ensures r.Finished? && r.result.Err? ==>
      numSamples >= 1 && RandomPartitionOutcome(vertices, p, vertices) == Err(r.result.error)
    ensures r.Finished? && r.result.Ok? ==>
      var samples := r.result.value;
      |samples| == (if numSamples <= 0 then 0 else numSamples)
      && (forall a, b :: 0 <= a < b < |samples| ==> samples[a] != samples[b])
      && (p >= 1 ==> forall a :: 0 <= a < |samples| ==> CanonicalPartition(samples[a], vertices, p))
      && exists k :: 0 <= k <= |orders| && DealtFrom(ElementsOf(samples), vertices, p, orders, k)
  {
    var unique: set<seq<Block>> := {};
    var used := 0;
    while |unique| < numSamples
      invariant 0 <= used <= |orders|
      invariant |unique| <= (if numSamples <= 0 then 0 else numSamples)
      invariant DealtFrom(unique, vertices, p, orders, used)
      decreases |orders| - used
    {
      if used == |orders| {
        return Unfinished;
      }
      var order := orders[used];
      used := used + 1;
      var partition := GenerateRandomPartition(vertices, p, order);
      if partition.Err? {
        return Finished(Err(partition.error));
      }
      var canonical := Canonical(partition.value);
      assert order == orders[used - 1];
      DealtStep(unique, canonical, vertices, p, orders, used - 1);
      unique := unique + {canonical};
    }
    DealtShape(unique, vertices, p, orders, used);
    var samples := ListOfSet(unique);
    assert ElementsOf(samples) == unique;
    assert DealtFrom(ElementsOf(samples), vertices, p, orders, used);
    return Finished(Ok(samples));
  }

  /** `list(...)` over a set: its elements once each, in an order the set
      does not fix. */
  method ListOfSet<T>(unique: set<T>) returns (samples: seq<T>)
    ensures |samples| == |unique|
    ensures forall a, b :: 0 <= a < b < |samples| ==> samples[a] != samples[b]
    ensures forall a :: 0 <= a < |samples| ==> samples[a] in unique
    ensures forall c :: c in unique <==> c in samples
  {
    samples := [];
    var rest := unique;
    while rest != {}
      invariant rest <= unique
      invariant |samples| + |rest| == |unique|
      invariant forall a, b :: 0 <= a < b < |samples| ==> samples[a] != samples[b]
      invariant forall a :: 0 <= a < |samples| ==> samples[a] in unique && samples[a] !in rest
      invariant forall c :: c in unique ==> c in samples || c in rest
      decreases |rest|
    {
      var c :| c in rest;
      samples := samples + [c];
      rest := rest - {c};
    }
  }
}
