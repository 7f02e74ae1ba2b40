/** The loop of Code/utils/column_generation_with_partition.py. Its body
    runs at most once (`while cnt < 1` and `cnt += 1`). It solves the master
    LP, hands the duals to AP_MILPWithPartition, and prices once per
    cardinality k = 2..n. It records the community of every k whose pricing
    optimum exceeds 10e-6, and hands the recorded communities to the master
    LP in the order they were recorded.

    The function returns None. What the model returns is the loop's local
    state at exit: the master optima, the counter and the columns handed to
    the master LP. Both solvers are outside the model: the master's answer
    and pricing (as an oracle of the duals and k) are inputs. */
module ColumnGenerationWithPartition {
  import opened Results
  import opened Matrices
  import opened Dicts
  import opened Pricing
  import opened ProductPricing
  import opened ApMilpWithPartition
  import CG = ColumnGeneration

  type Community = CG.Community

  /** The pricing solver's answer for duals y and cardinality k: its optimum
      and the point it found. */
  datatype KAnswer = KAnswer(opt: real, point: ZPoint)

  /** The state of the pricing model at one solve: its rows and the duals
      of its objective. */
  datatype Solve = Solve(rows: seq<ZRow>, duals: Option<map<int, real>>)

  /** The cardinalities k = 2..hi-1, in increasing order, whose pricing
      optimum with duals y exceeds the threshold. */
  function RecordedKeys(y: map<int, real>, price: (map<int, real>, int) -> KAnswer, hi: int): seq<int>
    decreases hi
  {
    if hi <= 2 then []
    else RecordedKeys(y, price, hi - 1) + (if price(y, hi - 1).opt > CG.Threshold then [hi - 1] else [])
  }

  /** The columns `cloumns` holds after the sweep over k = 2..hi-1 with duals
      y: k is a key when its pricing optimum exceeds the threshold, and maps
      to the community its point selects. */
  function Recorded(n: nat, y: map<int, real>, price: (map<int, real>, int) -> KAnswer, hi: int): Dict<int, Community>
  {
    Dict(RecordedKeys(y, price, hi),
         map k | 2 <= k < hi && price(y, k).opt > CG.Threshold :: CG.PointColumn(n, price(y, k).point.x))
  }

  /** cs lists the columns of d in the order of its keys. */
  predicate InOrder(cs: seq<Community>, d: Dict<int, Community>)
  {
    |cs| == |d.keys| && forall i :: 0 <= i < |d.keys| ==> d.keys[i] in d.vals && cs[i] == d.vals[d.keys[i]]
  }

  /** The solves of the sweep over k = 2..hi-1: each with the cardinality row
      of its k and the duals y. */
  ghost predicate SweptWith(solves: seq<Solve>, n: nat, y: map<int, real>, hi: int)
  {
    && |solves| == (if hi <= 2 then 0 else hi - 2)
    && forall i :: 0 <= i < |solves| ==> solves[i] == Solve(WithCardinality(n, i + 2), Some(y))
  }

  /** `AP_MILPWithPartition(vertices, ...)` with vertices = 0..n-1; the loop
      needs its vertex count and a valid row list. */
  method NewPricing(n: nat, aPlus: Matrix, aMinus: Matrix, dPlus: Vector, dMinus: Vector, lambda: real)
    returns (apMilp: ApMilpWithPartition)
    requires IsSquare(aPlus, n) && IsSquare(aMinus, n)
    ensures fresh(apMilp) && apMilp.n == n && apMilp.Valid()
  {
    apMilp := new ApMilpWithPartition(n, aPlus, aMinus, dPlus, dMinus, lambda);
  }

  /** The state of the sweep before cardinality k: the pricing model holds
      valid rows and the duals y, and `cloumns` and the solves so far are
      those of k' = 2..k-1. */
  ghost predicate SweptTo(apMilp: ApMilpWithPartition, y: map<int, real>, price: (map<int, real>, int) -> KAnswer,
                          k: int, cloumns: Dict<int, Community>, solves: seq<Solve>)
    reads apMilp
  {
    && apMilp.Valid() && apMilp.duals == Some(y)
    && cloumns == Recorded(apMilp.n, y, price, k)
    && SweptWith(solves, apMilp.n, y, k)
  }

  /** One step of the sweep: set the cardinality to k, solve, and record
      the community when the optimum exceeds the threshold. */
  method SweepStep(apMilp: ApMilpWithPartition, price: (map<int, real>, int) -> KAnswer, y: map<int, real>, k: int,
                   cloumns: Dict<int, Community>, ghost solves: seq<Solve>)
    returns (cloumns': Dict<int, Community>, ghost solves': seq<Solve>)
    requires k >= 2 && SweptTo(apMilp, y, price, k, cloumns, solves)
    modifies apMilp
    ensures SweptTo(apMilp, y, price, k + 1, cloumns', solves')
  {
    apMilp.UpdatePartitionConstr(k);
    SweptStep(solves, apMilp.n, y, k);
    solves' := solves + [Solve(apMilp.rows, apMilp.duals)];
    var a := price(y, k);
    var apMilpOpt, apMilpSol := apMilp.SolveModel(a.opt, a.point);
    RecordedStep(apMilp.n, y, price, k);
    RecordedValid(apMilp.n, y, price, k);
    cloumns' := cloumns;
    if apMilpOpt > CG.Threshold {
      var frozenC := CG.NewColumn(apMilpSol.x);
      CG.ReportedColumn(apMilpSol.x, apMilp.n, a.point.x);
      cloumns' := Put(cloumns, k, frozenC);
    }
  }

  lemma SweptStep(solves: seq<Solve>, n: nat, y: map<int, real>, k: int)
    requires k >= 2 && SweptWith(solves, n, y, k)
    ensures SweptWith(solves + [Solve(WithCardinality(n, k), Some(y))], n, y, k + 1)
  {
  }

  /** The sweep `for k in range(2, len(vertices) + 1)`. */
  method Sweep(apMilp: ApMilpWithPartition, price: (map<int, real>, int) -> KAnswer, y: map<int, real>)
    returns (cloumns: Dict<int, Community>, ghost solves: seq<Solve>)
    requires apMilp.Valid() && apMilp.duals == Some(y)
    modifies apMilp
    ensures apMilp.Valid()
    ensures cloumns == Recorded(apMilp.n, y, price, apMilp.n + 1)
    ensures SweptWith(solves, apMilp.n, y, apMilp.n + 1)
  {
    var n := apMilp.n;
    cloumns := Empty();
    solves := [];
    SweepStart(apMilp, y, price);
    var k := 2;
    while k <= n
      invariant 2 <= k && (n < 2 ==> k == 2) && (n >= 2 ==> k <= n + 1)
      invariant SweptTo(apMilp, y, price, k, cloumns, solves)
    {
      cloumns, solves := SweepStep(apMilp, price, y, k, cloumns, solves);
      k := k + 1;
    }
    SweepEnd(apMilp, y, price, k, cloumns, solves);
  }

  lemma SweepStart(apMilp: ApMilpWithPartition, y: map<int, real>, price: (map<int, real>, int) -> KAnswer)
    requires apMilp.Valid() && apMilp.duals == Some(y)
    ensures SweptTo(apMilp, y, price, 2, Empty(), [])
  {
    assert Recorded(apMilp.n, y, price, 2).vals == map[];
  }

  lemma SweepEnd(apMilp: ApMilpWithPartition, y: map<int, real>, price: (map<int, real>, int) -> KAnswer, k: int,
                 cloumns: Dict<int, Community>, solves: seq<Solve>)
    requires SweptTo(apMilp, y, price, k, cloumns, solves)
    requires k == if apMilp.n < 2 then 2 else apMilp.n + 1
    ensures apMilp.Valid()
    ensures cloumns == Recorded(apMilp.n, y, price, apMilp.n + 1)
    ensures SweptWith(solves, apMilp.n, y, apMilp.n + 1)
  {
    if apMilp.n < 2 {
      assert Recorded(apMilp.n, y, price, k).vals == map[] == Recorded(apMilp.n, y, price, apMilp.n + 1).vals;
    }
  }

  /** The loop's state after its single pass went through: something was
      recorded, every recorded column went to the master LP in key order,
      one master optimum was listed, and the sweep solved with every
      cardinality 2..n. */
  ghost predicate PassDone(n: nat, first: CG.MasterAnswer, price: (map<int, real>, int) -> KAnswer,
                           lpsOptList: seq<real>, added: seq<Community>, solves: seq<Solve>)
  {
    var d := Recorded(n, first.duals, price, n + 1);
    && d.keys != [] && InOrder(added, d)
    && lpsOptList == [first.opt] && SweptWith(solves, n, first.duals, n + 1)
  }

  /** The pass: the master's duals go to the pricing model once, then the
      sweep over k. */
  method Pass(apMilp: ApMilpWithPartition, lps: CG.MasterAnswer, price: (map<int, real>, int) -> KAnswer)
    returns (cloumns: Dict<int, Community>, ghost solves: seq<Solve>)
    requires apMilp.Valid() && forall u :: 0 <= u < apMilp.n ==> u in lps.duals
    modifies apMilp
    ensures apMilp.Valid()
    ensures cloumns == Recorded(apMilp.n, lps.duals, price, apMilp.n + 1)
    ensures SweptWith(solves, apMilp.n, lps.duals, apMilp.n + 1)
  {
    apMilp.AddLpsDualSol(lps.duals);
    cloumns, solves := Sweep(apMilp, price, lps.duals);
  }

  /** `column_generation_with_partition(...)` with the constructor and update
      calls as evidently intended (see ColumnGenerationWithPartitionAsWritten).
      The master LP's first answer and pricing are inputs; `solves` records
      the pricing model's rows and duals at each solve. */
  method ColumnGenerationWithPartition(n: nat, aPlus: Matrix, aMinus: Matrix, dPlus: Vector, dMinus: Vector,
                                       lambda: real, first: CG.MasterAnswer,
                                       price: (map<int, real>, int) -> KAnswer)
    returns (lpsOptList: seq<real>, cnt: nat, added: seq<Community>, ghost solves: seq<Solve>)
    requires IsSquare(aPlus, n) && IsSquare(aMinus, n)
    requires forall u :: 0 <= u < n ==> u in first.duals
    ensures lpsOptList == [first.opt]
    ensures SweptWith(solves, n, first.duals, n + 1)
    ensures var d := Recorded(n, first.duals, price, n + 1);
            && cnt == (if d.keys == [] then 0 else 1)
            && InOrder(added, d)
  {
    var apMilp := NewPricing(n, aPlus, aMinus, dPlus, dMinus, lambda);
    cnt := 0;
    lpsOptList := [];
    added := [];
    solves := [];
    var cloumns: Dict<int, Community> := Dict([], map[]);
    while cnt < 1
      invariant cnt <= 1 && apMilp.n == n && apMilp.Valid()
      invariant cnt == 0 ==> lpsOptList == [] && added == []
      invariant cnt == 1 ==> PassDone(n, first, price, lpsOptList, added, solves)
    {
      // lps.solve_model() on the initial LP
      var lps := first;
      lpsOptList := lpsOptList + [lps.opt];
      cloumns, solves := Pass(apMilp, lps, price);
      if |cloumns.keys| == 0 {
        break;
      }
      // lps.update_model([C], {C: w}) for each recorded column, in key order;
      // the source passes C alone (see PassEndAsWritten)
      RecordedKeysIn(n, lps.duals, price, n + 1);
      added := UpdateAll(added, cloumns);
      cloumns := Dict([], map[]);
      cnt := cnt + 1;
    }
  }

  /** Every key of d has a column. */
  predicate KeysIn(d: Dict<int, Community>)
  {
    forall i :: 0 <= i < |d.keys| ==> d.keys[i] in d.vals
  }

  /** `for k in cloumns.keys(): lps.update_model(...)`: the recorded
      columns reach the master LP in the order of their keys. */
  method UpdateAll(added: seq<Community>, cloumns: Dict<int, Community>) returns (added': seq<Community>)
    requires KeysIn(cloumns)
    ensures |added'| == |added| + |cloumns.keys| && added'[..|added|] == added
    ensures InOrder(added'[|added|..], cloumns)
  {
    added' := added;
    for i := 0 to |cloumns.keys|
      invariant |added'| == |added| + i && added'[..|added|] == added
      invariant forall j :: 0 <= j < i ==> added'[|added| + j] == cloumns.vals[cloumns.keys[j]]
    {
      added' := added' + [cloumns.vals[cloumns.keys[i]]];
    }
  }

  // ---------------------------------------------------------------------
  // What the sweep records
  // ---------------------------------------------------------------------

  /** The recorded keys lie in 2..hi-1 and increase strictly. */
  lemma {:induction false} KeysIncrease(y: map<int, real>, price: (map<int, real>, int) -> KAnswer, hi: int)
    ensures forall k :: k in RecordedKeys(y, price, hi) <==> 2 <= k < hi && price(y, k).opt > CG.Threshold
    ensures forall i, j :: 0 <= i < j < |RecordedKeys(y, price, hi)| ==>
              RecordedKeys(y, price, hi)[i] < RecordedKeys(y, price, hi)[j]
    decreases hi
  {
    if hi > 2 {
      KeysIncrease(y, price, hi - 1);
      var ks := RecordedKeys(y, price, hi - 1);
      forall i | 0 <= i < |ks| ensures ks[i] < hi - 1 {
        assert ks[i] in ks;
      }
    }
  }

  /** What the sweep records is a dict: its keys, without repeats, are
      exactly the recorded cardinalities. */
  lemma RecordedValid(n: nat, y: map<int, real>, price: (map<int, real>, int) -> KAnswer, hi: int)
    ensures Valid(Recorded(n, y, price, hi))
  {
    var ks := RecordedKeys(y, price, hi);
    KeysIncrease(y, price, hi);
    DistinctIndices(ks);
  }

  /** Every recorded key has a column. */
  lemma RecordedKeysIn(n: nat, y: map<int, real>, price: (map<int, real>, int) -> KAnswer, hi: int)
    ensures KeysIn(Recorded(n, y, price, hi))
  {
    KeysIncrease(y, price, hi);
    var ks := RecordedKeys(y, price, hi);
    forall i | 0 <= i < |ks| ensures ks[i] in Recorded(n, y, price, hi).vals {
      assert ks[i] in ks;
    }
  }

  /** Cardinality k extends the sweep: `cloumns[k] = frozen_C` when its
      optimum exceeds the threshold, and nothing otherwise. */
  lemma RecordedStep(n: nat, y: map<int, real>, price: (map<int, real>, int) -> KAnswer, k: int)
    requires k >= 2
    ensures k !in Recorded(n, y, price, k).vals
    ensures Recorded(n, y, price, k + 1).keys
         == Recorded(n, y, price, k).keys + if price(y, k).opt > CG.Threshold then [k] else []
    ensures Recorded(n, y, price, k + 1).vals
         == if price(y, k).opt > CG.Threshold then Recorded(n, y, price, k).vals[k := CG.PointColumn(n, price(y, k).point.x)]
            else Recorded(n, y, price, k).vals
  {
  }

  /** Each recorded cardinality holds the community its pricing point
      selects: the vertices whose x is exactly 1.0. */
  lemma RecordedMeaning(n: nat, y: map<int, real>, price: (map<int, real>, int) -> KAnswer, hi: int, k: int, u: int)
    requires k in Recorded(n, y, price, hi).vals
    ensures 2 <= k < hi && price(y, k).opt > CG.Threshold
    ensures u in Recorded(n, y, price, hi).vals[k] <==> 0 <= u < n && At(price(y, k).point.x, u) == 1.0
  {
  }

  /** With no recorded column the loop stops after its single pass, with
      nothing handed to the master LP; otherwise every recorded column is
      handed over once. */
  lemma NothingRecorded(n: nat, y: map<int, real>, price: (map<int, real>, int) -> KAnswer)
    ensures Recorded(n, y, price, n + 1).keys == [] <==>
              forall k :: 2 <= k <= n ==> price(y, k).opt <= CG.Threshold
  {
    KeysIncrease(y, price, n + 1);
    var ks := RecordedKeys(y, price, n + 1);
    if ks != [] {
      assert ks[0] in ks;
    }
  }

  // ---------------------------------------------------------------------
  // The call as written
  // ---------------------------------------------------------------------

  /** `column_generation_with_partition` as written, up to its first
      statement: the same `LPS(...)` call by graph keywords as in
      column_generation.py. */
  function ColumnGenerationWithPartitionAsWritten(): Result<()>
  {
    CG.CallByKeyword(CG.LpsParameters, CG.LpsKeywords)
  }

  /** As written, the sweep never runs: the `LPS(...)` call raises
      TypeError. */
  lemma AsWrittenRaises()
    ensures ColumnGenerationWithPartitionAsWritten() == Err(TypeError)
  {
    CG.AsWrittenRaises();
  }

  /** The end of the pass as written (lines 58-63), once `cloumns` is d: the
      loop breaks on an empty d; otherwise `S = lps.update_model(cloumns[k])`
      passes one argument where `update_model` takes two, so the first key
      raises TypeError. */
  function PassEndAsWritten(d: Dict<int, Community>): Result<()>
  {
    if |d.keys| == 0 then Ok(())
    else CG.CallByPosition(CG.UpdateModelParameters, 1)
  }

  /** Even past the `LPS(...)` call, the pass as written raises TypeError
      exactly when some cardinality 2..n priced above the threshold, that is,
      whenever there is a column to add. */
  lemma PassEndRaises(n: nat, y: map<int, real>, price: (map<int, real>, int) -> KAnswer)
    ensures PassEndAsWritten(Recorded(n, y, price, n + 1)) == Err(TypeError) <==>
              exists k :: 2 <= k <= n && price(y, k).opt > CG.Threshold
    ensures PassEndAsWritten(Recorded(n, y, price, n + 1)).Ok? ==> Recorded(n, y, price, n + 1).keys == []
  {
    NothingRecorded(n, y, price);
  }
}
