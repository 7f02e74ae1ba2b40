/** The column-generation loop of Code/utils/column_generation.py: solve the
    master LP over the columns so far, price its duals with AP_MILP, stop
    when the pricing optimum is at most 10e-6, otherwise add the community
    the pricing point selects and go round again.

    Both solvers are outside the model. The master LP is an oracle of the
    columns added so far (the initial partitions are fixed inside it), and
    pricing is an oracle of the duals; the AP_MILP object itself is driven
    as the source drives it. The loop has no bound of its own, so a fuel
    argument caps the number of passes. */
module ColumnGeneration {
  import opened Results
  import opened Matrices
  import Lps
  import ApMilp

  type Community = Lps.Community

  /** The stop threshold `10e-6`, which is 10 * 10^-6. */
  const Threshold: real := 0.00001

  /** What `lps.solve_model()` returns: the optimum, a value per listed
      community and a dual per vertex. */
  datatype MasterAnswer = MasterAnswer(opt: real, primal: map<Community, real>, duals: map<int, real>)

  /** The pricing solver's answer: its optimum and the point it found. */
  datatype PricingAnswer = PricingAnswer(opt: real, point: ApMilp.Point)

  /** The two solvers: the master LP with the given columns added, and
      pricing with the given duals in its objective. */
  datatype Solvers = Solvers(master: seq<Community> -> MasterAnswer, price: map<int, real> -> PricingAnswer)

  /** The tuple `(cg_opt, cg_sol, lps_opt_list, S, cnt)` the loop returns. */
  datatype Outcome = Outcome(cgOpt: real, cgSol: map<Community, real>, lpsOptList: seq<real>,
                             S: seq<Community>, cnt: nat)

  /** Every master solve reports a dual for each vertex 0..n-1 (one per row
      of the LP). */
  ghost predicate DualsCover(o: Solvers, n: nat)
  {
    forall S: seq<Community>, u :: 0 <= u < n ==> u in o.master(S).duals
  }

  /** The community a reported x selects: the vertices whose value is
      exactly 1.0. */
  function NewColumn(x: map<int, real>): Community
  {
    set u | u in x && x[u] == 1.0
  }

  /** The community a point selects, read off its x vector. */
  function PointColumn(n: nat, x: Vector): Community
  {
    set u | 0 <= u < n && At(x, u) == 1.0
  }

  /** Pricing in the pass that starts with the columns `added`: it runs on
      the duals of that same pass's master solve. */
  function PassPricing(o: Solvers, added: seq<Community>): PricingAnswer
  {
    o.price(o.master(added).duals)
  }

  /** The columns the first i passes add, when none of them stops. */
  function Added(n: nat, o: Solvers, i: nat): (s: seq<Community>)
    ensures |s| == i
  {
    if i == 0 then []
    else
      var before := Added(n, o, i - 1);
      before + [PointColumn(n, PassPricing(o, before).point.x)]
  }

  /** Pass i stops: its pricing optimum is at most the threshold. */
  predicate Stops(n: nat, o: Solvers, i: nat)
  {
    PassPricing(o, Added(n, o, i)).opt <= Threshold
  }

  /** l holds the master optimum of each of the first k passes. */
  ghost predicate OptsRecorded(n: nat, o: Solvers, l: seq<real>, k: nat)
  {
    |l| == k && forall i :: 0 <= i < k ==> l[i] == o.master(Added(n, o, i)).opt
  }

  /** None of the first k passes stops. */
  ghost predicate NoStopBelow(n: nat, o: Solvers, k: nat)
  {
    forall i :: 0 <= i < k ==> !Stops(n, o, i)
  }

  /** What a return of the loop within `fuel` passes means: pass r.cnt is
      the first that stops, r.cnt columns were added, one master optimum was
      recorded per pass, and cg_opt, cg_sol are the master results of the
      stopping pass. */
  ghost predicate Returned(n: nat, o: Solvers, fuel: nat, r: Outcome)
  {
    && r.cnt < fuel
    && Stops(n, o, r.cnt)
    && NoStopBelow(n, o, r.cnt)
    && r.S == Added(n, o, r.cnt)
    && OptsRecorded(n, o, r.lpsOptList, r.cnt + 1)
    && r.cgOpt == o.master(Added(n, o, r.cnt)).opt
    && r.cgSol == o.master(Added(n, o, r.cnt)).primal
  }

  /** The reported x of `solve_ap_milp` selects the same community as the
      point it reports. */
  lemma ReportedColumn(x: map<int, real>, n: nat, v: Vector)
    requires forall u :: u in x <==> 0 <= u < n
    requires forall u :: u in x ==> x[u] == At(v, u)
    ensures NewColumn(x) == PointColumn(n, v)
  {
  }

  /** `AP_MILP(vertices, A_plus, A_minus, D_plus, D_minus, lambda_val)`
      with vertices = 0..n-1; the loop needs only its vertex count. */
  method NewPricing(n: nat, aPlus: Matrix, aMinus: Matrix, dPlus: Vector, dMinus: Vector, lambda: real)
    returns (apMilp: ApMilp.ApMilp)
    requires IsSquare(aPlus, n) && IsSquare(aMinus, n)
    ensures fresh(apMilp) && apMilp.n == n
  {
    apMilp := new ApMilp.ApMilp(n, aPlus, aMinus, dPlus, dMinus, lambda);
  }

  /** One pass up to the stop test: solve LP(S), hand its duals to the
      pricing model, solve it, and read the community off the reported x. */
  method Pass(apMilp: ApMilp.ApMilp, o: Solvers, S: seq<Community>)
    returns (lps: MasterAnswer, apMilpOpt: real, frozenC: Community)
    requires forall u :: 0 <= u < apMilp.n ==> u in o.master(S).duals
    modifies apMilp
    ensures lps == o.master(S)
    ensures apMilpOpt == PassPricing(o, S).opt
    ensures frozenC == PointColumn(apMilp.n, PassPricing(o, S).point.x)
  {
    lps := o.master(S);
    apMilp.AddLpsDualSol(lps.duals);
    var answer := o.price(lps.duals);
    var apMilpSol;
    apMilpOpt, apMilpSol := apMilp.SolveApMilp(answer.opt, answer.point);
    frozenC := NewColumn(apMilpSol.x);
    ReportedColumn(apMilpSol.x, apMilp.n, answer.point.x);
  }

  /** One more pass: its master optimum joins the list, and when it does
      not stop, its column joins the pool. */
  lemma PassStep(n: nat, o: Solvers, k: nat, l: seq<real>)
    requires OptsRecorded(n, o, l, k) && NoStopBelow(n, o, k)
    ensures OptsRecorded(n, o, l + [o.master(Added(n, o, k)).opt], k + 1)
    ensures Stops(n, o, k) <==> PassPricing(o, Added(n, o, k)).opt <= Threshold
    ensures !Stops(n, o, k) ==> NoStopBelow(n, o, k + 1)
    ensures Added(n, o, k + 1) == Added(n, o, k) + [PointColumn(n, PassPricing(o, Added(n, o, k)).point.x)]
  {
  }

  /** `column_generation(...)` with the constructor and update calls as
      evidently intended (see ColumnGenerationAsWritten): the loop returns
      at the first pass whose pricing optimum is at most 10e-6, or runs out
      of fuel when no pass below `fuel` stops. */
  method ColumnGeneration(n: nat, aPlus: Matrix, aMinus: Matrix, dPlus: Vector, dMinus: Vector, lambda: real,
                          o: Solvers, fuel: nat)
    returns (r: Run<Outcome>)
    requires IsSquare(aPlus, n) && IsSquare(aMinus, n)
    requires DualsCover(o, n)
    ensures r.Finished? ==> r.result.Ok? && Returned(n, o, fuel, r.result.value)
    ensures r.Unfinished? ==> forall i :: 0 <= i < fuel ==> !Stops(n, o, i)
  {
    var apMilp := NewPricing(n, aPlus, aMinus, dPlus, dMinus, lambda);
    var cnt: nat := 0;
    var lpsOptList: seq<real> := [];
    var S: seq<Community> := [];
    while cnt < fuel
      invariant cnt <= fuel
      invariant S == Added(n, o, cnt)
      invariant OptsRecorded(n, o, lpsOptList, cnt)
      invariant NoStopBelow(n, o, cnt)
    {
      var lps, apMilpOpt, frozenC := Pass(apMilp, o, S);
      PassStep(n, o, cnt, lpsOptList);
      lpsOptList := lpsOptList + [lps.opt];
      if apMilpOpt <= Threshold {
        return Finished(Ok(Outcome(lps.opt, lps.primal, lpsOptList, S, cnt)));
      }
      // lps.update_model([frozen_C], {frozen_C: w}): LP(S) gains the column
      S := S + [frozenC];
      cnt := cnt + 1;
    }
    return Unfinished;
  }

  // ---------------------------------------------------------------------
  // What the passes add
  // ---------------------------------------------------------------------

  /** Each pass adds exactly one column, and the columns of earlier passes
      stay where they were. */
  lemma {:induction false} AddedPrefix(n: nat, o: Solvers, i: nat, j: nat)
    requires j <= i
    ensures Added(n, o, j) == Added(n, o, i)[..j]
  {
    if i > 0 {
      if j < i {
        AddedPrefix(n, o, i - 1, j);
        assert Added(n, o, i)[..i - 1] == Added(n, o, i - 1);
      } else {
        AddedPrefix(n, o, i - 1, i - 1);
      }
    }
  }

  /** Column j of the pool is the community the pricing point of pass j
      selects: the vertices whose x is exactly 1.0. */
  lemma AddedColumn(n: nat, o: Solvers, i: nat, j: nat, u: int)
    requires j < i
    ensures u in Added(n, o, i)[j] <==>
              0 <= u < n && At(PassPricing(o, Added(n, o, j)).point.x, u) == 1.0
  {
    AddedPrefix(n, o, i, j + 1);
    AddedPrefix(n, o, j + 1, j);
  }

  /** For an x of length at least n, the column is exactly the community of
      the pricing model: the members of x. */
  lemma ColumnIsMembers(n: nat, x: Vector)
    requires n <= |x|
    ensures PointColumn(n, x) == set u | u in Members(x, n)
  {
  }

  /** Nothing checks the pool before a column is added: a community the
      pool already holds is added once more. */
  lemma RepeatsKept(n: nat, o: Solvers, i: nat)
    ensures var C := PointColumn(n, PassPricing(o, Added(n, o, i)).point.x);
            multiset(Added(n, o, i + 1))[C] == multiset(Added(n, o, i))[C] + 1
  {
  }

  /** The loop's result is determined by the solvers: two returns within
      the fuel are the same tuple, because each stops at the first
      stopping pass. */
  lemma ReturnUnique(n: nat, o: Solvers, fuel: nat, r1: Outcome, r2: Outcome)
    requires Returned(n, o, fuel, r1) && Returned(n, o, fuel, r2)
    ensures r1 == r2
  {
    assert Stops(n, o, r1.cnt) && Stops(n, o, r2.cnt);
    assert r1.lpsOptList == r2.lpsOptList;
  }

  // ---------------------------------------------------------------------
  // The call as written
  // ---------------------------------------------------------------------

  /** The parameters of `LPS.__init__` after self (Code/utils/lps.py:4). */
  const LpsParameters: seq<string> := ["S", "w_C_dict", "vertices"]

  /** The keywords `column_generation` passes to `LPS`. */
  const LpsKeywords: seq<string> := ["vertices", "A_plus", "A_minus", "D_plus", "D_minus", "lambda_val", "init_partitions"]

  /** A call by keywords binds when every keyword names a parameter and
      every parameter is given one; otherwise Python raises TypeError. */
  function CallByKeyword(params: seq<string>, keywords: seq<string>): (r: Result<()>)
    ensures r.Ok? <==> (forall k :: k in keywords ==> k in params) && (forall q :: q in params ==> q in keywords)
    ensures r.Err? ==> r.error == TypeError
  {
    if (forall k :: k in keywords ==> k in params) && (forall q :: q in params ==> q in keywords) then Ok(())
    else Err(TypeError)
  }

  /** The parameters of `LPS.update_model` after self (Code/utils/lps.py:52):
      neither has a default value. */
  const UpdateModelParameters: seq<string> := ["new_S", "new_w_C_dict"]

  /** A call with `given` positional arguments binds when it supplies every
      parameter and no more (none has a default); otherwise Python raises
      TypeError. */
  function CallByPosition(params: seq<string>, given: nat): (r: Result<()>)
    ensures r.Ok? <==> given == |params|
    ensures r.Err? ==> r.error == TypeError
  {
    if given == |params| then Ok(()) else Err(TypeError)
  }

  /** `lps.update_model(frozen_C)` as written at column_generation.py:65: one
      argument where `update_model` takes two. */
  function UpdateModelAsWritten(): Result<()>
  {
    CallByPosition(UpdateModelParameters, 1)
  }

  /** As written, the update after a priced column raises TypeError, before
      any column reaches the master LP. */
  lemma UpdateModelRaises()
    ensures UpdateModelAsWritten() == Err(TypeError)
  {
  }

  /** `column_generation` as written, up to its first statement, the `LPS`
      call: its keywords name the graph, not the parameters of `LPS`. */
  function ColumnGenerationAsWritten(): Result<()>
  {
    CallByKeyword(LpsParameters, LpsKeywords)
  }

  /** As written, the loop never starts: every call raises TypeError at
      `LPS(...)`, since `A_plus` names no parameter of `LPS.__init__`. */
  lemma AsWrittenRaises()
    ensures ColumnGenerationAsWritten() == Err(TypeError)
  {
    assert LpsKeywords[1] == "A_plus" && LpsKeywords[1] !in LpsParameters;
  }
}
