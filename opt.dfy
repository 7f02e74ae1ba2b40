/** The stand-alone master problem of Code/opt.py: `calc_w_c` written as
    four quotients, and `solve_lp_s`, which lists the communities of all
    partitions in order (a repeated community is a second column), gives
    each a binary variable z_i weighted by its `calc_w_c`, and asks every
    vertex to be covered exactly once. The solver is an oracle of the
    model; `main` keeps the communities whose z_i is above 0.5. */
module Opt {
  import opened Results
  import opened Mip
  import Wc
  import CG = ColumnGenerationUtil

  // ---------------------------------------------------------------------
  // calc_w_c
  // ---------------------------------------------------------------------

  /** `calc_w_c`: each of the four terms divided by |C| on its own. An
      empty C is a float array, which numpy refuses as an index, and a
      member outside a matrix is out of range: IndexError. */
  function CalcWc(C: seq<int>, g: CG.Graph): (r: Result<real>)
    ensures r.Ok? <==> |C| > 0 && forall u :: u in C ==> CG.InShape(g, u)
    ensures r.Err? ==> r.error == IndexError
  {
    if !CG.Weighable(C, g) then Err(IndexError)
    else
      Ok(Quarters(2.0 * Wc.BlockSum(g.aPlus, C), 2.0 * (1.0 - g.lambda) * CG.DiagonalSum(g.dPlus, C),
                  2.0 * Wc.BlockSum(g.aMinus, C), 2.0 * g.lambda * CG.DiagonalSum(g.dMinus, C), |C|))
  }

  /** `a / size - b / size - c / size + d / size`. */
  function Quarters(a: real, b: real, c: real, d: real, size: nat): real
    requires size > 0
  {
    a / size as real - b / size as real - c / size as real + d / size as real
  }

  /** The four quotients are the single quotient of `column_generation_util`,
      whose second and fourth terms carry their minus sign. */
  lemma QuartersCombine(plus: real, dPlus: real, minus: real, dMinus: real, lambda: real, size: nat)
    requires size > 0
    ensures Quarters(2.0 * plus, 2.0 * (1.0 - lambda) * dPlus, 2.0 * minus, 2.0 * lambda * dMinus, size)
         == CG.Combine(2.0 * plus, -2.0 * (1.0 - lambda) * dPlus, 2.0 * minus, -2.0 * lambda * dMinus, size)
  {
    var a, b, c, d := 2.0 * plus, 2.0 * (1.0 - lambda) * dPlus, 2.0 * minus, 2.0 * lambda * dMinus;
    var n := size as real;
    assert -2.0 * (1.0 - lambda) * dPlus == -b;
    assert -2.0 * lambda * dMinus == -d;
    assert a / n - b / n - c / n + d / n == (a + -b - (c + -d)) / n;
  }

  /** The four-quotient `calc_w_c` is the single-quotient one of
      Code/utils/column_generation_util.py, and so the weight of
      Code/utils/wc.py, on every community, indexable or not. */
  lemma CalcWcAgrees(C: seq<int>, g: CG.Graph)
    ensures CalcWc(C, g) == CG.CalcWc(C, g)
    ensures CG.Weighable(C, g) ==>
      CalcWc(C, g) == Ok(Wc.CalcWC(C, g.aPlus, g.aMinus, CG.Diag(g.dPlus), CG.Diag(g.dMinus), g.lambda))
  {
    if CG.Weighable(C, g) {
      var plus, dPlus := Wc.BlockSum(g.aPlus, C), CG.DiagonalSum(g.dPlus, C);
      var minus, dMinus := Wc.BlockSum(g.aMinus, C), CG.DiagonalSum(g.dMinus, C);
      QuartersCombine(plus, dPlus, minus, dMinus, g.lambda, |C|);
      assert CalcWc(C, g).value == Quarters(2.0 * plus, 2.0 * (1.0 - g.lambda) * dPlus, 2.0 * minus, 2.0 * g.lambda * dMinus, |C|);
      assert CG.CalcWc(C, g).value == CG.Combine(2.0 * plus, -2.0 * (1.0 - g.lambda) * dPlus, 2.0 * minus, -2.0 * g.lambda * dMinus, |C|);
      assert CalcWc(C, g).value == CG.CalcWc(C, g).value;
      CG.CalcWcIsWeight(C, g);
    }
  }

  // ---------------------------------------------------------------------
  // solve_lp_s: the columns
  // ---------------------------------------------------------------------

  /** `w_c_values`: `calc_w_c` of each listed community, in order, or the
      error of the first one it refuses: an empty one or one with a member
      outside the matrices. */
  function Weights(cs: seq<seq<int>>, g: CG.Graph): (r: Result<seq<real>>)
    ensures r.Err? <==> exists C :: C in cs && !(|C| > 0 && forall u :: u in C ==> CG.InShape(g, u))
    ensures r.Err? ==> r.error == IndexError
    ensures r.Ok? ==> |r.value| == |cs|
    ensures r.Ok? ==> forall i :: 0 <= i < |cs| ==> CalcWc(cs[i], g) == Ok(r.value[i])
  {
    if cs == [] then Ok([])
    else
      var init, C := cs[..|cs| - 1], cs[|cs| - 1];
      assert cs == init + [C];
      match Weights(init, g)
      case Err(e) => Err(e)
      case Ok(w) =>
        match CalcWc(C, g)
        case Err(e) => Err(e)
        case Ok(wC) => Ok(w + [wC])
  }

  /** The lists the double loop of `solve_lp_s` builds. */
  datatype Columns = Columns(communities: seq<seq<int>>, weights: seq<real>)

  /** The double loop over partitions and their communities, appending
      each community and its `calc_w_c`. */
  method CollectColumns(partitions: seq<seq<seq<int>>>, g: CG.Graph) returns (r: Result<Columns>)
    ensures r.Err? <==> Weights(CG.Flatten(partitions), g).Err?
    ensures r.Err? ==> r.error == IndexError
    ensures r.Ok? ==> r.value == Columns(CG.Flatten(partitions), Weights(CG.Flatten(partitions), g).value)
  {
    var allCommunities: seq<seq<int>> := [];
    var wcValues: seq<real> := [];
    for i := 0 to |partitions|
      invariant allCommunities == CG.Flatten(partitions[..i])
      invariant Weights(allCommunities, g) == Ok(wcValues)
    {
      CG.FlattenStep(partitions, i);
      var partition := partitions[i];
      for j := 0 to |partition|
        invariant allCommunities == CG.Flatten(partitions[..i]) + partition[..j]
        invariant Weights(allCommunities, g) == Ok(wcValues)
      {
        var C := partition[j];
        var wC := CalcWc(C, g);
        if wC.Err? {
          CG.FlattenMember(partitions, C);
          assert C in partitions[i];
          return Err(wC.error);
        }
        WeightsStep(allCommunities, C, g);
        CG.SeenStep(CG.Flatten(partitions[..i]), partition, j);
        wcValues := wcValues + [wC.value];
        allCommunities := allCommunities + [C];
      }
      assert partition[..|partition|] == partition;
    }
    assert partitions[..|partitions|] == partitions;
    return Ok(Columns(allCommunities, wcValues));
  }

  /** One more community appends its weight. */
  lemma WeightsStep(cs: seq<seq<int>>, C: seq<int>, g: CG.Graph)
    requires Weights(cs, g).Ok? && CalcWc(C, g).Ok?
    ensures Weights(cs + [C], g) == Ok(Weights(cs, g).value + [CalcWc(C, g).value])
  {
    assert (cs + [C])[..|cs|] == cs;
  }

  // ---------------------------------------------------------------------
  // solve_lp_s: the model
  // ---------------------------------------------------------------------

  /** `z_i`: a binary variable, named by its position i. */
  function ZVar(i: int): Var<int>
  {
    Var(i, Binary, 0.0, Some(1.0))
  }

  /** The variables z_0 .. z_{k-1}. */
  function ZVars(k: nat): (vs: seq<Var<int>>)
    ensures |vs| == k && forall i :: 0 <= i < k ==> vs[i] == ZVar(i)
  {
    seq(k, i => ZVar(i))
  }

  /** A column of zeros for each of k variables. */
  function NoColumns(k: nat): (cols: seq<LinExpr>)
    ensures |cols| == k && forall v :: 0 <= v < k ==> cols[v] == map[]
  {
    seq(k, v => map[])
  }

  /** `w_c_values[i] * z_vars[i]` for each i, the positions counted from
      `base`. */
  function ObjectiveTerms(w: seq<real>, base: int): seq<(int, real)>
  {
    if w == [] then [] else [(base, w[0])] + ObjectiveTerms(w[1..], base + 1)
  }

  /** `z_vars[i]` for each listed community containing u, the positions
      counted from `base`. */
  function MemberTerms(cs: seq<seq<int>>, u: int, base: int): seq<(int, real)>
  {
    if cs == [] then []
    else (if u in cs[0] then [(base, 1.0)] else []) + MemberTerms(cs[1..], u, base + 1)
  }

  /** The objective gives z_i the weight of the i-th community, and no other
      variable a coefficient. */
  lemma {:induction false} ObjectiveTermsCoef(w: seq<real>, base: int, v: int)
    ensures Coef(XSum(ObjectiveTerms(w, base)), v) == if base <= v < base + |w| then w[v - base] else 0.0
    decreases |w|
  {
    if w != [] {
      var rest := ObjectiveTerms(w[1..], base + 1);
      ObjectiveTermsCoef(w[1..], base + 1, v);
      assert ([(base, w[0])] + rest)[1..] == rest;
    }
  }

  /** Vertex u's row has coefficient 1 on z_i for every position i whose
      community contains u, however often that community is listed, and 0
      everywhere else. */
  lemma {:induction false} MemberTermsCoef(cs: seq<seq<int>>, u: int, base: int, v: int)
    ensures Coef(XSum(MemberTerms(cs, u, base)), v) == if base <= v < base + |cs| && u in cs[v - base] then 1.0 else 0.0
    decreases |cs|
  {
    if cs != [] {
      var tail := cs[1..];
      var rest := MemberTerms(tail, u, base + 1);
      MemberTermsCoef(tail, u, base + 1, v);
      var e := XSum(MemberTerms(cs, u, base));
      if u in cs[0] {
        var ts := [(base, 1.0)] + rest;
        assert MemberTerms(cs, u, base) == ts;
        assert ts[1..] == rest;
        assert e == AddTerm(XSum(rest), base, 1.0);
      } else {
        assert MemberTerms(cs, u, base) == [] + rest == rest;
      }
      if v == base {
        assert Coef(XSum(rest), v) == 0.0;
      } else {
        assert Coef(e, v) == Coef(XSum(rest), v);
        if base < v < base + |cs| {
          assert tail[v - (base + 1)] == cs[v - base];
        }
      }
    }
  }

  /** Both term lists name only positions in [base, base + length). */
  lemma {:induction false} TermsWithin(cs: seq<seq<int>>, w: seq<real>, u: int, base: int)
    ensures forall t :: t in MemberTerms(cs, u, base) ==> base <= t.0 < base + |cs|
    ensures forall t :: t in ObjectiveTerms(w, base) ==> base <= t.0 < base + |w|
    decreases |cs| + |w|
  {
    if cs != [] {
      TermsWithin(cs[1..], [], u, base + 1);
    }
    if w != [] {
      TermsWithin([], w[1..], u, base + 1);
    }
  }

  /** `xsum(z_vars[i] for i, C in enumerate(all_communities) if u in C) == 1`. */
  function CoverRow(cs: seq<seq<int>>, u: int): Constr
  {
    Constr(XSum(MemberTerms(cs, u, 0)), Eq, 1.0)
  }

  /** The rows of vertices 0..n-1, row u under handle u. */
  function CoverRows(cs: seq<seq<int>>, n: nat): map<int, Constr>
  {
    if n == 0 then map[] else CoverRows(cs, n - 1)[n - 1 := CoverRow(cs, n - 1)]
  }

  /** Handle u belongs to vertex u's row, and to nothing else. */
  lemma {:induction false} CoverRowsHandles(cs: seq<seq<int>>, n: nat, c: int)
    ensures c in CoverRows(cs, n) <==> 0 <= c < n
    ensures 0 <= c < n ==> CoverRows(cs, n)[c] == CoverRow(cs, c)
  {
    if n > 0 {
      CoverRowsHandles(cs, n - 1, c);
    }
  }

  /** The model `solve_lp_s` builds over n vertices. */
  function LpModel(cs: seq<seq<int>>, w: seq<real>, n: nat): Model<int>
  {
    Model(ZVars(|cs|), NoColumns(|cs|), CoverRows(cs, n), n, XSum(ObjectiveTerms(w, 0)), Maximize)
  }

  /** The model of `solve_lp_s`: one binary z_i per listed community,
      maximising the sum of w_i z_i, and for each vertex u < n a row under
      handle u requiring the z_i of the communities containing u to sum to
      exactly 1. The model is well formed. */
  lemma LpModelShape(cs: seq<seq<int>>, w: seq<real>, n: nat, u: int, v: int)
    requires |w| == |cs|
    ensures WellFormed(LpModel(cs, w, n))
    ensures |LpModel(cs, w, n).vars| == |cs|
    ensures 0 <= v < |cs| ==> LpModel(cs, w, n).vars[v] == Var(v, Binary, 0.0, Some(1.0))
    ensures LpModel(cs, w, n).objSense == Maximize
    ensures Coef(LpModel(cs, w, n).objective, v) == if 0 <= v < |cs| then w[v] else 0.0
    ensures u in LpModel(cs, w, n).constrs <==> 0 <= u < n
    ensures 0 <= u < n ==> LpModel(cs, w, n).constrs[u].sense == Eq && LpModel(cs, w, n).constrs[u].rhs == 1.0
    ensures 0 <= u < n ==> RowCoef(LpModel(cs, w, n), u, v) == if 0 <= v < |cs| && u in cs[v] then 1.0 else 0.0
  {
    var m := LpModel(cs, w, n);
    ObjectiveTermsCoef(w, 0, v);
    CoverRowsHandles(cs, n, u);
    MemberTermsCoef(cs, u, 0, v);
    forall c, x | c in m.constrs && x in m.constrs[c].expr ensures 0 <= x < |m.vars| {
      CoverRowsHandles(cs, n, c);
      TermsWithin(cs, w, c, 0);
      XSumKeys(MemberTerms(cs, c, 0));
    }
    forall x | x in m.objective ensures 0 <= x < |m.vars| {
      TermsWithin(cs, w, 0, 0);
      XSumKeys(ObjectiveTerms(w, 0));
    }
    forall c | c in m.constrs ensures 0 <= c < m.nextConstr {
      CoverRowsHandles(cs, n, c);
    }
  }

  /** The variable list grows by one z. */
  lemma ZVarsStep(i: nat)
    ensures ZVars(i + 1) == ZVars(i) + [ZVar(i)]
    ensures NoColumns(i + 1) == NoColumns(i) + [map[]]
  {
  }

  /** `z_vars = [model.add_var(var_type=BINARY) for i in range(k)]`. */
  method AddZVars(k: nat) returns (model: Model<int>)
    ensures model == Model(ZVars(k), NoColumns(k), map[], 0, map[], Maximize)
  {
    model := EmptyModel(Maximize);
    for i := 0 to k
      invariant WellFormed(model)
      invariant model == Model(ZVars(i), NoColumns(i), map[], 0, map[], Maximize)
    {
      ZVarsStep(i);
      model := AddVar(model, ZVar(i));
    }
  }

  /** The row loop: `model += ... == 1` for each vertex u < n. */
  method AddCoverRows(model0: Model<int>, cs: seq<seq<int>>, n: nat) returns (model: Model<int>)
    requires model0.constrs == map[] && model0.nextConstr == 0
    ensures model == model0.(constrs := CoverRows(cs, n), nextConstr := n)
  {
    model := model0;
    for u := 0 to n
      invariant model == model0.(constrs := CoverRows(cs, u), nextConstr := u)
    {
      CoverRowsStep(cs, u);
      model := AddConstr(model, CoverRow(cs, u));
    }
  }

  /** One more vertex adds its row under the next handle. */
  lemma CoverRowsStep(cs: seq<seq<int>>, u: nat)
    ensures CoverRows(cs, u + 1) == CoverRows(cs, u)[u := CoverRow(cs, u)]
  {
  }

  // ---------------------------------------------------------------------
  // solve_lp_s: solving and reading
  // ---------------------------------------------------------------------

  /** What `solve_lp_s` returns: the objective value, z_i for each column,
      and the list of communities. */
  datatype LpResult = LpResult(opt: real, solution: seq<real>, communities: seq<seq<int>>)

  /** `solve_lp_s(partitions, ...)` with the solver `lp`: the error of the
      first empty community, or the solver's answer on the model over the
      flattened communities. The vertex count is the number of rows of A+. */
  function SolveLpSOf(partitions: seq<seq<seq<int>>>, g: CG.Graph, lp: Model<int> -> Solution): Result<LpResult>
  {
    var cs := CG.Flatten(partitions);
    match Weights(cs, g)
    case Err(e) => Err(e)
    case Ok(w) =>
      var sol := lp(LpModel(cs, w, |g.aPlus|));
      Ok(LpResult(sol.objectiveValue, sol.x, cs))
  }

  /** `solve_lp_s`. */
  method SolveLpS(partitions: seq<seq<seq<int>>>, g: CG.Graph, lp: Model<int> -> Solution) returns (r: Result<LpResult>)
    ensures r == SolveLpSOf(partitions, g, lp)
  {
    var columns := CollectColumns(partitions, g);
    if columns.Err? {
      return Err(columns.error);
    }
    var cs, w := columns.value.communities, columns.value.weights;
    var model := AddZVars(|cs|);
    model := SetObjective(model, XSum(ObjectiveTerms(w, 0)), Maximize);
    model := AddCoverRows(model, cs, |g.aPlus|);
    var sol := lp(model);
    return Ok(LpResult(sol.objectiveValue, sol.x, cs));
  }

  /** `solve_lp_s` fails exactly when some partition holds an empty
      community or one with a member outside the matrices; otherwise it lists the communities of the partitions in
      order, repeats kept, and with a solver that answers for every
      variable returns one z per community. */
  lemma SolveLpSMeaning(partitions: seq<seq<seq<int>>>, g: CG.Graph, lp: Model<int> -> Solution, C: seq<int>)
    requires forall m :: Fits(lp(m), m)
    ensures SolveLpSOf(partitions, g, lp).Err? <==>
      exists i, C :: 0 <= i < |partitions| && C in partitions[i] && !CG.Weighable(C, g)
    ensures SolveLpSOf(partitions, g, lp).Err? ==> SolveLpSOf(partitions, g, lp).error == IndexError
    ensures SolveLpSOf(partitions, g, lp).Ok? ==>
      var res := SolveLpSOf(partitions, g, lp).value;
      && |res.solution| == |res.communities|
      && (C in res.communities <==> exists i :: 0 <= i < |partitions| && C in partitions[i])
  {
    CG.FlattenMember(partitions, C);
    var cs := CG.Flatten(partitions);
    if Weights(cs, g).Err? {
      var D :| D in cs && !CG.Weighable(D, g);
      CG.FlattenMember(partitions, D);
    } else {
      forall i, D | 0 <= i < |partitions| && D in partitions[i] ensures CG.Weighable(D, g) {
        CG.FlattenMember(partitions, D);
      }
    }
    if Weights(cs, g).Ok? {
      var m := LpModel(cs, Weights(cs, g).value, |g.aPlus|);
      assert Fits(lp(m), m);
    }
  }

  // ---------------------------------------------------------------------
  // main: reading the partition off the solution
  // ---------------------------------------------------------------------

  /** The communities whose z is above 0.5, in column order. */
  function Chosen(x: seq<real>, cs: seq<seq<int>>): (result: seq<seq<int>>)
    requires |x| == |cs|
    ensures |result| <= |cs|
    ensures forall C :: C in result <==> exists i :: 0 <= i < |cs| && x[i] > 0.5 && cs[i] == C
  {
    if cs == [] then []
    else
      var k := |cs| - 1;
      var init := Chosen(x[..k], cs[..k]);
      assert forall i :: 0 <= i < k ==> x[..k][i] == x[i] && cs[..k][i] == cs[i];
      if x[k] > 0.5 then init + [cs[k]] else init
  }

  /** The loop of `main` over `enumerate(solution)`, appending
      `all_communities[i]` when z_i > 0.5. */
  method ResultPartition(solution: seq<real>, allCommunities: seq<seq<int>>) returns (result: seq<seq<int>>)
    requires |solution| == |allCommunities|
    ensures result == Chosen(solution, allCommunities)
  {
    result := [];
    for i := 0 to |solution|
      invariant result == Chosen(solution[..i], allCommunities[..i])
    {
      assert solution[..i + 1][..i] == solution[..i];
      assert allCommunities[..i + 1][..i] == allCommunities[..i];
      if solution[i] > 0.5 {
        result := result + [allCommunities[i]];
      }
    }
    assert solution[..|solution|] == solution;
    assert allCommunities[..|allCommunities|] == allCommunities;
  }
}
