/** The restricted master problem LP(S) (Code/utils/lps.py): one continuous
    variable z_C >= 0 per community C of S, one equality row per vertex u
    (the z_C of the communities containing u sum to 1) and the objective
    "maximise the sum of w_C * z_C". Communities are frozensets, here
    `set<int>`; the weight table is an insertion-ordered dict. */
module Lps {
  import opened Results
  import opened Mip
  import opened Dicts

  type Community = set<int>

  /** The variables the constructor creates, one per listed community:
      continuous, lower bound 0, no upper bound, named after the community. */
  function InitialVars(S: seq<Community>): (vs: seq<Var<Community>>)
    ensures |vs| == |S|
    ensures forall i :: 0 <= i < |S| ==>
      vs[i].name == S[i] && vs[i].varType == Continuous && vs[i].lb == 0.0 && vs[i].ub == None
  {
    seq(|S|, i requires 0 <= i < |S| => Var(S[i], Continuous, 0.0, None))
  }

  /** The position of the last occurrence of C: the variable a dict
      comprehension over S leaves bound to C. */
  function LastIndex(S: seq<Community>, C: Community): (r: int)
    requires C in S
    ensures 0 <= r < |S| && S[r] == C
  {
    if S[|S| - 1] == C then |S| - 1 else LastIndex(S[..|S| - 1], C)
  }

  /** No later position holds C. */
  lemma {:induction false} LastIndexIsLast(S: seq<Community>, C: Community, j: int)
    requires C in S && LastIndex(S, C) < j < |S|
    ensures S[j] != C
    decreases |S|
  {
    if S[|S| - 1] != C {
      assert C in S[..|S| - 1] by {
        var k :| 0 <= k < |S| && S[k] == C;
        assert S[..|S| - 1][k] == C;
      }
      if j < |S| - 1 {
        LastIndexIsLast(S[..|S| - 1], C, j);
      }
    }
  }

  /** The terms of vertex u's row: a unit term on z_C for each listed
      community C containing u, in list order. */
  function RowTerms(S: seq<Community>, zC: map<Community, int>, u: int): (ts: seq<(int, real)>)
    requires forall C :: C in S ==> C in zC
    ensures forall t :: t in ts ==> t.1 == 1.0 && t.0 in zC.Values
  {
    if S == [] then []
    else (if u in S[0] then [(zC[S[0]], 1.0)] else []) + RowTerms(S[1..], zC, u)
  }

  /** The terms of the objective: w[C] * z_C for each listed community. */
  function ObjTerms(S: seq<Community>, zC: map<Community, int>, w: map<Community, real>): (ts: seq<(int, real)>)
    requires forall C :: C in S ==> C in zC && C in w
    ensures forall t :: t in ts ==> t.0 in zC.Values
  {
    if S == [] then []
    else [(zC[S[0]], w[S[0]])] + ObjTerms(S[1..], zC, w)
  }

  /** With the communities' variables at consecutive positions from `base`
      (so no community is listed twice), row u has coefficient 1 on the
      variable of each community containing u and 0 everywhere else. */
  lemma {:induction false} RowTermsCoef(S: seq<Community>, zC: map<Community, int>, u: int, base: int, v: int)
    requires forall i :: 0 <= i < |S| ==> S[i] in zC && zC[S[i]] == base + i
    ensures Coef(XSum(RowTerms(S, zC, u)), v) == if base <= v < base + |S| && u in S[v - base] then 1.0 else 0.0
    decreases |S|
  {
    if S != [] {
      var rest := RowTerms(S[1..], zC, u);
      RowTermsCoef(S[1..], zC, u, base + 1, v);
      if u in S[0] {
        assert ([(zC[S[0]], 1.0)] + rest)[1..] == rest;
      } else {
        assert RowTerms(S, zC, u) == rest;
      }
    }
  }

  /** Likewise the objective gives the variable of each listed community
      that community's weight. */
  lemma {:induction false} ObjTermsCoef(S: seq<Community>, zC: map<Community, int>, w: map<Community, real>, base: int, v: int)
    requires forall i :: 0 <= i < |S| ==> S[i] in zC && zC[S[i]] == base + i && S[i] in w
    ensures Coef(XSum(ObjTerms(S, zC, w)), v) == if base <= v < base + |S| then w[S[v - base]] else 0.0
    decreases |S|
  {
    if S != [] {
      var rest := ObjTerms(S[1..], zC, w);
      ObjTermsCoef(S[1..], zC, w, base + 1, v);
      assert ([(zC[S[0]], w[S[0]])] + rest)[1..] == rest;
    }
  }

  /** A community's column: coefficient 1 in the row of each of its
      vertices. The vertex list `vs` names the rows; the map does not
      depend on its order. */
  function ColumnOf(C: Community, constraints: map<int, int>, vs: seq<int>): (col: map<int, real>)
    ensures forall c :: c in col ==> col[c] == 1.0
    decreases |vs|
  {
    if vs == [] then map[]
    else
      var rest := ColumnOf(C, constraints, vs[1..]);
      if vs[0] in C && vs[0] in constraints then rest[constraints[vs[0]] := 1.0] else rest
  }

  /** A column only touches rows that vertices own. */
  lemma {:induction false} ColumnKeys(C: Community, constraints: map<int, int>, vs: seq<int>, handles: set<int>)
    requires forall u :: u in constraints ==> constraints[u] in handles
    ensures ColumnOf(C, constraints, vs).Keys <= handles
    decreases |vs|
  {
    if vs != [] {
      ColumnKeys(C, constraints, vs[1..], handles);
    }
  }

  /** Distinct vertices own distinct rows. */
  ghost predicate Injective(constraints: map<int, int>)
  {
    forall u, u' :: u in constraints && u' in constraints && u != u' ==> constraints[u] != constraints[u']
  }

  /** With one row per vertex, a column hits vertex u's row exactly when u is
      a listed vertex of the community. */
  lemma {:induction false} ColumnHits(C: Community, constraints: map<int, int>, vs: seq<int>, u: int)
    requires Injective(constraints) && u in constraints
    ensures constraints[u] in ColumnOf(C, constraints, vs) <==> u in C && u in vs
    decreases |vs|
  {
    if vs != [] {
      ColumnHits(C, constraints, vs[1..], u);
      assert u in vs <==> u == vs[0] || u in vs[1..];
    }
  }

  /** An expression built from terms on bound variables mentions only
      existing variables. */
  lemma TermsInRange(ts: seq<(int, real)>, zC: map<Community, int>, bound: int)
    requires forall t :: t in ts ==> t.0 in zC.Values
    requires forall C :: C in zC ==> 0 <= zC[C] < bound
    ensures forall x :: x in XSum(ts) ==> 0 <= x < bound
  {
    XSumKeys(ts);
    forall x | x in XSum(ts) ensures 0 <= x < bound {
      var p :| p in ts && p.0 == x;
      var C :| C in zC && zC[C] == x;
    }
  }

  /** A column of zeros for each of n variables. */
  function Blank(n: nat): (cols: seq<LinExpr>)
    ensures |cols| == n && forall v :: 0 <= v < n ==> cols[v] == map[]
  {
    seq(n, v => map[])
  }

  /** The variables of `LPS.__init__`'s dict comprehension: one per listed
      community, in list order; a community listed twice keeps the later
      variable. */
  method AddCommunityVars(S: seq<Community>) returns (m: Model<Community>, zC: map<Community, int>)
    ensures m == Model(InitialVars(S), Blank(|S|), map[], 0, map[], Minimize)
    ensures forall C :: C in zC <==> C in S
    ensures forall C :: C in zC ==> zC[C] == LastIndex(S, C)
  {
    m := EmptyModel(Minimize);
    zC := map[];
    var i := 0;
    while i < |S|
      invariant 0 <= i <= |S|
      invariant m == Model(InitialVars(S[..i]), Blank(i), map[], 0, map[], Minimize)
      invariant forall C :: C in zC <==> C in S[..i]
      invariant forall C :: C in zC ==> zC[C] == LastIndex(S[..i], C)
    {
      assert S[..i + 1][..i] == S[..i];
      assert InitialVars(S[..i + 1]) == InitialVars(S[..i]) + [Var(S[i], Continuous, 0.0, None)];
      assert Blank(i + 1) == Blank(i) + [map[]];
      m := AddVar(m, Var(S[i], Continuous, 0.0, None));
      zC := zC[S[i] := i];
      i := i + 1;
    }
    assert S[..i] == S;
  }

  /** Vertex u's row: the z_C of the listed communities containing u sum
      to 1. */
  function VertexRow(S: seq<Community>, zC: map<Community, int>, u: int): (row: Constr)
    requires forall C :: C in S ==> C in zC
    ensures row.sense == Eq && row.rhs == 1.0
  {
    Constr(XSum(RowTerms(S, zC, u)), Eq, 1.0)
  }

  /** Each vertex's handle names its row. */
  ghost predicate ExactRows(constrs: map<int, Constr>, S: seq<Community>, zC: map<Community, int>,
                            constraints: map<int, int>)
    requires forall C :: C in S ==> C in zC
  {
    forall u :: u in constraints ==> constraints[u] in constrs && constrs[constraints[u]] == VertexRow(S, zC, u)
  }

  /** Every row is an equality row. */
  ghost predicate EqRows(constrs: map<int, Constr>)
  {
    forall c :: c in constrs ==> constrs[c].sense == Eq
  }

  /** The model after the rows of the vertices `vs`, each row "sum of z_C
      over the listed C containing u == 1"; the variables, their columns
      and the objective are those of m0. */
  ghost predicate RowsAdded(m0: Model<Community>, m: Model<Community>, S: seq<Community>, zC: map<Community, int>,
                            vs: seq<int>, constraints: map<int, int>)
    requires forall C :: C in S ==> C in zC
  {
    && m.vars == m0.vars && m.cols == m0.cols && m.objective == m0.objective && m.objSense == m0.objSense
    && WellFormed(m) && m.nextConstr == m0.nextConstr + |vs| && |m.constrs| == |vs|
    && OwnRows(m.constrs, constraints, vs)
    && ExactRows(m.constrs, S, zC, constraints)
    && EqRows(m.constrs)
  }

  lemma RowsAddedStep(m0: Model<Community>, m: Model<Community>, S: seq<Community>, zC: map<Community, int>,
                      vs: seq<int>, constraints: map<int, int>, u: int)
    requires |m0.constrs| == 0 && 0 <= m0.nextConstr
    requires forall C :: C in S ==> C in zC
    requires forall C :: C in zC ==> 0 <= zC[C] < |m0.vars|
    requires RowsAdded(m0, m, S, zC, vs, constraints)
    ensures RowsAdded(m0, AddConstr(m, VertexRow(S, zC, u)), S, zC, vs + [u],
                      constraints[u := m.nextConstr])
  {
    var row := VertexRow(S, zC, u);
    var r := AddConstr(m, row);
    var cs := constraints[u := m.nextConstr];
    TermsInRange(RowTerms(S, zC, u), zC, |m.vars|);
    assert WellFormed(r);
    assert m.nextConstr !in m.constrs;
    assert |r.constrs| == |vs + [u]|;
    forall x ensures x in cs <==> x in vs + [u] {
    }
    forall x | x in cs ensures cs[x] in r.constrs && r.constrs[cs[x]] == VertexRow(S, zC, x) {
      if x != u {
        assert cs[x] == constraints[x] && constraints[x] in m.constrs;
      }
    }
    forall x, y | x in cs && y in cs && x != y ensures cs[x] != cs[y] {
      if x != u && y != u {
        assert cs[x] == constraints[x] && cs[y] == constraints[y];
      }
    }
    assert OwnRows(r.constrs, cs, vs + [u]);
    assert EqRows(r.constrs);
  }

  lemma RowsAddedNone(m0: Model<Community>, S: seq<Community>, zC: map<Community, int>)
    requires WellFormed(m0) && |m0.constrs| == 0
    requires forall C :: C in S ==> C in zC
    ensures RowsAdded(m0, m0, S, zC, [], map[])
  {
  }

  /** The rows of `LPS.__init__`: for each vertex u in turn, the equality
      row "sum of z_C over the listed C containing u == 1". A vertex listed
      twice is bound to its later row. */
  method AddVertexRows(m0: Model<Community>, S: seq<Community>, zC: map<Community, int>, vertices: seq<int>)
    returns (m: Model<Community>, constraints: map<int, int>)
    requires WellFormed(m0) && |m0.constrs| == 0
    requires forall C :: C in S ==> C in zC
    requires forall C :: C in zC ==> 0 <= zC[C] < |m0.vars|
    ensures RowsAdded(m0, m, S, zC, vertices, constraints)
  {
    m := m0;
    constraints := map[];
    var t := 0;
    RowsAddedNone(m0, S, zC);
    while t < |vertices|
      invariant 0 <= t <= |vertices|
      invariant RowsAdded(m0, m, S, zC, vertices[..t], constraints)
    {
      var u := vertices[t];
      RowsAddedStep(m0, m, S, zC, vertices[..t], constraints, u);
      constraints := constraints[u := m.nextConstr];
      m := AddConstr(m, VertexRow(S, zC, u));
      assert vertices[..t + 1] == vertices[..t] + [u];
      t := t + 1;
    }
    assert vertices[..t] == vertices;
  }

  /** For a duplicate-free S the variables are S in order, so the rows and
      the objective say what LP(S) means: coefficient 1 exactly where the
      vertex is in the community, and each community's weight. */
  lemma InitialMeaning(S: seq<Community>, zC: map<Community, int>, w: map<Community, real>, u: int, v: int)
    requires Distinct(S)
    requires forall C :: C in S ==> C in w
    requires forall C :: C in zC <==> C in S
    requires forall C :: C in zC ==> zC[C] == LastIndex(S, C)
    requires 0 <= v < |S|
    ensures Coef(XSum(RowTerms(S, zC, u)), v) == if u in S[v] then 1.0 else 0.0
    ensures Coef(XSum(ObjTerms(S, zC, w)), v) == w[S[v]]
  {
    DistinctIndices(S);
    forall j | 0 <= j < |S| ensures S[j] in zC && zC[S[j]] == 0 + j {
      assert LastIndex(S, S[j]) == j;
    }
    RowTermsCoef(S, zC, u, 0, v);
    ObjTermsCoef(S, zC, w, 0, v);
  }

  /** Each bound variable exists and carries its community's name. */
  ghost predicate Named(vars: seq<Var<Community>>, zC: map<Community, int>)
  {
    forall C :: C in zC ==> 0 <= zC[C] < |vars| && vars[zC[C]].name == C
  }

  /** Each vertex owns its own equality row with right-hand side 1. */
  ghost predicate OwnRows(constrs: map<int, Constr>, constraints: map<int, int>, vertices: seq<int>)
  {
    && (forall u :: u in constraints <==> u in vertices)
    && (forall u :: u in constraints ==>
          constraints[u] in constrs && constrs[constraints[u]].sense == Eq && constrs[constraints[u]].rhs == 1.0)
    && Injective(constraints)
  }

  /** Every variable is continuous with lower bound 0 and no upper bound. */
  ghost predicate Unbounded(vars: seq<Var<Community>>)
  {
    forall v :: 0 <= v < |vars| ==> vars[v].varType == Continuous && vars[v].lb == 0.0 && vars[v].ub == None
  }

  /** With the variables of InitialVars(S), each community's last position
      names it. */
  lemma InitialNamed(S: seq<Community>, zC: map<Community, int>)
    requires forall C :: C in zC ==> C in S && zC[C] == LastIndex(S, C)
    ensures Named(InitialVars(S), zC)
  {
  }

  lemma UnboundedAppend(vars: seq<Var<Community>>, S: seq<Community>)
    requires Unbounded(vars)
    ensures Unbounded(vars + InitialVars(S))
  {
    var all := vars + InitialVars(S);
    forall v | 0 <= v < |all| ensures all[v].varType == Continuous && all[v].lb == 0.0 && all[v].ub == None {
      if v >= |vars| {
        assert all[v] == InitialVars(S)[v - |vars|];
      }
    }
  }

  /** The bookkeeping every operation relies on: the three predicates above,
      a valid weight table, and a maximised objective. */
  ghost predicate Bookkeeping(m: Model<Community>, w: Dict<Community, real>, zC: map<Community, int>,
                              constraints: map<int, int>, vertices: seq<int>)
  {
    && WellFormed(m)
    && Dicts.Valid(w)
    && Named(m.vars, zC)
    && OwnRows(m.constrs, constraints, vertices)
    && Unbounded(m.vars)
    && m.objSense == Maximize
  }

  /** Row u has coefficient 1 on a variable exactly when u is in the
      variable's community, and 0 otherwise. */
  ghost predicate RowsCover(m: Model<Community>, constraints: map<int, int>)
  {
    forall u, v :: u in constraints && 0 <= v < |m.vars| && constraints[u] in m.constrs ==>
      RowCoef(m, constraints[u], v) == if u in m.vars[v].name then 1.0 else 0.0
  }

  /** The whole of `LPS.__init__` on values: variables, rows, objective. */
  method BuildMaster(S: seq<Community>, w: Dict<Community, real>, vertices: seq<int>)
    returns (m: Model<Community>, zC: map<Community, int>, constraints: map<int, int>)
    requires forall C :: C in S ==> C in w.vals
    ensures WellFormed(m) && m.objSense == Maximize
    ensures Named(m.vars, zC) && OwnRows(m.constrs, constraints, vertices) && Unbounded(m.vars)
    ensures m.vars == InitialVars(S) && m.cols == Blank(|S|)
    ensures forall C :: C in zC <==> C in S
    ensures forall C :: C in zC ==> zC[C] == LastIndex(S, C)
    ensures |m.constrs| == |vertices|
    ensures ExactRows(m.constrs, S, zC, constraints)
    ensures m.objective == XSum(ObjTerms(S, zC, w.vals))
    ensures EqRows(m.constrs)
  {
    var m0, z := AddCommunityVars(S);
    var m1, cs := AddVertexRows(m0, S, z, vertices);
    TermsInRange(ObjTerms(S, z, w.vals), z, |m1.vars|);
    m := SetObjective(m1, XSum(ObjTerms(S, z, w.vals)), Maximize);
    zC := z;
    constraints := cs;
    InitialNamed(S, zC);
    InitialUnbounded(S);
    RowsAddedFacts(m0, m1, S, zC, vertices, constraints);
  }

  lemma InitialUnbounded(S: seq<Community>)
    ensures Unbounded(InitialVars(S))
  {
  }

  /** What the rows leave for the constructor to report. */
  lemma RowsAddedFacts(m0: Model<Community>, m1: Model<Community>, S: seq<Community>, zC: map<Community, int>,
                       vertices: seq<int>, constraints: map<int, int>)
    requires forall C :: C in S ==> C in zC
    requires RowsAdded(m0, m1, S, zC, vertices, constraints)
    ensures WellFormed(m1) && OwnRows(m1.constrs, constraints, vertices) && ExactRows(m1.constrs, S, zC, constraints)
    ensures m1.vars == m0.vars && m1.cols == m0.cols && |m1.constrs| == |vertices|
    ensures EqRows(m1.constrs)
  {
  }

  /** What the constructor's model means for a duplicate-free S: row u has
      coefficient 1 on z_C exactly when u is in C, and the objective
      coefficient of z_C is C's weight. */
  lemma InitialRowsCover(m: Model<Community>, S: seq<Community>, zC: map<Community, int>, w: map<Community, real>,
                         constraints: map<int, int>)
    requires Distinct(S)
    requires forall C :: C in S ==> C in w
    requires forall C :: C in zC <==> C in S
    requires forall C :: C in zC ==> zC[C] == LastIndex(S, C)
    requires m.vars == InitialVars(S) && m.cols == Blank(|S|)
    requires ExactRows(m.constrs, S, zC, constraints)
    requires m.objective == XSum(ObjTerms(S, zC, w))
    ensures RowsCover(m, constraints)
    ensures forall v :: 0 <= v < |S| ==> Coef(m.objective, v) == w[S[v]]
  {
    forall u, v | u in constraints && 0 <= v < |m.vars| && constraints[u] in m.constrs
      ensures RowCoef(m, constraints[u], v) == if u in m.vars[v].name then 1.0 else 0.0
    {
      InitialMeaning(S, zC, w, u, v);
      assert m.cols[v] == map[];
    }
    forall v | 0 <= v < |S| ensures Coef(m.objective, v) == w[S[v]] {
      InitialMeaning(S, zC, w, 0, v);
    }
  }

  /** One column of `update_model`: a new continuous variable named C, with
      objective coefficient wC and C's column. */
  function AddColumn(m: Model<Community>, constraints: map<int, int>, vertices: seq<int>, C: Community, wC: real)
    : (r: Model<Community>)
    requires forall u :: u in constraints ==> constraints[u] in m.constrs
    ensures WellFormed(m) ==> WellFormed(r)
    ensures r.vars == m.vars + [Var(C, Continuous, 0.0, None)]
    ensures r.cols == m.cols + [ColumnOf(C, constraints, vertices)]
    ensures r.constrs == m.constrs && r.nextConstr == m.nextConstr && r.objSense == m.objSense
    ensures r.objective == m.objective[|m.vars| := wC]
  {
    ColumnKeys(C, constraints, vertices, m.constrs.Keys);
    AddVarWithColumn(m, Var(C, Continuous, 0.0, None), wC, ColumnOf(C, constraints, vertices))
  }

  /** The columns of the listed communities, in order. */
  function NewCols(newS: seq<Community>, constraints: map<int, int>, vertices: seq<int>): (cols: seq<LinExpr>)
    ensures |cols| == |newS|
    ensures forall i :: 0 <= i < |newS| ==> cols[i] == ColumnOf(newS[i], constraints, vertices)
  {
    seq(|newS|, i requires 0 <= i < |newS| => ColumnOf(newS[i], constraints, vertices))
  }

  lemma SplitLast(newS: seq<Community>, constraints: map<int, int>, vertices: seq<int>)
    requires newS != []
    ensures InitialVars(newS) == InitialVars(newS[..|newS| - 1]) + [Var(newS[|newS| - 1], Continuous, 0.0, None)]
    ensures NewCols(newS, constraints, vertices)
         == NewCols(newS[..|newS| - 1], constraints, vertices) + [ColumnOf(newS[|newS| - 1], constraints, vertices)]
  {
  }

  /** The model after the columns of the listed communities, in order. */
  function Columns(m0: Model<Community>, constraints: map<int, int>, vertices: seq<int>, newS: seq<Community>,
                   newW: map<Community, real>): (m: Model<Community>)
    requires forall u :: u in constraints ==> constraints[u] in m0.constrs
    requires forall C :: C in newS ==> C in newW
    ensures WellFormed(m0) ==> WellFormed(m)
    ensures m.vars == m0.vars + InitialVars(newS)
    ensures m.cols == m0.cols + NewCols(newS, constraints, vertices)
    ensures m.constrs == m0.constrs && m.nextConstr == m0.nextConstr && m.objSense == m0.objSense
    decreases |newS|
  {
    if newS == [] then
      assert InitialVars(newS) == [] && NewCols(newS, constraints, vertices) == [];
      m0
    else
      var init := newS[..|newS| - 1];
      var C := newS[|newS| - 1];
      assert forall D :: D in init ==> D in newS;
      assert C in newS;
      var before := Columns(m0, constraints, vertices, init, newW);
      SplitLast(newS, constraints, vertices);
      AddColumn(before, constraints, vertices, C, newW[C])
  }

  /** The coefficient of variable v in vertex u's row after the columns:
      unchanged for the old variables; for the i-th new one, 1 exactly
      when u is in the i-th listed community. */
  lemma ColumnsRowCoef(m0: Model<Community>, constraints: map<int, int>, vertices: seq<int>, newS: seq<Community>,
                       newW: map<Community, real>, u: int, v: int)
    requires WellFormed(m0)
    requires forall x :: x in constraints ==> constraints[x] in m0.constrs
    requires forall C :: C in newS ==> C in newW
    requires forall x :: x in constraints ==> x in vertices
    requires Injective(constraints)
    requires u in constraints && 0 <= v < |m0.vars| + |newS|
    ensures constraints[u] in Columns(m0, constraints, vertices, newS, newW).constrs
    ensures RowCoef(Columns(m0, constraints, vertices, newS, newW), constraints[u], v)
         == if v < |m0.vars| then RowCoef(m0, constraints[u], v) else if u in newS[v - |m0.vars|] then 1.0 else 0.0
  {
    var m := Columns(m0, constraints, vertices, newS, newW);
    if v < |m0.vars| {
      assert m.cols[v] == m0.cols[v];
    } else {
      NewVarRowCoef(m0, m, constraints, vertices, newS, u, v);
    }
  }

  lemma NewVarRowCoef(m0: Model<Community>, m: Model<Community>, constraints: map<int, int>, vertices: seq<int>,
                      newS: seq<Community>, u: int, v: int)
    requires WellFormed(m0)
    requires Injective(constraints)
    requires u in constraints && constraints[u] in m0.constrs && |m0.vars| <= v < |m0.vars| + |newS|
    requires m.constrs == m0.constrs && m.cols == m0.cols + NewCols(newS, constraints, vertices)
    ensures RowCoef(m, constraints[u], v) == if u in newS[v - |m0.vars|] && u in vertices then 1.0 else 0.0
  {
    var c := constraints[u];
    assert m.cols[v] == ColumnOf(newS[v - |m0.vars|], constraints, vertices);
    assert v !in m0.constrs[c].expr;
    ColumnHits(newS[v - |m0.vars|], constraints, vertices, u);
  }

  /** Adding columns leaves the objective coefficients of the existing
      variables alone. */
  lemma {:induction false} ColumnsKeepObjCoef(m0: Model<Community>, constraints: map<int, int>, vertices: seq<int>,
                                              newS: seq<Community>, newW: map<Community, real>, v: int)
    requires forall u :: u in constraints ==> constraints[u] in m0.constrs
    requires forall C :: C in newS ==> C in newW
    requires 0 <= v < |m0.vars|
    ensures Coef(Columns(m0, constraints, vertices, newS, newW).objective, v) == Coef(m0.objective, v)
    decreases |newS|
  {
    if newS != [] {
      var init := newS[..|newS| - 1];
      assert forall D :: D in init ==> D in newS;
      ColumnsKeepObjCoef(m0, constraints, vertices, init, newW, v);
    }
  }

  /** The i-th new variable's objective coefficient is the i-th listed
      community's new weight. */
  lemma {:induction false} ColumnsNewObjCoef(m0: Model<Community>, constraints: map<int, int>, vertices: seq<int>,
                                             newS: seq<Community>, newW: map<Community, real>, i: int)
    requires forall x :: x in constraints ==> constraints[x] in m0.constrs
    requires forall C :: C in newS ==> C in newW
    requires 0 <= i < |newS|
    ensures Coef(Columns(m0, constraints, vertices, newS, newW).objective, |m0.vars| + i) == newW[newS[i]]
    decreases |newS|
  {
    var init := newS[..|newS| - 1];
    assert forall D :: D in init ==> D in newS;
    if i < |newS| - 1 {
      ColumnsNewObjCoef(m0, constraints, vertices, init, newW, i);
      assert init[i] == newS[i];
    }
  }

  /** The community-to-variable table after binding each listed community,
      in order, to the next variable from `base` on: a community listed
      more than once ends up bound to its last variable. */
  function Rebind(zC0: map<Community, int>, newS: seq<Community>, base: int): (zC: map<Community, int>)
    ensures forall C :: C in zC <==> C in zC0 || C in newS
    ensures forall C :: C in zC ==> zC[C] == if C in newS then base + LastIndex(newS, C) else zC0[C]
  {
    if newS == [] then zC0
    else
      var init := newS[..|newS| - 1];
      assert forall D :: D in newS <==> D in init || D == newS[|newS| - 1];
      Rebind(zC0, init, base)[newS[|newS| - 1] := base + |init|]
  }

  /** After the columns, every bound variable still carries its
      community's name. */
  lemma RebindNamed(m0: Model<Community>, zC0: map<Community, int>, newS: seq<Community>, vars: seq<Var<Community>>)
    requires Named(m0.vars, zC0)
    requires vars == m0.vars + InitialVars(newS)
    ensures Named(vars, Rebind(zC0, newS, |m0.vars|))
  {
    var zC := Rebind(zC0, newS, |m0.vars|);
    forall C | C in zC ensures 0 <= zC[C] < |vars| && vars[zC[C]].name == C {
      if C in newS {
        var j := LastIndex(newS, C);
        assert vars[|m0.vars| + j] == InitialVars(newS)[j];
      } else {
        assert vars[zC0[C]] == m0.vars[zC0[C]];
      }
    }
  }

  /** One more community: its column follows those of the ones before. */
  lemma ColumnsStep(m0: Model<Community>, constraints: map<int, int>, vertices: seq<int>, newS: seq<Community>,
                    newW: map<Community, real>, i: int)
    requires forall u :: u in constraints ==> constraints[u] in m0.constrs
    requires forall C :: C in newS ==> C in newW
    requires 0 <= i < |newS|
    ensures forall C :: C in newS[..i] ==> C in newW
    ensures forall C :: C in newS[..i + 1] ==> C in newW
    ensures Columns(m0, constraints, vertices, newS[..i + 1], newW)
         == AddColumn(Columns(m0, constraints, vertices, newS[..i], newW), constraints, vertices, newS[i], newW[newS[i]])
  {
    assert forall C :: C in newS[..i] ==> C in newS;
    assert forall C :: C in newS[..i + 1] ==> C in newS;
    assert newS[..i + 1][..i] == newS[..i];
  }

  lemma RebindStep(zC0: map<Community, int>, newS: seq<Community>, base: int, i: int)
    requires 0 <= i < |newS|
    ensures Rebind(zC0, newS[..i + 1], base) == Rebind(zC0, newS[..i], base)[newS[i] := base + i]
  {
    assert newS[..i + 1][..i] == newS[..i];
  }

  /** The column loop of `update_model`: for each listed community C in
      turn, a new column (see AddColumn), and z_C rebound to it. Nothing
      checks whether C already has a variable. */
  method AddColumns(m0: Model<Community>, zC0: map<Community, int>, constraints: map<int, int>, vertices: seq<int>,
                    newS: seq<Community>, newW: map<Community, real>)
    returns (m: Model<Community>, zC: map<Community, int>)
    requires forall u :: u in constraints ==> constraints[u] in m0.constrs
    requires forall C :: C in newS ==> C in newW
    ensures m == Columns(m0, constraints, vertices, newS, newW)
    ensures zC == Rebind(zC0, newS, |m0.vars|)
  {
    m := m0;
    zC := zC0;
    var base := |m0.vars|;
    var i := 0;
    assert newS[..0] == [];
    while i < |newS|
      invariant 0 <= i <= |newS|
      invariant forall C :: C in newS[..i] ==> C in newW
      invariant m == Columns(m0, constraints, vertices, newS[..i], newW)
      invariant zC == Rebind(zC0, newS[..i], base)
    {
      ColumnsStep(m0, constraints, vertices, newS, newW, i);
      RebindStep(zC0, newS, base, i);
      m := AddColumn(m, constraints, vertices, newS[i], newW[newS[i]]);
      zC := zC[newS[i] := base + i];
      i := i + 1;
    }
    assert newS[..i] == newS;
  }

  /** Columns built from the vertices' own rows keep "row u has coefficient
      1 exactly on the communities containing u". */
  lemma ColumnsCover(m0: Model<Community>, constraints: map<int, int>, vertices: seq<int>, newS: seq<Community>,
                     newW: map<Community, real>)
    requires WellFormed(m0) && RowsCover(m0, constraints)
    requires forall x :: x in constraints ==> constraints[x] in m0.constrs
    requires forall C :: C in newS ==> C in newW
    requires forall x :: x in constraints ==> x in vertices
    requires Injective(constraints)
    ensures RowsCover(Columns(m0, constraints, vertices, newS, newW), constraints)
  {
    var m := Columns(m0, constraints, vertices, newS, newW);
    forall u, v | u in constraints && 0 <= v < |m.vars| && constraints[u] in m.constrs
      ensures RowCoef(m, constraints[u], v) == if u in m.vars[v].name then 1.0 else 0.0
    {
      ColumnCovers(m0, constraints, vertices, newS, newW, u, v);
    }
  }

  lemma ColumnCovers(m0: Model<Community>, constraints: map<int, int>, vertices: seq<int>, newS: seq<Community>,
                     newW: map<Community, real>, u: int, v: int)
    requires WellFormed(m0) && RowsCover(m0, constraints)
    requires forall x :: x in constraints ==> constraints[x] in m0.constrs
    requires forall C :: C in newS ==> C in newW
    requires forall x :: x in constraints ==> x in vertices
    requires Injective(constraints)
    requires u in constraints && 0 <= v < |m0.vars| + |newS|
    ensures constraints[u] in Columns(m0, constraints, vertices, newS, newW).constrs
    ensures RowCoef(Columns(m0, constraints, vertices, newS, newW), constraints[u], v)
         == if u in Columns(m0, constraints, vertices, newS, newW).vars[v].name then 1.0 else 0.0
  {
    var m := Columns(m0, constraints, vertices, newS, newW);
    ColumnsRowCoef(m0, constraints, vertices, newS, newW, u, v);
    if v < |m0.vars| {
      assert m.vars[v] == m0.vars[v];
    } else {
      assert m.vars[v] == InitialVars(newS)[v - |m0.vars|];
    }
  }

  /** The columns keep the bookkeeping, with the weight table updated and
      the new communities rebound. */
  lemma ColumnsKeepBookkeeping(m0: Model<Community>, w0: Dict<Community, real>, zC0: map<Community, int>,
                               constraints: map<int, int>, vertices: seq<int>,
                               newS: seq<Community>, newW: Dict<Community, real>)
    requires Bookkeeping(m0, w0, zC0, constraints, vertices) && Dicts.Valid(newW)
    requires forall C :: C in newS ==> C in newW.vals
    ensures Bookkeeping(Columns(m0, constraints, vertices, newS, newW.vals), Update(w0, newW),
                        Rebind(zC0, newS, |m0.vars|), constraints, vertices)
  {
    var m := Columns(m0, constraints, vertices, newS, newW.vals);
    var zC := Rebind(zC0, newS, |m0.vars|);
    RebindNamed(m0, zC0, newS, m.vars);
    assert Named(m.vars, zC);
    assert WellFormed(m);
    assert Dicts.Valid(Update(w0, newW));
    assert m.constrs == m0.constrs;
    UnboundedAppend(m0.vars, newS);
  }

  class Lps {
    var model: Model<Community>
    var S: seq<Community>
    var wDict: Dict<Community, real>
    var vertices: seq<int>
    /** The variable currently bound to each community. */
    var zC: map<Community, int>
    /** The row handle of each vertex. */
    var constraints: map<int, int>
    var lpsOpt: real
    var lpsPrimal: map<Community, real>
    var lpsDual: map<int, real>

    ghost predicate Ready()
      reads this
    {
      Bookkeeping(model, wDict, zC, constraints, vertices)
    }

    /** `LPS(S, w_C_dict, vertices)`. A community of S missing from the
        weight table would raise KeyError; the caller must supply them all.
        InitialRowsCover says what the rows and the objective mean. */
    constructor (S: seq<Community>, w: Dict<Community, real>, vertices: seq<int>)
      requires Dicts.Valid(w)
      requires forall C :: C in S ==> C in w.vals
      ensures Ready()
      ensures this.S == S && wDict == w && this.vertices == vertices
      ensures model.vars == InitialVars(S) && model.cols == Blank(|S|)
      ensures forall C :: C in zC <==> C in S
      ensures forall C :: C in zC ==> zC[C] == LastIndex(S, C)
      ensures |model.constrs| == |vertices|
      ensures ExactRows(model.constrs, S, zC, constraints)
      ensures model.objective == XSum(ObjTerms(S, zC, w.vals))
      ensures EqRows(model.constrs)
    {
      var m, z, cs := BuildMaster(S, w, vertices);
      model, zC, constraints := m, z, cs;
      this.S := S;
      wDict := w;
      this.vertices := vertices;
    }

    /** `update_model(new_S, new_w_C_dict)`: the weight table takes the new
        weights (overwriting equal keys), S becomes all its keys, and each
        community of new_S gets a new column (see Columns and the lemmas
        about it). Every new community must have a weight, or the source
        raises KeyError. */
    method UpdateModel(newS: seq<Community>, newW: Dict<Community, real>)
      requires Ready() && Dicts.Valid(newW)
      requires forall C :: C in newS ==> C in newW.vals && forall u :: u in C ==> u in constraints
      modifies this
      ensures vertices == old(vertices) && constraints == old(constraints)
      ensures wDict == Update(old(wDict), newW) && S == wDict.keys
      ensures model == Columns(old(model), constraints, vertices, newS, newW.vals)
      ensures zC == Rebind(old(zC), newS, old(|model.vars|))
      ensures lpsOpt == old(lpsOpt) && lpsPrimal == old(lpsPrimal) && lpsDual == old(lpsDual)
      ensures Ready()
    {
      assert OwnRows(model.constrs, constraints, vertices);
      var m, z := AddColumns(model, zC, constraints, vertices, newS, newW.vals);
      var w := Update(wDict, newW);
      ColumnsKeepBookkeeping(model, wDict, zC, constraints, vertices, newS, newW);
      assert Bookkeeping(m, w, z, constraints, vertices);
      model, zC, wDict, S := m, z, w, w.keys;
    }

    /** `solve_model`, with the solver's answer handed in: the optimum, the
        value of each listed community's current variable and the dual price
        of each vertex's row. A listed community without a variable would
        raise KeyError. */
    method SolveModel(sol: Solution) returns (opt: real, primal: map<Community, real>, dual: map<int, real>)
      requires Ready() && Fits(sol, model)
      requires forall C :: C in S ==> C in zC
      modifies this
      ensures model == old(model) && S == old(S) && wDict == old(wDict) && vertices == old(vertices)
      ensures zC == old(zC) && constraints == old(constraints)
      ensures opt == sol.objectiveValue
      ensures primal.Keys == (set C | C in S) && forall C :: C in primal ==> primal[C] == sol.x[old(zC)[C]]
      ensures dual.Keys == (set u | u in vertices) && forall u :: u in dual ==> dual[u] == sol.pi[old(constraints)[u]]
      ensures lpsOpt == opt && lpsPrimal == primal && lpsDual == dual
    {
      lpsOpt := sol.objectiveValue;
      lpsPrimal := map C | C in S :: sol.x[zC[C]];
      lpsDual := map u | u in vertices :: sol.pi[constraints[u]];
      return lpsOpt, lpsPrimal, lpsDual;
    }
  }
}
