/** The part of the `mip` modelling API that the master problems use: a model
    is a list of variables, a table of constraints keyed by handle, and a
    linear objective. Solving is not modelled; a solver's answer is a value
    handed in from outside (see `Solution`). */
module Mip {
  import opened Results
  import opened Sums

  datatype VarType = Continuous | Binary

  /** A variable: its name, kind and bounds (`None`: no upper bound). */
  datatype Var<N> = Var(name: N, varType: VarType, lb: real, ub: Option<real>)

  /** A linear expression: variable index to coefficient. Terms on the same
      variable are merged, as in mip's LinExpr. */
  type LinExpr = map<int, real>

  /** The coefficient of variable v, 0 when v does not occur. */
  function Coef(e: LinExpr, v: int): real
  {
    if v in e then e[v] else 0.0
  }

  /** Adding the term c * v to an expression. */
  function AddTerm(e: LinExpr, v: int, c: real): (r: LinExpr)
    ensures Coef(r, v) == Coef(e, v) + c
    ensures forall w :: w != v ==> Coef(r, w) == Coef(e, w)
    ensures r.Keys == e.Keys + {v}
  {
    e[v := Coef(e, v) + c]
  }

  /** `xsum` over a list of (variable, coefficient) terms. */
  function XSum(ts: seq<(int, real)>): LinExpr
  {
    if ts == [] then map[] else AddTerm(XSum(ts[1..]), ts[0].0, ts[0].1)
  }

  /** xsum mentions exactly the variables of its terms. */
  lemma {:induction false} XSumKeys(ts: seq<(int, real)>)
    ensures forall v :: v in XSum(ts) <==> exists t :: t in ts && t.0 == v
    decreases |ts|
  {
    if ts != [] {
      XSumKeys(ts[1..]);
      assert forall t :: t in ts[1..] ==> t in ts;
      assert forall t :: t in ts ==> t == ts[0] || t in ts[1..];
    }
  }

  /** The coefficient xsum gives a variable is the sum of its terms'
      coefficients. */
  lemma {:induction false} XSumCoef(ts: seq<(int, real)>, v: int)
    ensures Coef(XSum(ts), v) == SumOf(ts, (t: (int, real)) => if t.0 == v then t.1 else 0.0)
    decreases |ts|
  {
    if ts != [] {
      XSumCoef(ts[1..], v);
    }
  }

  /** A variable occurring at most once, with coefficient 1, gets coefficient
      1 exactly when it occurs. */
  lemma {:induction false} XSumUnit(ts: seq<(int, real)>, v: int)
    requires forall t :: t in ts ==> t.1 == 1.0
    requires forall a, b :: 0 <= a < b < |ts| && ts[a].0 == v ==> ts[b].0 != v
    ensures Coef(XSum(ts), v) == if exists t :: t in ts && t.0 == v then 1.0 else 0.0
    decreases |ts|
  {
    if ts != [] {
      XSumUnit(ts[1..], v);
      if ts[0].0 == v {
        forall t | t in ts[1..] ensures t.0 != v {
          var b :| 0 <= b < |ts[1..]| && ts[1..][b] == t;
          assert ts[b + 1] == t;
        }
      }
      assert forall t :: t in ts ==> t == ts[0] || t in ts[1..];
    }
  }

  datatype Sense = Eq | Le | Ge

  /** `expr (== | <= | >=) rhs`. */
  datatype Constr = Constr(expr: LinExpr, sense: Sense, rhs: real)

  datatype ObjSense = Maximize | Minimize

  /** A model. Constraint handles are never reused: `nextConstr` is the
      handle the next constraint receives. A constraint's coefficients come
      from two places: the expression it was created with, and the column
      given to `add_var` for each later variable (`cols[v]`, constraint
      handle to coefficient). */
  datatype Model<N> = Model(
    vars: seq<Var<N>>, cols: seq<LinExpr>, constrs: map<int, Constr>, nextConstr: int,
    objective: LinExpr, objSense: ObjSense)

  /** `Model()`: no variables, no constraints, objective 0. */
  function EmptyModel<N>(sense: ObjSense): (m: Model<N>)
    ensures WellFormed(m) && |m.vars| == 0 && |m.constrs| == 0
  {
    Model([], [], map[], 0, map[], sense)
  }

  /** Every expression mentions existing variables only, every variable has
      its column, and every handle is below the next one. */
  ghost predicate WellFormed<N>(m: Model<N>)
  {
    && 0 <= m.nextConstr
    && |m.cols| == |m.vars|
    && (forall c :: c in m.constrs ==> 0 <= c < m.nextConstr)
    && (forall c, v :: c in m.constrs && v in m.constrs[c].expr ==> 0 <= v < |m.vars|)
    && (forall v :: v in m.objective ==> 0 <= v < |m.vars|)
    && (forall v, c :: 0 <= v < |m.cols| && c in m.cols[v] ==> c < m.nextConstr)
  }

  /** The coefficient of variable v in constraint c. */
  function RowCoef<N>(m: Model<N>, c: int, v: int): real
    requires c in m.constrs
  {
    Coef(m.constrs[c].expr, v) + if 0 <= v < |m.cols| then Coef(m.cols[v], c) else 0.0
  }

  /** `add_var` without a column and without an objective coefficient: the
      new variable is the last one and occurs nowhere yet. */
  function AddVar<N>(m: Model<N>, x: Var<N>): (r: Model<N>)
    requires WellFormed(m)
    ensures WellFormed(r)
    ensures r.vars == m.vars + [x] && r.cols == m.cols + [map[]]
    ensures r.constrs == m.constrs && r.nextConstr == m.nextConstr
    ensures r.objective == m.objective && r.objSense == m.objSense
    ensures forall c :: c in r.constrs ==> RowCoef(r, c, |m.vars|) == 0.0
  {
    m.(vars := m.vars + [x], cols := m.cols + [map[]])
  }

  /** `add_var(obj=obj, column=column)`: the new variable gets coefficient
      column[c] in each listed constraint c and `obj` in the objective. */
  function AddVarWithColumn<N>(m: Model<N>, x: Var<N>, obj: real, column: LinExpr): (r: Model<N>)
    requires column.Keys <= m.constrs.Keys
    ensures WellFormed(m) ==> WellFormed(r)
    ensures r.vars == m.vars + [x] && r.cols == m.cols + [column]
    ensures r.constrs == m.constrs && r.nextConstr == m.nextConstr && r.objSense == m.objSense
    ensures r.objective == m.objective[|m.vars| := obj]
    ensures WellFormed(m) ==> forall c :: c in r.constrs ==> RowCoef(r, c, |m.vars|) == Coef(column, c)
    ensures WellFormed(m) ==> forall c, v :: c in r.constrs && v != |m.vars| ==> RowCoef(r, c, v) == RowCoef(m, c, v)
  {
    Model(m.vars + [x], m.cols + [column], m.constrs, m.nextConstr, m.objective[|m.vars| := obj], m.objSense)
  }

  /** `add_constr`: the constraint gets the next handle. */
  function AddConstr<N>(m: Model<N>, c: Constr): (r: Model<N>)
    ensures r.constrs == m.constrs[m.nextConstr := c] && r.nextConstr == m.nextConstr + 1
    ensures m.nextConstr !in m.constrs ==> |r.constrs| == |m.constrs| + 1
    ensures r.vars == m.vars && r.cols == m.cols && r.objective == m.objective && r.objSense == m.objSense
    ensures WellFormed(m) && (forall v :: v in c.expr ==> 0 <= v < |m.vars|) ==> WellFormed(r)
    ensures WellFormed(m) ==> forall v :: RowCoef(r, m.nextConstr, v) == Coef(c.expr, v)
    ensures forall d, v :: d in m.constrs && d != m.nextConstr ==> RowCoef(r, d, v) == RowCoef(m, d, v)
  {
    m.(constrs := m.constrs[m.nextConstr := c], nextConstr := m.nextConstr + 1)
  }

  /** `model.objective = maximize(e)` / `minimize(e)`: the objective and
      its sense are replaced, everything else is kept. */
  function SetObjective<N>(m: Model<N>, e: LinExpr, sense: ObjSense): (r: Model<N>)
    ensures r.vars == m.vars && r.cols == m.cols && r.constrs == m.constrs && r.nextConstr == m.nextConstr
    ensures r.objective == e && r.objSense == sense
    ensures WellFormed(m) && (forall v :: v in e ==> 0 <= v < |m.vars|) ==> WellFormed(r)
  {
    m.(objective := e, objSense := sense)
  }

  /** `remove(constr)`: fails when the constraint is not in the model. */
  function Remove<N>(m: Model<N>, c: int): (r: Option<Model<N>>)
    ensures r.Some? <==> c in m.constrs
    ensures r.Some? ==>
      && r.value.constrs == m.constrs - {c} && r.value.vars == m.vars && r.value.cols == m.cols
      && r.value.nextConstr == m.nextConstr && r.value.objective == m.objective && r.value.objSense == m.objSense
    ensures r.Some? && WellFormed(m) ==> WellFormed(r.value)
  {
    if c in m.constrs then Some(m.(constrs := m.constrs - {c})) else None
  }

  /** What a solver hands back for a model: the objective value, one value
      per variable and one dual price per constraint handle. */
  datatype Solution = Solution(objectiveValue: real, x: seq<real>, pi: map<int, real>)

  /** The solution fits the model it is read against. */
  ghost predicate Fits<N>(sol: Solution, m: Model<N>)
  {
    |sol.x| == |m.vars| && m.constrs.Keys <= sol.pi.Keys
  }
}
