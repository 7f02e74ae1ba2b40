/** LP(S) with a cardinality row (Code/utils/lps_with_partition.py): the
    master problem of Lps plus one row "sum of z_C over the listed
    communities <= k", which can be replaced by a row with another k. The
    Python class extends LPS; here it holds an Lps object and reaches its
    state through it. */
module LpsWithPartition {
  import opened Results
  import opened Mip
  import opened Dicts
  import L = Lps

  type Community = L.Community

  /** A unit term on z_C for each listed community, in list order. */
  function PartitionTerms(S: seq<Community>, zC: map<Community, int>): seq<(int, real)>
    requires forall C :: C in S ==> C in zC
  {
    seq(|S|, i requires 0 <= i < |S| => (zC[S[i]], 1.0))
  }

  /** `xsum(z_C[C] for C in S) <= k`. */
  function PartitionRow(S: seq<Community>, zC: map<Community, int>, k: int): (row: Constr)
    requires forall C :: C in S ==> C in zC
    ensures row.sense == Le && row.rhs == k as real
  {
    Constr(XSum(PartitionTerms(S, zC)), Le, k as real)
  }

  /** Some listed community is bound to variable v. */
  ghost predicate Bound(S: seq<Community>, zC: map<Community, int>, v: int)
  {
    exists C :: C in S && C in zC && zC[C] == v
  }

  /** With a duplicate-free S whose variables carry their communities'
      names, the row has coefficient 1 on the variable of each listed
      community and 0 on every other variable. */
  lemma PartitionRowCoef(vars: seq<Var<Community>>, S: seq<Community>, zC: map<Community, int>, k: int, v: int)
    requires forall C :: C in S ==> C in zC
    requires L.Named(vars, zC) && Distinct(S)
    ensures Coef(PartitionRow(S, zC, k).expr, v) == if Bound(S, zC, v) then 1.0 else 0.0
  {
    var ts := PartitionTerms(S, zC);
    DistinctIndices(S);
    forall a, b | 0 <= a < b < |ts| ensures ts[a].0 != ts[b].0 {
      assert vars[zC[S[a]]].name == S[a] != S[b] == vars[zC[S[b]]].name;
    }
    XSumUnit(ts, v);
    if Bound(S, zC, v) {
      var C :| C in S && C in zC && zC[C] == v;
      var i :| 0 <= i < |S| && S[i] == C;
      assert ts[i] in ts;
    }
    if exists t :: t in ts && t.0 == v {
      var t :| t in ts && t.0 == v;
      var i :| 0 <= i < |ts| && ts[i] == t;
      assert S[i] in S;
    }
  }

  /** The row mentions only variables of the model. */
  lemma PartitionRowInRange(vars: seq<Var<Community>>, S: seq<Community>, zC: map<Community, int>, k: int)
    requires forall C :: C in S ==> C in zC
    requires L.Named(vars, zC)
    ensures forall v :: v in PartitionRow(S, zC, k).expr ==> 0 <= v < |vars|
  {
    var ts := PartitionTerms(S, zC);
    XSumKeys(ts);
    forall v | v in XSum(ts) ensures 0 <= v < |vars| {
      var t :| t in ts && t.0 == v;
      var i :| 0 <= i < |ts| && ts[i] == t;
    }
  }

  /** The handles the held value names: none, or one. */
  function Handles(pc: Option<int>): (hs: set<int>)
    ensures forall h :: h in hs <==> pc == Some(h)
  {
    if pc.Some? then {pc.value} else {}
  }

  /** The held handle names a live `<= k` row that no vertex owns and no
      column touches. */
  ghost predicate Held(m: Model<Community>, constraints: map<int, int>, h: int, k: int)
  {
    && h in m.constrs && m.constrs[h].sense == Le && m.constrs[h].rhs == k as real
    && (forall u :: u in constraints ==> constraints[u] != h)
    && (forall v :: 0 <= v < |m.cols| ==> h !in m.cols[v])
  }

  /** Apart from the held row, every row is an equality row. */
  ghost predicate OnlyHeld(constrs: map<int, Constr>, pc: Option<int>)
  {
    forall c :: c in constrs && c !in Handles(pc) ==> constrs[c].sense == Eq
  }

  /** The object's invariant on values: LP(S)'s bookkeeping, and at most
      one row besides the vertices' equality rows, the held one. */
  ghost predicate WithPartition(m: Model<Community>, w: Dict<Community, real>, zC: map<Community, int>,
                                constraints: map<int, int>, vertices: seq<int>, pc: Option<int>, k: int)
  {
    && L.Bookkeeping(m, w, zC, constraints, vertices)
    && OnlyHeld(m.constrs, pc)
    && (pc.Some? ==> Held(m, constraints, pc.value, k))
  }

  /** A freshly built LP(S), all of whose rows are equalities, satisfies the
      invariant with no row held. */
  lemma NoneHeld(m: Model<Community>, w: Dict<Community, real>, zC: map<Community, int>,
                 constraints: map<int, int>, vertices: seq<int>, k: int)
    requires L.Bookkeeping(m, w, zC, constraints, vertices) && L.EqRows(m.constrs)
    ensures WithPartition(m, w, zC, constraints, vertices, None, k)
  {
  }

  /** Row h counts exactly the variables of the listed communities. */
  ghost predicate PartitionCovers(m: Model<Community>, h: int, S: seq<Community>, zC: map<Community, int>)
    requires h in m.constrs
  {
    forall v :: 0 <= v < |m.vars| ==> RowCoef(m, h, v) == if Bound(S, zC, v) then 1.0 else 0.0
  }

  /** The `try: model.remove(partition_constr)` step on values: the held row
      leaves the model when it is there; when removal fails the model is
      kept (the source prints a warning). */
  function Drop(m: Model<Community>, pc: Option<int>): (r: Model<Community>)
    ensures r.constrs == m.constrs - Handles(pc)
    ensures r.vars == m.vars && r.cols == m.cols && r.nextConstr == m.nextConstr
    ensures r.objective == m.objective && r.objSense == m.objSense
  {
    if pc.Some? then
      match Remove(m, pc.value)
      case Some(r) => r
      case None => m
    else m
  }

  /** Dropping the held row keeps the master problem's bookkeeping and its
      vertex rows, and leaves only equality rows. */
  lemma DropKeeps(m: Model<Community>, w: Dict<Community, real>, zC: map<Community, int>,
                  constraints: map<int, int>, vertices: seq<int>, pc: Option<int>, k: int)
    requires L.Bookkeeping(m, w, zC, constraints, vertices)
    requires pc.Some? ==> Held(m, constraints, pc.value, k)
    requires OnlyHeld(m.constrs, pc)
    ensures L.Bookkeeping(Drop(m, pc), w, zC, constraints, vertices)
    ensures OnlyHeld(Drop(m, pc).constrs, None)
    ensures L.RowsCover(m, constraints) ==> L.RowsCover(Drop(m, pc), constraints)
  {
    var r := Drop(m, pc);
    assert WellFormed(r);
    assert L.OwnRows(r.constrs, constraints, vertices);
    if L.RowsCover(m, constraints) {
      forall u, v | u in constraints && 0 <= v < |r.vars| && constraints[u] in r.constrs
        ensures RowCoef(r, constraints[u], v) == if u in r.vars[v].name then 1.0 else 0.0
      {
        assert RowCoef(r, constraints[u], v) == RowCoef(m, constraints[u], v);
      }
    }
  }

  /** Adding the partition row to a model with equality rows only: the
      bookkeeping and the vertex rows are kept, the new row is held, and for
      a duplicate-free S it counts exactly the listed communities. */
  lemma AddRowKeeps(m: Model<Community>, w: Dict<Community, real>, zC: map<Community, int>,
                    constraints: map<int, int>, vertices: seq<int>, S: seq<Community>, k: int)
    requires L.Bookkeeping(m, w, zC, constraints, vertices)
    requires OnlyHeld(m.constrs, None)
    requires forall C :: C in S ==> C in zC
    ensures L.Bookkeeping(AddConstr(m, PartitionRow(S, zC, k)), w, zC, constraints, vertices)
    ensures Held(AddConstr(m, PartitionRow(S, zC, k)), constraints, m.nextConstr, k)
    ensures OnlyHeld(AddConstr(m, PartitionRow(S, zC, k)).constrs, Some(m.nextConstr))
    ensures L.RowsCover(m, constraints) ==> L.RowsCover(AddConstr(m, PartitionRow(S, zC, k)), constraints)
    ensures Distinct(S) ==> PartitionCovers(AddConstr(m, PartitionRow(S, zC, k)), m.nextConstr, S, zC)
  {
    var row := PartitionRow(S, zC, k);
    var r := AddConstr(m, row);
    var h := m.nextConstr;
    PartitionRowInRange(m.vars, S, zC, k);
    assert WellFormed(r);
    assert h !in m.constrs;
    assert L.OwnRows(r.constrs, constraints, vertices) by {
      forall u | u in constraints ensures constraints[u] != h {
        assert constraints[u] in m.constrs;
      }
    }
    assert Held(r, constraints, h, k) by {
      forall u | u in constraints ensures constraints[u] != h {
        assert constraints[u] in m.constrs;
      }
      forall v | 0 <= v < |r.cols| ensures h !in r.cols[v] {
        assert forall c :: c in r.cols[v] ==> c < h;
      }
    }
    assert OnlyHeld(r.constrs, Some(h));
    if L.RowsCover(m, constraints) {
      forall u, v | u in constraints && 0 <= v < |r.vars| && constraints[u] in r.constrs
        ensures RowCoef(r, constraints[u], v) == if u in r.vars[v].name then 1.0 else 0.0
      {
        assert constraints[u] in m.constrs;
      }
    }
    if Distinct(S) {
      forall v | 0 <= v < |r.vars| ensures RowCoef(r, h, v) == if Bound(S, zC, v) then 1.0 else 0.0 {
        PartitionRowCoef(m.vars, S, zC, k, v);
      }
    }
  }

  /** `add_partition_constr` on values keeps the invariant: the held row
      goes, the new row comes in under the next handle and is then the held
      one. */
  lemma PartitionStepValid(m: Model<Community>, w: Dict<Community, real>, zC: map<Community, int>,
                           constraints: map<int, int>, vertices: seq<int>, pc: Option<int>, k0: int,
                           S: seq<Community>, k: int, r: Model<Community>)
    requires WithPartition(m, w, zC, constraints, vertices, pc, k0)
    requires forall C :: C in S ==> C in zC
    requires r == AddConstr(Drop(m, pc), PartitionRow(S, zC, k))
    ensures WithPartition(r, w, zC, constraints, vertices, Some(m.nextConstr), k)
  {
    DropKeeps(m, w, zC, constraints, vertices, pc, k0);
    AddRowKeeps(Drop(m, pc), w, zC, constraints, vertices, S, k);
  }

  /** The previous row is gone, so exactly one cardinality row remains, and
      the vertex rows still say "u is in C". */
  lemma PartitionStepRows(m: Model<Community>, w: Dict<Community, real>, zC: map<Community, int>,
                          constraints: map<int, int>, vertices: seq<int>, pc: Option<int>, k0: int,
                          S: seq<Community>, k: int, r: Model<Community>)
    requires WithPartition(m, w, zC, constraints, vertices, pc, k0)
    requires forall C :: C in S ==> C in zC
    requires r == AddConstr(Drop(m, pc), PartitionRow(S, zC, k))
    ensures pc.Some? ==> pc.value !in r.constrs
    ensures forall c :: c in r.constrs && r.constrs[c].sense != Eq ==> c == m.nextConstr
    ensures L.RowsCover(m, constraints) ==> L.RowsCover(r, constraints)
  {
    DropKeeps(m, w, zC, constraints, vertices, pc, k0);
    AddRowKeeps(Drop(m, pc), w, zC, constraints, vertices, S, k);
    if pc.Some? {
      assert pc.value < m.nextConstr;
    }
  }

  /** For a duplicate-free S the new row counts exactly the variables of
      the listed communities: coefficient 1 on each, 0 on every other. */
  lemma PartitionStepCovers(m: Model<Community>, w: Dict<Community, real>, zC: map<Community, int>,
                            constraints: map<int, int>, vertices: seq<int>, pc: Option<int>, k0: int,
                            S: seq<Community>, k: int, r: Model<Community>)
    requires WithPartition(m, w, zC, constraints, vertices, pc, k0)
    requires forall C :: C in S ==> C in zC
    requires r == AddConstr(Drop(m, pc), PartitionRow(S, zC, k))
    requires Distinct(S)
    ensures m.nextConstr in r.constrs && PartitionCovers(r, m.nextConstr, S, zC)
  {
    DropKeeps(m, w, zC, constraints, vertices, pc, k0);
    AddRowKeeps(Drop(m, pc), w, zC, constraints, vertices, S, k);
  }

  /** New columns stay out of a row that no vertex owns. */
  lemma NewColsAvoid(newS: seq<Community>, constraints: map<int, int>, vertices: seq<int>, h: int)
    requires forall u :: u in constraints ==> constraints[u] != h
    ensures forall i :: 0 <= i < |newS| ==> h !in L.NewCols(newS, constraints, vertices)[i]
  {
    forall i | 0 <= i < |newS| ensures h !in L.NewCols(newS, constraints, vertices)[i] {
      var owned := set u | u in constraints :: constraints[u];
      L.ColumnKeys(newS[i], constraints, vertices, owned);
    }
  }

  /** After new columns, the held row is still held: the columns only touch
      vertex rows. The new variables are outside it. */
  lemma ColumnsKeepHeld(m0: Model<Community>, constraints: map<int, int>, vertices: seq<int>,
                        newS: seq<Community>, newW: map<Community, real>, h: int, k: int)
    requires WellFormed(m0) && Held(m0, constraints, h, k)
    requires forall u :: u in constraints ==> constraints[u] in m0.constrs
    requires forall C :: C in newS ==> C in newW
    ensures Held(L.Columns(m0, constraints, vertices, newS, newW), constraints, h, k)
  {
    var m := L.Columns(m0, constraints, vertices, newS, newW);
    var cols := L.NewCols(newS, constraints, vertices);
    NewColsAvoid(newS, constraints, vertices, h);
    forall v | 0 <= v < |m.cols| ensures h !in m.cols[v] {
      if v >= |m0.cols| {
        assert m.cols[v] == cols[v - |m0.cols|];
      }
    }
  }

  /** Adding columns keeps the invariant with the same held row: the
      columns stay out of it, and the bookkeeping follows the new weights
      and variables. */
  lemma ColumnsKeepPartition(m0: Model<Community>, w0: Dict<Community, real>, zC0: map<Community, int>,
                             constraints: map<int, int>, vertices: seq<int>, pc: Option<int>, k: int,
                             newS: seq<Community>, newW: Dict<Community, real>)
    requires WithPartition(m0, w0, zC0, constraints, vertices, pc, k) && Dicts.Valid(newW)
    requires forall C :: C in newS ==> C in newW.vals
    ensures WithPartition(L.Columns(m0, constraints, vertices, newS, newW.vals), Update(w0, newW),
                          L.Rebind(zC0, newS, |m0.vars|), constraints, vertices, pc, k)
  {
    L.ColumnsKeepBookkeeping(m0, w0, zC0, constraints, vertices, newS, newW);
    if pc.Some? {
      ColumnsKeepHeld(m0, constraints, vertices, newS, newW.vals, pc.value, k);
    }
  }

  /** `update_columns_and_partition` as intended, on values: after the
      columns of new_S are added and the weights merged, the replaced
      cardinality row counts the variable of every community of the merged
      S, new ones included, and no other variable. */
  lemma RebuildCovers(m0: Model<Community>, w0: Dict<Community, real>, zC0: map<Community, int>,
                      constraints: map<int, int>, vertices: seq<int>, pc: Option<int>, k: int,
                      newS: seq<Community>, newW: Dict<Community, real>, newK: int)
    requires WithPartition(m0, w0, zC0, constraints, vertices, pc, k) && Dicts.Valid(newW)
    requires forall C :: C in newS ==> C in newW.vals
    requires forall C :: C in w0.vals ==> C in zC0
    requires forall C :: C in newW.vals ==> C in newS
    ensures var m1 := L.Columns(m0, constraints, vertices, newS, newW.vals);
            var S1 := Update(w0, newW).keys;
            var zC1 := L.Rebind(zC0, newS, |m0.vars|);
            var r := AddConstr(Drop(m1, pc), PartitionRow(S1, zC1, newK));
            m0.nextConstr in r.constrs && PartitionCovers(r, m0.nextConstr, S1, zC1)
  {
    var m1 := L.Columns(m0, constraints, vertices, newS, newW.vals);
    var w1 := Update(w0, newW);
    var zC1 := L.Rebind(zC0, newS, |m0.vars|);
    ColumnsKeepPartition(m0, w0, zC0, constraints, vertices, pc, k, newS, newW);
    assert forall C :: C in w1.keys ==> C in zC1;
    var r := AddConstr(Drop(m1, pc), PartitionRow(w1.keys, zC1, newK));
    PartitionStepCovers(m1, w1, zC1, constraints, vertices, pc, k, w1.keys, newK, r);
  }

  /** Every community of the merged weight table has a variable once the
      new communities are bound. */
  lemma MergedBound(w0: Dict<Community, real>, newW: Dict<Community, real>, zC0: map<Community, int>,
                    newS: seq<Community>, base: int)
    requires Dicts.Valid(w0) && Dicts.Valid(newW)
    requires forall C :: C in w0.vals ==> C in zC0
    requires forall C :: C in newW.vals ==> C in newS
    ensures forall C :: C in Update(w0, newW).keys ==> C in L.Rebind(zC0, newS, base)
  {
  }

  /** The held row is left as it was, so none of the new columns takes
      part in it: their coefficient there is 0. */
  lemma ColumnsMissHeld(m0: Model<Community>, constraints: map<int, int>, vertices: seq<int>,
                        newS: seq<Community>, newW: map<Community, real>, h: int, k: int)
    requires WellFormed(m0) && Held(m0, constraints, h, k)
    requires forall u :: u in constraints ==> constraints[u] in m0.constrs
    requires forall C :: C in newS ==> C in newW
    ensures forall v :: |m0.vars| <= v < |L.Columns(m0, constraints, vertices, newS, newW).vars| ==>
      RowCoef(L.Columns(m0, constraints, vertices, newS, newW), h, v) == 0.0
  {
    var m := L.Columns(m0, constraints, vertices, newS, newW);
    ColumnsKeepHeld(m0, constraints, vertices, newS, newW, h, k);
    forall v | |m0.vars| <= v < |m.vars| ensures RowCoef(m, h, v) == 0.0 {
      assert v !in m0.constrs[h].expr;
    }
  }

  /** `super().__init__(S, w_C_dict, vertices)`: a fresh LP(S) whose rows
      are all equality rows. */
  method BaseLps(S: seq<Community>, w: Dict<Community, real>, vertices: seq<int>) returns (lps: L.Lps)
    requires Dicts.Valid(w)
    requires forall C :: C in S ==> C in w.vals
    ensures fresh(lps) && lps.Ready() && L.EqRows(lps.model.constrs)
    ensures lps.S == S && lps.wDict == w && lps.vertices == vertices
    ensures forall C :: C in lps.zC <==> C in S
  {
    lps := new L.Lps(S, w, vertices);
  }

  /** The body of `add_partition_constr` on the model: remove the held row
      (on failure the source prints a warning and keeps the handle), then
      add the new row; h is its handle. */
  method ReplaceRow(m0: Model<Community>, pc: Option<int>, S: seq<Community>, zC: map<Community, int>, k: int)
    returns (m: Model<Community>, h: int)
    requires forall C :: C in S ==> C in zC
    ensures m == AddConstr(Drop(m0, pc), PartitionRow(S, zC, k)) && h == m0.nextConstr
  {
    m := m0;
    var held := pc;
    if held.Some? {
      match Remove(m, held.value)
      case Some(r) =>
        m := r;
        held := None;
      case None =>
        // the warning is printed and `held` keeps its value
    }
    h := m.nextConstr;
    m := AddConstr(m, PartitionRow(S, zC, k));
  }

  class LpsWithPartition {
    /** The LPS part of the object. */
    const lps: L.Lps
    var k: int
    /** The handle of the cardinality row, when there is one. */
    var partitionConstr: Option<int>

    ghost predicate Valid()
      reads this, lps
    {
      WithPartition(lps.model, lps.wDict, lps.zC, lps.constraints, lps.vertices, partitionConstr, k)
    }

    /** `LPSWithPartition(S, w_C_dict, vertices, k)`: LP(S) as LPS builds
        it, then the row "sum of z_C over S <= k". `self.S = S` rebinds the
        same list, so S is unchanged. For a duplicate-free S the vertex
        rows and the new row count what they should. */
    constructor (S: seq<Community>, w: Dict<Community, real>, vertices: seq<int>, k: int)
      requires Dicts.Valid(w)
      requires forall C :: C in S ==> C in w.vals
      ensures Valid() && fresh(lps)
      ensures lps.S == S && lps.wDict == w && lps.vertices == vertices && this.k == k
      ensures forall C :: C in lps.zC <==> C in S
      ensures partitionConstr.Some? && lps.model.constrs[partitionConstr.value] == PartitionRow(S, lps.zC, k)
    {
      var base := BaseLps(S, w, vertices);
      lps := base;
      this.k := k;
      partitionConstr := None;
      new;
      NoneHeld(lps.model, lps.wDict, lps.zC, lps.constraints, lps.vertices, k);
      AddPartitionConstr(k);
    }

    /** `add_partition_constr(k)`: k is recorded, the held row is removed
        and the row "sum of z_C over S <= k" is added under the next handle,
        so afterwards it is the only row that is not a vertex's equality
        row. A listed community without a variable would raise KeyError. */
    method AddPartitionConstr(k: int)
      requires Valid()
      requires forall C :: C in lps.S ==> C in lps.zC
      modifies this, lps`model
      ensures unchanged(lps`wDict, lps`S, lps`zC, lps`constraints, lps`vertices, lps`lpsOpt, lps`lpsPrimal, lps`lpsDual)
      ensures this.k == k && partitionConstr == Some(old(lps.model.nextConstr))
      ensures lps.model == AddConstr(Drop(old(lps.model), old(partitionConstr)), PartitionRow(lps.S, lps.zC, k))
      ensures Valid()
    {
      var m, h := ReplaceRow(lps.model, partitionConstr, lps.S, lps.zC, k);
      PartitionStepValid(lps.model, lps.wDict, lps.zC, lps.constraints, lps.vertices, partitionConstr, this.k, lps.S, k, m);
      lps.model := m;
      this.k := k;
      partitionConstr := Some(h);
    }

    /** `self.update_model(new_S, new_w_C_dict)` inside
        `update_columns_and_partition`: LPS.update_model adds the columns,
        and the held row is left as it was. */
    method AddColumns(newS: seq<Community>, newW: Dict<Community, real>)
      requires Valid() && Dicts.Valid(newW)
      requires forall C :: C in newS ==> C in newW.vals && forall u :: u in C ==> u in lps.constraints
      modifies lps
      ensures lps.wDict == Update(old(lps.wDict), newW) && lps.S == lps.wDict.keys
      ensures lps.zC == L.Rebind(old(lps.zC), newS, old(|lps.model.vars|))
      ensures lps.constraints == old(lps.constraints) && lps.vertices == old(lps.vertices)
      ensures lps.model == L.Columns(old(lps.model), lps.constraints, lps.vertices, newS, newW.vals)
      ensures lps.lpsOpt == old(lps.lpsOpt) && lps.lpsPrimal == old(lps.lpsPrimal) && lps.lpsDual == old(lps.lpsDual)
      ensures Valid()
    {
      if partitionConstr.Some? {
        ColumnsKeepHeld(lps.model, lps.constraints, lps.vertices, newS, newW.vals, partitionConstr.value, k);
      }
      lps.UpdateModel(newS, newW);
    }

    /** `update_columns_and_partition` as written: the columns are added by
        `LPS.update_model`, then `self.update_partition_constr(new_k)` raises
        AttributeError, because no class on LPSWithPartition's path defines
        it. The held row keeps the old k and does not count the new
        variables. */
    method UpdateColumnsAndPartitionAsWritten(newS: seq<Community>, newW: Dict<Community, real>, newK: int)
      returns (r: Result<()>)
      requires Valid() && Dicts.Valid(newW)
      requires forall C :: C in newS ==> C in newW.vals && forall u :: u in C ==> u in lps.constraints
      modifies this, lps
      ensures r == Err(AttributeError)
      ensures k == old(k) && partitionConstr == old(partitionConstr)
      ensures lps.wDict == Update(old(lps.wDict), newW) && lps.S == lps.wDict.keys
      ensures lps.zC == L.Rebind(old(lps.zC), newS, old(|lps.model.vars|))
      ensures lps.constraints == old(lps.constraints) && lps.vertices == old(lps.vertices)
      ensures lps.model == L.Columns(old(lps.model), lps.constraints, lps.vertices, newS, newW.vals)
      ensures lps.lpsOpt == old(lps.lpsOpt) && lps.lpsPrimal == old(lps.lpsPrimal) && lps.lpsDual == old(lps.lpsDual)
      ensures Valid()
    {
      AddColumns(newS, newW);
      return Err(AttributeError);
    }

    /** `update_columns_and_partition` as evidently intended: the columns
        are added, then the cardinality row is replaced by one over the new
        S with rhs new_k, so it counts the variable of every community of
        S, the new ones included, and nothing else. Every weighted
        community must have a variable, or `z_C[C]` raises KeyError. */
    method UpdateColumnsAndPartition(newS: seq<Community>, newW: Dict<Community, real>, newK: int)
      requires Valid() && Dicts.Valid(newW)
      requires forall C :: C in newS ==> C in newW.vals && forall u :: u in C ==> u in lps.constraints
      requires forall C :: C in lps.wDict.vals ==> C in lps.zC
      requires forall C :: C in newW.vals ==> C in newS
      modifies this, lps
      ensures k == newK && partitionConstr == Some(old(lps.model.nextConstr))
      ensures lps.wDict == Update(old(lps.wDict), newW) && lps.S == lps.wDict.keys
      ensures lps.zC == L.Rebind(old(lps.zC), newS, old(|lps.model.vars|))
      ensures lps.constraints == old(lps.constraints) && lps.vertices == old(lps.vertices)
      ensures lps.lpsOpt == old(lps.lpsOpt) && lps.lpsPrimal == old(lps.lpsPrimal) && lps.lpsDual == old(lps.lpsDual)
      ensures lps.model == AddConstr(Drop(L.Columns(old(lps.model), lps.constraints, lps.vertices, newS, newW.vals),
                                          old(partitionConstr)), PartitionRow(lps.S, lps.zC, newK))
      ensures Valid()
    {
      MergedBound(lps.wDict, newW, lps.zC, newS, |lps.model.vars|);
      AddColumns(newS, newW);
      AddPartitionConstr(newK);
    }
  }
}
