/** The helpers and the column-generation loop of
    Code/utils/column_generation_util.py. Communities here are tuples, so
    `seq<int>`: a key remembers the order of its vertices. The degree
    arguments are matrices whose diagonal holds the degrees, read with
    numpy's `D[C, C]`.

    The LP and MILP solvers are outside the model: the master LP is an
    oracle of the model built so far, and the AP-QP pricing MILP an oracle
    of the duals. The loop has no bound of its own, so a fuel argument
    caps the number of passes. */
module ColumnGenerationUtil {
  import opened Results
  import opened Sums
  import opened Matrices
  import opened Dicts
  import opened Mip
  import Wc

  /** The data every helper receives: the positive and negative adjacency
      matrices, the positive and negative degree matrices and lambda. */
  datatype Graph = Graph(aPlus: Matrix, aMinus: Matrix, dPlus: Matrix, dMinus: Matrix, lambda: real)

  // ---------------------------------------------------------------------
  // calc_w_c and calc_w_c_dict
  // ---------------------------------------------------------------------

  /** Sum of the diagonal entries d[u][u] over the entries u of C
      (numpy's `d[C, C]`, duplicates counted). */
  function DiagonalSum(d: Matrix, C: seq<int>): real
  {
    SumOf(C, u => Entry(d, u, u))
  }

  /** The diagonal of a matrix, as the degree vector of `wc.py`. */
  function Diag(d: Matrix): (v: Vector)
    ensures |v| == |d|
    ensures forall u :: At(v, u) == Entry(d, u, u)
  {
    seq(|d|, u requires 0 <= u < |d| => Entry(d, u, u))
  }

  /** Vertex u indexes a row and a column of all four matrices. */
  predicate InShape(g: Graph, u: int)
  {
    Indexes(g.aPlus, u) && Indexes(g.aMinus, u) && Indexes(g.dPlus, u) && Indexes(g.dMinus, u)
  }

  /** numpy can index the four matrices with C: C is non-empty (an empty
      tuple becomes a float array, which numpy refuses as an index) and
      every member lies within all four matrices. */
  predicate Weighable(C: seq<int>, g: Graph)
  {
    |C| > 0 && forall u :: u in C ==> InShape(g, u)
  }

  /** `calc_w_c`: the four terms, combined and divided by |C|. It raises
      IndexError for an empty C and for a member outside a matrix. */
  function CalcWc(C: seq<int>, g: Graph): (r: Result<real>)
    ensures r.Ok? <==> |C| > 0 && forall u :: u in C ==> InShape(g, u)
    ensures r.Err? ==> r.error == IndexError
  {
    if !Weighable(C, g) then Err(IndexError)
    else
      var term1 := 2.0 * Wc.BlockSum(g.aPlus, C);
      var term2 := -2.0 * (1.0 - g.lambda) * DiagonalSum(g.dPlus, C);
      var term3 := 2.0 * Wc.BlockSum(g.aMinus, C);
      var term4 := -2.0 * g.lambda * DiagonalSum(g.dMinus, C);
      Ok(Combine(term1, term2, term3, term4, |C|))
  }

  /** `(term1 + term2 - (term3 + term4)) / size_C`. */
  function Combine(term1: real, term2: real, term3: real, term4: real, size: nat): real
    requires size > 0
  {
    (term1 + term2 - (term3 + term4)) / size as real
  }

  /** For a non-empty C, `calc_w_c` is the weight of Code/utils/wc.py with
      the degree vectors read off the diagonals of the degree matrices. */
  lemma CalcWcIsWeight(C: seq<int>, g: Graph)
    requires Weighable(C, g)
    ensures CalcWc(C, g) == Ok(Wc.CalcWC(C, g.aPlus, g.aMinus, Diag(g.dPlus), Diag(g.dMinus), g.lambda))
  {
    var vPlus, vMinus := Diag(g.dPlus), Diag(g.dMinus);
    SumOfExt(C, u => At(vPlus, u), u => Entry(g.dPlus, u, u));
    SumOfExt(C, u => At(vMinus, u), u => Entry(g.dMinus, u, u));
    assert Wc.VecSum(vPlus, C) == DiagonalSum(g.dPlus, C);
    assert Wc.VecSum(vMinus, C) == DiagonalSum(g.dMinus, C);
    var term1 := 2.0 * Wc.BlockSum(g.aPlus, C);
    var term2 := -2.0 * (1.0 - g.lambda) * DiagonalSum(g.dPlus, C);
    var term3 := 2.0 * Wc.BlockSum(g.aMinus, C);
    var term4 := -2.0 * g.lambda * DiagonalSum(g.dMinus, C);
    assert Wc.PlusPart(C, g.aPlus, vPlus, g.lambda) == term1 + term2;
    assert Wc.MinusPart(C, g.aMinus, vMinus, g.lambda) == term3 + term4;
    var N := Wc.Numerator(C, g.aPlus, g.aMinus, vPlus, vMinus, g.lambda);
    assert N == term1 + term2 - (term3 + term4);
    assert CalcWc(C, g).value == Combine(term1, term2, term3, term4, |C|);
    assert Combine(term1, term2, term3, term4, |C|) == N / |C| as real;
    assert Wc.CalcWC(C, g.aPlus, g.aMinus, vPlus, vMinus, g.lambda) == N / |C| as real;
  }

  /** A single vertex with no self-loop weighs
      -2 (1 - lambda) D+[u][u] + 2 lambda D-[u][u]. */
  lemma SingletonWc(u: int, g: Graph)
    requires InShape(g, u)
    requires Entry(g.aPlus, u, u) == 0.0 && Entry(g.aMinus, u, u) == 0.0
    ensures CalcWc([u], g) == Ok(-2.0 * (1.0 - g.lambda) * Entry(g.dPlus, u, u) + 2.0 * g.lambda * Entry(g.dMinus, u, u))
  {
    CalcWcIsWeight([u], g);
    Wc.SingletonWeight(u, g.aPlus, g.aMinus, Diag(g.dPlus), Diag(g.dMinus), g.lambda);
    assert At(Diag(g.dPlus), u) == Entry(g.dPlus, u, u);
    assert At(Diag(g.dMinus), u) == Entry(g.dMinus, u, u);
    var w := -2.0 * (1.0 - g.lambda) * Entry(g.dPlus, u, u) + 2.0 * g.lambda * Entry(g.dMinus, u, u);
    assert CalcWc([u], g).value == w;
  }

  /** The communities of a list of partitions, partition by partition, in
      order. */
  function Flatten(partitions: seq<seq<seq<int>>>): seq<seq<int>>
  {
    if partitions == [] then []
    else Flatten(partitions[..|partitions| - 1]) + partitions[|partitions| - 1]
  }

  /** A community is listed exactly when some partition holds it. */
  lemma {:induction false} FlattenMember(partitions: seq<seq<seq<int>>>, C: seq<int>)
    ensures C in Flatten(partitions) <==> exists i :: 0 <= i < |partitions| && C in partitions[i]
  {
    if partitions != [] {
      var init := partitions[..|partitions| - 1];
      FlattenMember(init, C);
      if exists i :: 0 <= i < |partitions| && C in partitions[i] {
        var i :| 0 <= i < |partitions| && C in partitions[i];
        if i < |init| {
          assert init[i] == partitions[i];
        }
      }
      if exists i :: 0 <= i < |init| && C in init[i] {
        var i :| 0 <= i < |init| && C in init[i];
        assert init[i] == partitions[i];
      }
    }
  }

  /** The dict that assigning `w_c_dict[tuple(C)] = calc_w_c(C)` for each
      community in turn builds, or the error of the first community
      `calc_w_c` refuses. */
  function WeightsOf(cs: seq<seq<int>>, g: Graph): (r: Result<Dict<seq<int>, real>>)
    ensures r.Err? ==> r.error == IndexError
  {
    if cs == [] then Ok(Dict([], map[]))
    else
      match WeightsOf(cs[..|cs| - 1], g)
      case Err(e) => Err(e)
      case Ok(d) =>
        match CalcWc(cs[|cs| - 1], g)
        case Err(e) => Err(e)
        case Ok(w) => Ok(Put(d, cs[|cs| - 1], w))
  }

  /** One more community: its weight is stored under its tuple. */
  lemma WeightsOfStep(cs: seq<seq<int>>, C: seq<int>, g: Graph)
    requires WeightsOf(cs, g).Ok? && CalcWc(C, g).Ok?
    ensures WeightsOf(cs + [C], g) == Ok(Put(WeightsOf(cs, g).value, C, CalcWc(C, g).value))
  {
    assert (cs + [C])[..|cs|] == cs;
  }

  /** The communities of one more partition follow the earlier ones. */
  lemma FlattenStep(partitions: seq<seq<seq<int>>>, i: int)
    requires 0 <= i < |partitions|
    ensures Flatten(partitions[..i + 1]) == Flatten(partitions[..i]) + partitions[i]
  {
    assert partitions[..i + 1][..i] == partitions[..i];
  }

  /** One more community of the current partition has been seen. */
  lemma SeenStep(before: seq<seq<int>>, partition: seq<seq<int>>, j: int)
    requires 0 <= j < |partition|
    ensures before + partition[..j] + [partition[j]] == before + partition[..j + 1]
  {
    assert partition[..j + 1] == partition[..j] + [partition[j]];
  }

  /** `calc_w_c_dict(partitions, ...)`. */
  method CalcWcDict(partitions: seq<seq<seq<int>>>, g: Graph) returns (r: Result<Dict<seq<int>, real>>)
    ensures r == WeightsOf(Flatten(partitions), g)
  {
    var wcDict: Dict<seq<int>, real> := Dict([], map[]);
    ghost var seen: seq<seq<int>> := [];
    for i := 0 to |partitions|
      invariant seen == Flatten(partitions[..i])
      invariant WeightsOf(seen, g) == Ok(wcDict)
    {
      FlattenStep(partitions, i);
      var partition := partitions[i];
      for j := 0 to |partition|
        invariant seen == Flatten(partitions[..i]) + partition[..j]
        invariant WeightsOf(seen, g) == Ok(wcDict)
      {
        var C := partition[j];
        var wC := CalcWc(C, g);
        if wC.Err? {
          FlattenMember(partitions, C);
          WeightsOfFails(Flatten(partitions), g);
          return Err(wC.error);
        }
        WeightsOfStep(seen, C, g);
        SeenStep(Flatten(partitions[..i]), partition, j);
        seen := seen + [C];
        wcDict := Put(wcDict, C, wC.value);
      }
      assert partition[..|partition|] == partition;
    }
    assert partitions[..|partitions|] == partitions;
    return Ok(wcDict);
  }

  /** The dict is built exactly when every community is non-empty and
      within the matrices. */
  lemma {:induction false} WeightsOfFails(cs: seq<seq<int>>, g: Graph)
    ensures WeightsOf(cs, g).Err? <==> exists C :: C in cs && !(|C| > 0 && forall u :: u in C ==> InShape(g, u))
  {
    if cs != [] {
      var init := cs[..|cs| - 1];
      WeightsOfFails(init, g);
      assert cs == init + [cs[|cs| - 1]];
      assert forall C :: C in cs <==> C in init || C == cs[|cs| - 1];
    }
  }

  /** The dict is a well-formed one: its keys are distinct. */
  lemma {:induction false} WeightsOfValid(cs: seq<seq<int>>, g: Graph)
    requires WeightsOf(cs, g).Ok?
    ensures Valid(WeightsOf(cs, g).value)
  {
    if cs != [] {
      WeightsOfValid(cs[..|cs| - 1], g);
    }
  }

  /** The keys are the listed communities, each once; each maps to its own
      `calc_w_c`, so a repeated tuple overwrites its entry with the same
      value. */
  lemma {:induction false} WeightsOfEntries(cs: seq<seq<int>>, g: Graph, C: seq<int>)
    requires WeightsOf(cs, g).Ok?
    ensures C in WeightsOf(cs, g).value.vals <==> C in cs
    ensures C in WeightsOf(cs, g).value.keys <==> C in cs
    ensures C in cs ==> CalcWc(C, g) == Ok(WeightsOf(cs, g).value.vals[C])
  {
    if cs != [] {
      var init := cs[..|cs| - 1];
      WeightsOfEntries(init, g, C);
      assert cs == init + [cs[|cs| - 1]];
      assert C in cs <==> C in init || C == cs[|cs| - 1];
    }
  }

  /** Keys are tuples, so the key is order-sensitive: two orders of the
      same vertices are two entries, while the same tuple twice is one. */
  lemma TupleKeys(a: seq<int>, b: seq<int>, g: Graph)
    requires Weighable(a, g) && Weighable(b, g) && a != b
    ensures WeightsOf([a, b], g).Ok? && WeightsOf([a, b], g).value.keys == [a, b]
    ensures WeightsOf([a, a], g).Ok? && WeightsOf([a, a], g).value.keys == [a]
  {
    var empty: seq<seq<int>> := [];
    assert empty + [a] == [a];
    WeightsOfStep(empty, a, g);
    assert WeightsOf([a], g).value.keys == [a];
    assert [a] + [b] == [a, b];
    WeightsOfStep([a], b, g);
    assert [a] + [a] == [a, a];
    WeightsOfStep([a], a, g);
  }

  /** For instance (0, 1) and (1, 0) hold the same vertices but are two
      keys. */
  lemma SwappedTupleKeys(g: Graph)
    requires InShape(g, 0) && InShape(g, 1)
    ensures WeightsOf([[0, 1], [1, 0]], g).Ok? && |WeightsOf([[0, 1], [1, 0]], g).value.keys| == 2
  {
    var a: seq<int>, b: seq<int> := [0, 1], [1, 0];
    assert a != b by { assert a[0] != b[0]; }
    TupleKeys(a, b, g);
  }

  // ---------------------------------------------------------------------
  // create_lp_s and add_column_to_lp_s
  // ---------------------------------------------------------------------

  /** The master problem as the loop keeps it: the mip model, `z_vars`
      (community to variable) and `constraints` (vertex u to the handle of
      its row; its keys are 0..n-1, so it is a list here). */
  datatype Master = Master(model: Model<seq<int>>, zVars: Dict<seq<int>, int>, constraints: seq<int>)

  /** A master variable: continuous, between 0 and 1, named after its
      community. */
  function LpVar(C: seq<int>): Var<seq<int>>
  {
    Var(C, Continuous, 0.0, Some(1.0))
  }

  /** The variables of `create_lp_s`, one per key, in key order. */
  function VarsOf(keys: seq<seq<int>>): (vs: seq<Var<seq<int>>>)
    ensures |vs| == |keys|
    ensures forall i :: 0 <= i < |keys| ==> vs[i] == LpVar(keys[i])
  {
    seq(|keys|, i requires 0 <= i < |keys| => LpVar(keys[i]))
  }

  /** A column of zeros for each of n variables. */
  function Blank(n: nat): (cols: seq<LinExpr>)
    ensures |cols| == n && forall v :: 0 <= v < n ==> cols[v] == map[]
  {
    seq(n, v => map[])
  }

  /** The dict `{k: <variable i> for the i-th k}` a comprehension builds
      when the i-th listed key gets the i-th variable. */
  function Indexed<K(!new)>(keys: seq<K>): (d: Dict<K, int>)
    ensures forall k :: k in d.vals <==> k in keys
  {
    if keys == [] then Dict([], map[])
    else Put(Indexed(keys[..|keys| - 1]), keys[|keys| - 1], |keys| - 1)
  }

  /** With no repeated key, the dict lists the keys in order and maps the
      i-th to i. */
  lemma {:induction false} IndexedEntries<K(!new)>(keys: seq<K>)
    requires Distinct(keys)
    ensures Indexed(keys).keys == keys
    ensures forall i :: 0 <= i < |keys| ==> Indexed(keys).vals[keys[i]] == i
  {
    if keys != [] {
      var init, last := keys[..|keys| - 1], keys[|keys| - 1];
      IndexedEntries(init);
      assert keys == init + [last];
      IndexedAppend(Indexed(init), init, last);
    }
  }

  /** One step of IndexedEntries: a fresh key put at position |init|. */
  lemma IndexedAppend<K(!new)>(d: Dict<K, int>, init: seq<K>, last: K)
    requires d.keys == init && last !in init
    requires forall i :: 0 <= i < |init| ==> init[i] in d.vals && d.vals[init[i]] == i
    requires forall k :: k in d.vals <==> k in init
    ensures Put(d, last, |init|).keys == init + [last]
    ensures forall i :: 0 <= i < |init| + 1 ==> Put(d, last, |init|).vals[(init + [last])[i]] == i
  {
    forall i | 0 <= i < |init| + 1 ensures Put(d, last, |init|).vals[(init + [last])[i]] == i {
      if i < |init| {
        assert (init + [last])[i] == init[i] != last;
      }
    }
  }

  /** The terms of vertex u's row: `z_vars[C]` for each listed key C
      containing u, in key order. */
  function RowTerms(keys: seq<seq<int>>, z: map<seq<int>, int>, u: int): seq<(int, real)>
    requires forall C :: C in keys ==> C in z
  {
    if keys == [] then []
    else (if u in keys[0] then [(z[keys[0]], 1.0)] else []) + RowTerms(keys[1..], z, u)
  }

  /** The terms of the objective: `w_c_dict[C] * z_vars[C]` for each key. */
  function ObjTerms(keys: seq<seq<int>>, z: map<seq<int>, int>, w: map<seq<int>, real>): seq<(int, real)>
    requires forall C :: C in keys ==> C in z && C in w
  {
    if keys == [] then []
    else [(z[keys[0]], w[keys[0]])] + ObjTerms(keys[1..], z, w)
  }

  /** With the keys' variables at consecutive positions from `base`, row u
      has coefficient 1 on the variable of each key containing u and 0
      everywhere else. */
  lemma {:induction false} RowTermsCoef(keys: seq<seq<int>>, z: map<seq<int>, int>, u: int, base: int, v: int)
    requires forall i :: 0 <= i < |keys| ==> keys[i] in z && z[keys[i]] == base + i
    ensures Coef(XSum(RowTerms(keys, z, u)), v) == if base <= v < base + |keys| && u in keys[v - base] then 1.0 else 0.0
    decreases |keys|
  {
    if keys != [] {
      var rest := RowTerms(keys[1..], z, u);
      RowTermsCoef(keys[1..], z, u, base + 1, v);
      if u in keys[0] {
        assert ([(z[keys[0]], 1.0)] + rest)[1..] == rest;
      } else {
        assert RowTerms(keys, z, u) == rest;
      }
    }
  }

  /** Likewise the objective gives the variable of each key that key's
      weight. */
  lemma {:induction false} ObjTermsCoef(keys: seq<seq<int>>, z: map<seq<int>, int>, w: map<seq<int>, real>, base: int, v: int)
    requires forall i :: 0 <= i < |keys| ==> keys[i] in z && z[keys[i]] == base + i && keys[i] in w
    ensures Coef(XSum(ObjTerms(keys, z, w)), v) == if base <= v < base + |keys| then w[keys[v - base]] else 0.0
    decreases |keys|
  {
    if keys != [] {
      var rest := ObjTerms(keys[1..], z, w);
      ObjTermsCoef(keys[1..], z, w, base + 1, v);
      assert ([(z[keys[0]], w[keys[0]])] + rest)[1..] == rest;
    }
  }

  /** Vertex u's row: the variables of the keys containing u sum to 1. */
  function VertexRow(keys: seq<seq<int>>, z: map<seq<int>, int>, u: int): Constr
    requires forall C :: C in keys ==> C in z
  {
    Constr(XSum(RowTerms(keys, z, u)), Eq, 1.0)
  }

  /** The rows of vertices 0..n-1, row u under handle u. */
  function Rows(keys: seq<seq<int>>, z: map<seq<int>, int>, n: nat): map<int, Constr>
    requires forall C :: C in keys ==> C in z
  {
    if n == 0 then map[] else Rows(keys, z, n - 1)[n - 1 := VertexRow(keys, z, n - 1)]
  }

  /** Handle u belongs to vertex u's row, and to nothing else. */
  lemma {:induction false} RowsHandles(keys: seq<seq<int>>, z: map<seq<int>, int>, n: nat, c: int)
    requires forall C :: C in keys ==> C in z
    ensures c in Rows(keys, z, n) <==> 0 <= c < n
    ensures 0 <= c < n ==> Rows(keys, z, n)[c] == VertexRow(keys, z, c)
  {
    if n > 0 {
      RowsHandles(keys, z, n - 1, c);
    }
  }

  /** The handles `constraints` records: vertex u's row has handle u. */
  function Handles(n: nat): (hs: seq<int>)
    ensures |hs| == n && forall u :: 0 <= u < n ==> hs[u] == u
  {
    seq(n, u => u)
  }

  /** The model `create_lp_s` builds over n vertices from the weight
      dict's keys and values, with `z_vars` = z. */
  function LpS(keys: seq<seq<int>>, z: map<seq<int>, int>, w: map<seq<int>, real>, n: nat): Model<seq<int>>
    requires forall C :: C in keys ==> C in z && C in w
  {
    Model(VarsOf(keys), Blank(|keys|), Rows(keys, z, n), n, XSum(ObjTerms(keys, z, w)), Maximize)
  }

  /** Each key's variable is its position: what `z_vars` holds after
      `create_lp_s`, whose keys come from a dict and so are distinct. */
  ghost predicate Positions(keys: seq<seq<int>>, z: map<seq<int>, int>)
  {
    forall i :: 0 <= i < |keys| ==> keys[i] in z && z[keys[i]] == i
  }

  /** The weight dict's keys have their positions in `Indexed`. */
  lemma IndexedPositions(w: Dict<seq<int>, real>)
    requires Valid(w)
    ensures Positions(w.keys, Indexed(w.keys).vals)
    ensures forall C :: C in w.keys ==> C in Indexed(w.keys).vals && C in w.vals
  {
    IndexedEntries(w.keys);
  }

  /** `create_lp_s(partitions, ...)`: the model, `z_vars` and
      `constraints`, or the error `calc_w_c_dict` raises. The vertex count
      is the number of rows of A+. */
  function CreatedLpS(partitions: seq<seq<seq<int>>>, g: Graph): Result<Master>
  {
    var cs := Flatten(partitions);
    match WeightsOf(cs, g)
    case Err(e) => Err(e)
    case Ok(w) =>
      WeightsOfValid(cs, g);
      IndexedPositions(w);
      Ok(Master(LpS(w.keys, Indexed(w.keys).vals, w.vals, |g.aPlus|), Indexed(w.keys), Handles(|g.aPlus|)))
  }

  /** `create_lp_s`. */
  method CreateLpS(partitions: seq<seq<seq<int>>>, g: Graph) returns (r: Result<Master>)
    ensures r == CreatedLpS(partitions, g)
  {
    var wr := CalcWcDict(partitions, g);
    if wr.Err? {
      return Err(wr.error);
    }
    var w := wr.value;
    WeightsOfValid(Flatten(partitions), g);
    var model, zVars := AddKeyVars(w.keys);
    model := SetObjective(model, XSum(ObjTerms(w.keys, zVars.vals, w.vals)), Maximize);
    var constraints;
    model, constraints := AddVertexRows(model, w.keys, zVars.vals, |g.aPlus|);
    return Ok(Master(model, zVars, constraints));
  }

  /** The dict comprehension of `create_lp_s`: one variable per key. */
  method AddKeyVars(keys: seq<seq<int>>) returns (model: Model<seq<int>>, zVars: Dict<seq<int>, int>)
    ensures model == Model(VarsOf(keys), Blank(|keys|), map[], 0, map[], Maximize)
    ensures zVars == Indexed(keys)
  {
    model := EmptyModel(Maximize);
    zVars := Dict([], map[]);
    for i := 0 to |keys|
      invariant WellFormed(model)
      invariant model == Model(VarsOf(keys[..i]), Blank(i), map[], 0, map[], Maximize)
      invariant zVars == Indexed(keys[..i])
    {
      VarsStep(keys, i);
      zVars := Put(zVars, keys[i], |model.vars|);
      model := AddVar(model, LpVar(keys[i]));
    }
    assert keys[..|keys|] == keys;
  }

  /** The row loop of `create_lp_s`: row u for each vertex u < n, its
      handle recorded under u. */
  method AddVertexRows(model0: Model<seq<int>>, keys: seq<seq<int>>, z: map<seq<int>, int>, n: nat)
    returns (model: Model<seq<int>>, constraints: seq<int>)
    requires forall C :: C in keys ==> C in z
    requires model0.constrs == map[] && model0.nextConstr == 0
    ensures model == model0.(constrs := Rows(keys, z, n), nextConstr := n)
    ensures constraints == Handles(n)
  {
    model := model0;
    constraints := [];
    for u := 0 to n
      invariant model == model0.(constrs := Rows(keys, z, u), nextConstr := u)
      invariant constraints == Handles(u)
    {
      assert Handles(u + 1) == Handles(u) + [u];
      constraints := constraints + [model.nextConstr];
      model := AddConstr(model, VertexRow(keys, z, u));
    }
  }

  /** The variable list and the blank columns grow by one. */
  lemma VarsStep(keys: seq<seq<int>>, i: int)
    requires 0 <= i < |keys|
    ensures VarsOf(keys[..i + 1]) == VarsOf(keys[..i]) + [LpVar(keys[i])]
    ensures Blank(i + 1) == Blank(i) + [map[]]
    ensures keys[..i + 1][..i] == keys[..i] && keys[..i + 1][i] == keys[i]
  {
  }

  /** The variables of `create_lp_s`: one continuous variable in [0, 1]
      per key, in key order, named after the key. */
  lemma LpSVars(keys: seq<seq<int>>, z: map<seq<int>, int>, w: map<seq<int>, real>, n: nat, v: int)
    requires forall C :: C in keys ==> C in z && C in w
    ensures |LpS(keys, z, w, n).vars| == |keys|
    ensures 0 <= v < |keys| ==> LpS(keys, z, w, n).vars[v] == Var(keys[v], Continuous, 0.0, Some(1.0))
  {
  }

  /** The objective: maximise the sum of each key's weight times its
      variable. */
  lemma LpSObjective(keys: seq<seq<int>>, z: map<seq<int>, int>, w: map<seq<int>, real>, n: nat, v: int)
    requires forall C :: C in keys ==> C in z && C in w
    requires Positions(keys, z)
    ensures LpS(keys, z, w, n).objSense == Maximize
    ensures Coef(LpS(keys, z, w, n).objective, v) == if 0 <= v < |keys| then w[keys[v]] else 0.0
  {
    ObjTermsCoef(keys, z, w, 0, v);
    assert LpS(keys, z, w, n).objective == XSum(ObjTerms(keys, z, w));
  }

  /** The rows: one per vertex u < n, under handle u, with right-hand side
      1 and coefficient 1 on the variables of the keys containing u and 0
      on all others. */
  lemma LpSRow(keys: seq<seq<int>>, z: map<seq<int>, int>, w: map<seq<int>, real>, n: nat, u: int, v: int)
    requires forall C :: C in keys ==> C in z && C in w
    requires Positions(keys, z)
    ensures u in LpS(keys, z, w, n).constrs <==> 0 <= u < n
    ensures 0 <= u < n ==> LpS(keys, z, w, n).constrs[u].sense == Eq && LpS(keys, z, w, n).constrs[u].rhs == 1.0
    ensures 0 <= u < n ==> RowCoef(LpS(keys, z, w, n), u, v) == if 0 <= v < |keys| && u in keys[v] then 1.0 else 0.0
  {
    RowsHandles(keys, z, n, u);
    RowTermsCoef(keys, z, u, 0, v);
  }

  /** `z_vars` after `create_lp_s` maps each key to its own variable. */
  lemma CreatedZVars(w: Dict<seq<int>, real>, C: seq<int>)
    requires Valid(w)
    ensures Indexed(w.keys).keys == w.keys
    ensures C in Indexed(w.keys).vals <==> C in w.vals
    ensures C in w.vals ==> 0 <= Indexed(w.keys).vals[C] < |w.keys| && w.keys[Indexed(w.keys).vals[C]] == C
  {
    IndexedEntries(w.keys);
    if C in w.vals {
      var i :| 0 <= i < |w.keys| && w.keys[i] == C;
    }
  }

  /** The column of `add_column_to_lp_s`: the u-th constraint gets
      coefficient 1 when u is in the community and 0 otherwise. */
  function Column(community: seq<int>, constraints: seq<int>): LinExpr
  {
    if constraints == [] then map[]
    else
      var u := |constraints| - 1;
      Column(community, constraints[..u])[constraints[u] := if u in community then 1.0 else 0.0]
  }

  /** The column touches exactly the listed constraints. */
  lemma {:induction false} ColumnKeys(community: seq<int>, constraints: seq<int>)
    ensures forall c :: c in Column(community, constraints) <==> c in constraints
  {
    if constraints != [] {
      var init := constraints[..|constraints| - 1];
      ColumnKeys(community, init);
      assert constraints == init + [constraints[|constraints| - 1]];
    }
  }

  /** The column only touches existing constraints. */
  lemma ColumnWithin(community: seq<int>, constraints: seq<int>, rows: set<int>)
    requires forall u :: 0 <= u < |constraints| ==> constraints[u] in rows
    ensures Column(community, constraints).Keys <= rows
  {
    ColumnKeys(community, constraints);
    forall c | c in Column(community, constraints) ensures c in rows {
      assert c in constraints;
      var u :| 0 <= u < |constraints| && constraints[u] == c;
      assert c in rows;
    }
  }

  /** With one handle per row, row u's coefficient is 1 exactly when u is in
      the community, and 0 otherwise. */
  lemma {:induction false} ColumnCoef(community: seq<int>, constraints: seq<int>, u: int)
    requires 0 <= u < |constraints|
    requires forall a, b :: 0 <= a < b < |constraints| ==> constraints[a] != constraints[b]
    ensures Coef(Column(community, constraints), constraints[u]) == if u in community then 1.0 else 0.0
  {
    var last := |constraints| - 1;
    var init := constraints[..last];
    if u < last {
      assert init[u] == constraints[u];
      ColumnCoef(community, init, u);
    }
  }

  /** `add_column_to_lp_s(model, constraints, w_c, community, z_vars)`: a
      new variable in [0, 1] with objective coefficient w_c and the column
      above, bound to `z_vars[community]`. Model and dict are changed in
      place in Python; here the new master is returned. */
  function AddColumnToLpS(m: Master, wc: real, community: seq<int>): Master
    requires forall u :: 0 <= u < |m.constraints| ==> m.constraints[u] in m.model.constrs
  {
    ColumnWithin(community, m.constraints, m.model.constrs.Keys);
    Master(AddVarWithColumn(m.model, LpVar(community), wc, Column(community, m.constraints)),
           Put(m.zVars, community, |m.model.vars|), m.constraints)
  }

  /** What the new column is: one more variable, continuous in [0, 1] and
      named after the community, last in the list; w_c as its objective
      coefficient; in row u (the u-th handle) coefficient 1 when u is in the
      community and 0 otherwise; every other coefficient and every
      constraint kept. `z_vars[community]` now names the new variable,
      overwriting an earlier binding but keeping that key's place. */
  lemma AddColumnMeaning(m: Master, wc: real, community: seq<int>, u: int)
    requires WellFormed(m.model)
    requires forall u :: 0 <= u < |m.constraints| ==> m.constraints[u] in m.model.constrs
    requires forall a, b :: 0 <= a < b < |m.constraints| ==> m.constraints[a] != m.constraints[b]
    ensures var r := AddColumnToLpS(m, wc, community);
      && WellFormed(r.model)
      && r.model.vars == m.model.vars + [Var(community, Continuous, 0.0, Some(1.0))]
      && r.model.constrs == m.model.constrs && r.constraints == m.constraints
      && Coef(r.model.objective, |m.model.vars|) == wc
      && (forall v :: v != |m.model.vars| ==> Coef(r.model.objective, v) == Coef(m.model.objective, v))
      && (0 <= u < |m.constraints| ==>
            RowCoef(r.model, m.constraints[u], |m.model.vars|) == if u in community then 1.0 else 0.0)
      && (forall c, v :: c in m.model.constrs && v != |m.model.vars| ==> RowCoef(r.model, c, v) == RowCoef(m.model, c, v))
      && r.zVars.vals == m.zVars.vals[community := |m.model.vars|]
      && r.zVars.keys == if community in m.zVars.vals then m.zVars.keys else m.zVars.keys + [community]
  {
    if 0 <= u < |m.constraints| {
      ColumnCoef(community, m.constraints, u);
    }
  }

  // ---------------------------------------------------------------------
  // solve_dual_lp: the dual model
  // ---------------------------------------------------------------------

  /** The unit terms `y_vars[u]` for u in C, in order. */
  function DualTerms(C: seq<int>, y: map<int, int>): seq<(int, real)>
    requires forall k :: 0 <= k < |C| ==> C[k] in y
  {
    if C == [] then [] else [(y[C[0]], 1.0)] + DualTerms(C[1..], y)
  }

  /** Communities whose vertices all have a y variable. */
  predicate Covered(communities: seq<seq<int>>, y: map<int, int>)
  {
    forall C :: C in communities ==> forall u :: u in C ==> u in y
  }

  /** The vertices of the i-th community all have a y variable. */
  lemma CoveredAt(communities: seq<seq<int>>, y: map<int, int>, i: int)
    requires Covered(communities, y)
    requires 0 <= i < |communities|
    ensures forall k :: 0 <= k < |communities[i]| ==> communities[i][k] in y
  {
    var C := communities[i];
    assert C in communities;
    forall k | 0 <= k < |C| ensures C[k] in y {
      var u := C[k];
      assert u in C;
      assert u in y;
    }
  }

  /** One row per community, the i-th under handle i:
      sum of y_u over u in C >= w_C. */
  function DualRows(communities: seq<seq<int>>, y: map<int, int>, w: map<seq<int>, real>): map<int, Constr>
    requires Covered(communities, y)
    requires forall C :: C in communities ==> C in w
  {
    if communities == [] then map[]
    else
      var i := |communities| - 1;
      assert forall C :: C in communities[..i] ==> C in communities;
      CoveredAt(communities, y, i);
      DualRows(communities[..i], y, w)[i := Constr(XSum(DualTerms(communities[i], y)), Ge, w[communities[i]])]
  }

  /** `solve_dual_lp(vertices, all_communities, w_c_dict)` up to the solve:
      one continuous y_u >= 0 per vertex, the objective "minimise the sum
      of y_u", and one row per community. A community with a vertex outside
      `vertices` has no y variable to sum: KeyError. */
  function DualLp(vertices: seq<int>, communities: seq<seq<int>>, w: map<seq<int>, real>): (r: Result<Model<int>>)
    requires forall C :: C in communities ==> C in w
    ensures r.Err? <==> exists C, u :: C in communities && u in C && u !in vertices
    ensures r.Err? ==> r.error == KeyError
  {
    var y := Indexed(vertices).vals;
    if !Covered(communities, y) then Err(KeyError)
    else
      Ok(Model(seq(|vertices|, i requires 0 <= i < |vertices| => Var(vertices[i], Continuous, 0.0, None)),
               Blank(|vertices|), DualRows(communities, y, w), |communities|,
               XSum(DualTerms(vertices, y)), Minimize))
  }

  /** Unit terms on pairwise different variables: a variable has
      coefficient 1 when some term names it and 0 otherwise. */
  lemma {:induction false} DualTermsCoef(C: seq<int>, y: map<int, int>, v: int)
    requires forall k :: 0 <= k < |C| ==> C[k] in y
    requires forall a, b :: 0 <= a < b < |C| ==> y[C[a]] != y[C[b]]
    ensures Coef(XSum(DualTerms(C, y)), v) == if exists k :: 0 <= k < |C| && y[C[k]] == v then 1.0 else 0.0
    decreases |C|
  {
    if C != [] {
      var rest := C[1..];
      assert forall k :: 0 <= k < |rest| ==> rest[k] == C[k + 1];
      DualTermsCoef(rest, y, v);
      assert (exists k :: 0 <= k < |C| && y[C[k]] == v) <==> y[C[0]] == v || exists k :: 0 <= k < |rest| && y[rest[k]] == v by {
        if exists k :: 0 <= k < |C| && y[C[k]] == v {
          var k :| 0 <= k < |C| && y[C[k]] == v;
          if k > 0 {
            assert rest[k - 1] == C[k];
          }
        }
        if exists k :: 0 <= k < |rest| && y[rest[k]] == v {
          var k :| 0 <= k < |rest| && y[rest[k]] == v;
          assert C[k + 1] == rest[k];
        }
      }
    }
  }

  /** The y variables of `vertices`: y_u exists exactly for the listed
      vertices and is the variable at u's position. */
  ghost predicate VertexPositions(vertices: seq<int>, y: map<int, int>)
  {
    && (forall u :: u in y <==> u in vertices)
    && (forall a :: 0 <= a < |vertices| ==> y[vertices[a]] == a)
  }

  /** Vertex k's variable is number k. */
  lemma PositionsAt(vertices: seq<int>, y: map<int, int>)
    requires VertexPositions(vertices, y)
    ensures forall k :: 0 <= k < |vertices| ==> vertices[k] in y && y[vertices[k]] == k
  {
    forall k | 0 <= k < |vertices| ensures vertices[k] in y && y[vertices[k]] == k {
      var u := vertices[k];
      assert u in vertices;
      assert u in y;
      assert y[u] == k;
    }
  }

  /** With duplicate-free vertices, y_u is variable number "position of u". */
  lemma IndexedVertices(vertices: seq<int>)
    requires forall p, q :: 0 <= p < q < |vertices| ==> vertices[p] != vertices[q]
    ensures VertexPositions(vertices, Indexed(vertices).vals)
  {
    DistinctIndices(vertices);
    IndexedEntries(vertices);
  }

  /** The rows are the communities' rows, community i under handle i. */
  lemma {:induction false} DualRowsHandles(communities: seq<seq<int>>, y: map<int, int>, w: map<seq<int>, real>, i: int)
    requires Covered(communities, y)
    requires forall C :: C in communities ==> C in w
    ensures i in DualRows(communities, y, w) <==> 0 <= i < |communities|
    ensures 0 <= i < |communities| ==>
      (CoveredAt(communities, y, i); DualRows(communities, y, w)[i] == Constr(XSum(DualTerms(communities[i], y)), Ge, w[communities[i]]))
    decreases |communities|
  {
    if communities != [] {
      var init := communities[..|communities| - 1];
      assert forall C :: C in init ==> C in communities;
      DualRowsHandles(init, y, w, i);
      if 0 <= i < |communities| {
        CoveredAt(communities, y, i);
      }
      if 0 <= i < |init| {
        assert init[i] == communities[i];
      }
    }
  }

  /** The objective sums every y_u once. */
  lemma DualObjectiveCoef(vertices: seq<int>, y: map<int, int>, v: int)
    requires forall p, q :: 0 <= p < q < |vertices| ==> vertices[p] != vertices[q]
    requires VertexPositions(vertices, y)
    requires 0 <= v < |vertices|
    ensures (PositionsAt(vertices, y); Coef(XSum(DualTerms(vertices, y)), v) == 1.0)
  {
    PositionsAt(vertices, y);
    DualTermsCoef(vertices, y, v);
    assert y[vertices[v]] == v;
  }

  /** A duplicate-free community's row gives y at position v coefficient 1
      exactly when vertex v is in the community. */
  lemma DualRowCoef(vertices: seq<int>, y: map<int, int>, C: seq<int>, v: int)
    requires VertexPositions(vertices, y)
    requires forall u :: u in C ==> u in y
    requires forall p, q :: 0 <= p < q < |C| ==> C[p] != C[q]
    requires 0 <= v < |vertices|
    ensures assert forall k :: 0 <= k < |C| ==> C[k] in C;
      Coef(XSum(DualTerms(C, y)), v) == if vertices[v] in C then 1.0 else 0.0
  {
    assert forall k :: 0 <= k < |C| ==> C[k] in C;
    assert forall k :: 0 <= k < |C| ==> C[k] in y;
    assert forall k :: 0 <= k < |C| ==> C[k] in vertices;
    forall p, q | 0 <= p < q < |C| ensures y[C[p]] != y[C[q]] {
      var a :| 0 <= a < |vertices| && vertices[a] == C[p];
      var b :| 0 <= b < |vertices| && vertices[b] == C[q];
    }
    DualTermsCoef(C, y, v);
    if vertices[v] in C {
      var k :| 0 <= k < |C| && C[k] == vertices[v];
      assert y[C[k]] == v;
    } else {
      forall k | 0 <= k < |C| ensures y[C[k]] != v {
        var a :| 0 <= a < |vertices| && vertices[a] == C[k];
      }
    }
  }

  /** The dual's variables and objective: for duplicate-free vertices,
      variable v is y for vertex v, continuous and at least 0, and the
      objective gives each of them coefficient 1 and is minimised. */
  lemma DualLpObjective(vertices: seq<int>, communities: seq<seq<int>>, w: map<seq<int>, real>, v: int)
    requires forall C :: C in communities ==> C in w
    requires forall p, q :: 0 <= p < q < |vertices| ==> vertices[p] != vertices[q]
    requires DualLp(vertices, communities, w).Ok?
    requires 0 <= v < |vertices|
    ensures var m := DualLp(vertices, communities, w).value;
      && |m.vars| == |vertices| && m.vars[v] == Var(vertices[v], Continuous, 0.0, None)
      && m.objSense == Minimize && Coef(m.objective, v) == 1.0
  {
    var y := Indexed(vertices).vals;
    IndexedVertices(vertices);
    DualObjectiveCoef(vertices, y, v);
    assert DualLp(vertices, communities, w).value.objective == XSum(DualTerms(vertices, y));
  }

  /** The dual's rows: row i belongs to community i and reads "sum of y_u
      over the u in C >= w_C"; for duplicate-free vertices and a
      duplicate-free C it gives y_u coefficient 1 exactly when u is in C. */
  lemma DualLpRow(vertices: seq<int>, communities: seq<seq<int>>, w: map<seq<int>, real>, i: int, v: int)
    requires forall C :: C in communities ==> C in w
    requires forall p, q :: 0 <= p < q < |vertices| ==> vertices[p] != vertices[q]
    requires DualLp(vertices, communities, w).Ok?
    requires 0 <= v < |vertices|
    ensures var m := DualLp(vertices, communities, w).value;
      && (i in m.constrs <==> 0 <= i < |communities|)
      && (0 <= i < |communities| ==> m.constrs[i].sense == Ge && m.constrs[i].rhs == w[communities[i]])
      && (0 <= i < |communities| && (forall p, q :: 0 <= p < q < |communities[i]| ==> communities[i][p] != communities[i][q]) ==>
            RowCoef(m, i, v) == if vertices[v] in communities[i] then 1.0 else 0.0)
  {
    var y := Indexed(vertices).vals;
    IndexedVertices(vertices);
    var m := DualLp(vertices, communities, w).value;
    assert m.constrs == DualRows(communities, y, w);
    DualRowsHandles(communities, y, w, i);
    if 0 <= i < |communities| {
      var C := communities[i];
      assert C in communities;
      if forall p, q :: 0 <= p < q < |C| ==> C[p] != C[q] {
        DualRowCoef(vertices, y, C, v);
        assert m.cols[v] == map[];
      }
    }
  }

  // ---------------------------------------------------------------------
  // The master stays well formed
  // ---------------------------------------------------------------------

  /** xsum over terms on variables below hi mentions only those variables. */
  lemma TermsWithin(ts: seq<(int, real)>, hi: int)
    requires forall t :: t in ts ==> 0 <= t.0 < hi
    ensures forall v :: v in XSum(ts) ==> 0 <= v < hi
  {
    XSumKeys(ts);
  }

  /** Row terms name the keys' variables only. */
  lemma {:induction false} RowTermsWithin(keys: seq<seq<int>>, z: map<seq<int>, int>, u: int, hi: int)
    requires forall C :: C in keys ==> C in z && 0 <= z[C] < hi
    ensures forall t :: t in RowTerms(keys, z, u) ==> 0 <= t.0 < hi
    decreases |keys|
  {
    if keys != [] {
      assert keys[0] in keys;
      assert forall C :: C in keys[1..] ==> C in keys;
      RowTermsWithin(keys[1..], z, u, hi);
    }
  }

  /** Objective terms name the keys' variables only. */
  lemma {:induction false} ObjTermsWithin(keys: seq<seq<int>>, z: map<seq<int>, int>, w: map<seq<int>, real>, hi: int)
    requires forall C :: C in keys ==> C in z && C in w && 0 <= z[C] < hi
    ensures forall t :: t in ObjTerms(keys, z, w) ==> 0 <= t.0 < hi
    decreases |keys|
  {
    if keys != [] {
      assert keys[0] in keys;
      assert forall C :: C in keys[1..] ==> C in keys;
      ObjTermsWithin(keys[1..], z, w, hi);
    }
  }

  /** The model `create_lp_s` builds is well formed: its rows and its
      objective mention its own variables, and its handles are 0..n-1. */
  lemma LpSWellFormed(keys: seq<seq<int>>, z: map<seq<int>, int>, w: map<seq<int>, real>, n: nat)
    requires forall C :: C in keys ==> C in z && C in w
    requires Positions(keys, z)
    ensures WellFormed(LpS(keys, z, w, n))
  {
    var m := LpS(keys, z, w, n);
    forall C | C in keys ensures 0 <= z[C] < |keys| {
      var i :| 0 <= i < |keys| && keys[i] == C;
    }
    ObjTermsWithin(keys, z, w, |keys|);
    TermsWithin(ObjTerms(keys, z, w), |keys|);
    forall c | c in m.constrs ensures 0 <= c < n && forall v :: v in m.constrs[c].expr ==> 0 <= v < |keys| {
      RowsHandles(keys, z, n, c);
      RowTermsWithin(keys, z, c, |keys|);
      TermsWithin(RowTerms(keys, z, c), |keys|);
    }
  }

  /** A master the loop can run on: a well-formed model, the vertex rows'
      handles among its constraints and pairwise different, and `z_vars` a
      dict naming variables of the model. */
  ghost predicate Consistent(m: Master)
  {
    && WellFormed(m.model)
    && (forall u :: 0 <= u < |m.constraints| ==> m.constraints[u] in m.model.constrs)
    && (forall a, b :: 0 <= a < b < |m.constraints| ==> m.constraints[a] != m.constraints[b])
    && Valid(m.zVars)
    && (forall C :: C in m.zVars.vals ==> 0 <= m.zVars.vals[C] < |m.model.vars|)
  }

  /** The model `create_lp_s` builds is well formed and holds the rows
      `constraints` names. */
  lemma CreatedModel(partitions: seq<seq<seq<int>>>, g: Graph)
    requires CreatedLpS(partitions, g).Ok?
    ensures var m := CreatedLpS(partitions, g).value;
      && WellFormed(m.model)
      && forall u :: 0 <= u < |m.constraints| ==> m.constraints[u] in m.model.constrs
  {
    var cs := Flatten(partitions);
    var w := WeightsOf(cs, g).value;
    WeightsOfValid(cs, g);
    IndexedPositions(w);
    var z := Indexed(w.keys).vals;
    var m := CreatedLpS(partitions, g).value;
    assert m.model == LpS(w.keys, z, w.vals, |g.aPlus|);
    assert m.constraints == Handles(|g.aPlus|);
    LpSWellFormed(w.keys, z, w.vals, |g.aPlus|);
    forall u | 0 <= u < |m.constraints| ensures m.constraints[u] in m.model.constrs {
      RowsHandles(w.keys, z, |g.aPlus|, u);
    }
  }

  /** `z_vars` after `create_lp_s` is a dict holding exactly the
      communities of the partitions, each bound to a variable of the
      model. */
  lemma CreatedKeys(partitions: seq<seq<seq<int>>>, g: Graph, C: seq<int>)
    requires CreatedLpS(partitions, g).Ok?
    ensures var m := CreatedLpS(partitions, g).value;
      && Valid(m.zVars)
      && (C in m.zVars.vals <==> C in Flatten(partitions))
      && (C in m.zVars.vals ==> 0 <= m.zVars.vals[C] < |m.model.vars|)
  {
    var cs := Flatten(partitions);
    var w := WeightsOf(cs, g).value;
    WeightsOfValid(cs, g);
    var m := CreatedLpS(partitions, g).value;
    assert m.zVars == Indexed(w.keys);
    assert |m.model.vars| == |w.keys|;
    CreatedZVars(w, C);
    WeightsOfEntries(cs, g, C);
    IndexedEntries(w.keys);
  }

  /** The master `create_lp_s` builds is consistent, and `z_vars` holds
      exactly the communities of the partitions. */
  lemma CreatedConsistent(partitions: seq<seq<seq<int>>>, g: Graph)
    requires CreatedLpS(partitions, g).Ok?
    ensures Tracks(State(partitions, CreatedLpS(partitions, g).value))
  {
    CreatedModel(partitions, g);
    CreatedKeys(partitions, g, []);
    forall C ensures var m := CreatedLpS(partitions, g).value;
      && (C in m.zVars.vals <==> C in Flatten(partitions))
      && (C in m.zVars.vals ==> 0 <= m.zVars.vals[C] < |m.model.vars|)
    {
      CreatedKeys(partitions, g, C);
    }
    assert forall a, b :: 0 <= a < b < |Handles(|g.aPlus|)| ==> Handles(|g.aPlus|)[a] != Handles(|g.aPlus|)[b];
  }

  /** Adding a column keeps the master consistent. */
  lemma AddColumnConsistent(m: Master, wc: real, community: seq<int>)
    requires Consistent(m)
    ensures Consistent(AddColumnToLpS(m, wc, community))
  {
  }

  // ---------------------------------------------------------------------
  // column_generation: the loop
  // ---------------------------------------------------------------------

  /** What `solve_ap_qp_milp` returns that the loop reads: the optimum and
      x_u for each vertex. */
  datatype Priced = Priced(opt: real, x: map<int, real>)

  /** The two solvers: the master LP as built so far, and the AP-QP pricing
      MILP on the duals. */
  datatype Solvers = Solvers(lp: Model<seq<int>> -> Solution, price: map<int, real> -> Priced)

  /** The solvers answer in the shape the loop reads: an LP solution has a
      value per variable and a dual per constraint, and pricing reports x_u
      for every vertex. */
  ghost predicate Answers(o: Solvers, vertices: seq<int>)
  {
    && (forall m :: Fits(o.lp(m), m))
    && (forall d, u :: u in vertices ==> u in o.price(d).x)
  }

  /** What `solve_lp_s` reports: the optimum, z_C for each community of
      `z_vars`, and the dual of vertex u's row for each u. */
  datatype LpReading = LpReading(opt: real, solution: map<seq<int>, real>, duals: map<int, real>)

  /** `solve_lp_s` after the solve: the solution read through `z_vars` and
      `constraints`. */
  function SolveLpS(m: Master, sol: Solution): (r: LpReading)
    requires Consistent(m) && Fits(sol, m.model)
    ensures forall C :: C in r.solution <==> C in m.zVars.keys
    ensures forall u :: u in r.duals <==> 0 <= u < |m.constraints|
  {
    LpReading(sol.objectiveValue,
              map C | C in m.zVars.vals :: sol.x[m.zVars.vals[C]],
              map u | 0 <= u < |m.constraints| :: sol.pi[m.constraints[u]])
  }

  /** `tuple(u for u in vertices if solution_ap_qp[u] > 0.9)`: the vertices
      pricing selects, in vertex order. */
  function Picked(vertices: seq<int>, x: map<int, real>): (C: seq<int>)
    requires forall u :: u in vertices ==> u in x
    ensures forall u :: u in C <==> u in vertices && x[u] > 0.9
    ensures |C| <= |vertices|
  {
    if vertices == [] then []
    else
      var u := vertices[0];
      assert u in vertices;
      assert u in x;
      assert forall u :: u in vertices[1..] ==> u in vertices;
      (if x[u] > 0.9 then [u] else []) + Picked(vertices[1..], x)
  }

  /** Duplicate-free vertices give a duplicate-free community. */
  lemma {:induction false} PickedDistinct(vertices: seq<int>, x: map<int, real>)
    requires forall u :: u in vertices ==> u in x
    requires forall a, b :: 0 <= a < b < |vertices| ==> vertices[a] != vertices[b]
    ensures forall a, b :: 0 <= a < b < |Picked(vertices, x)| ==> Picked(vertices, x)[a] != Picked(vertices, x)[b]
    decreases |vertices|
  {
    if vertices != [] {
      var rest := vertices[1..];
      assert vertices[0] in vertices;
      assert forall u :: u in rest ==> u in vertices;
      PickedDistinct(rest, x);
      var P := Picked(rest, x);
      assert vertices[0] !in P by {
        forall b | 0 <= b < |rest| ensures rest[b] != vertices[0] {
          assert rest[b] == vertices[b + 1];
        }
      }
      var head := if x[vertices[0]] > 0.9 then [vertices[0]] else [];
      var C := head + P;
      forall a, b | 0 <= a < b < |C| ensures C[a] != C[b] {
        if a < |head| {
          assert C[a] == vertices[0];
          assert C[b] == P[b - |head|];
          assert C[b] in P;
          assert C[a] != C[b];
        } else {
          assert C[a] == P[a - |head|] && C[b] == P[b - |head|];
          assert P[a - |head|] != P[b - |head|];
        }
      }
    }
  }

  /** How one pass of the loop ends: pricing found no improving column
      (with what `solve_lp_s` read), a column to add with its weight, or an
      exception. */
  datatype Pass =
    | Stop(reading: LpReading)
    | Next(community: seq<int>, wc: real)
    | Raised(error: PyError)

  /** The loop's state: the partition list S and the master. */
  datatype State = State(S: seq<seq<seq<int>>>, master: Master)

  /** Pricing reads `degree_matrix_positive[u, u]` and
      `degree_matrix_negative[u, u]` for every vertex u. */
  predicate DegreesIndex(g: Graph, u: int)
  {
    Indexes(g.dPlus, u) && Indexes(g.dMinus, u)
  }

  /** One pass of the `while True` body on state st: solve LP(S);
      `calc_w_c_dict(S)` and `solve_dual_lp` on its keys (whose result is
      discarded, but whose lookups can raise); pricing on the duals, whose
      objective reads the degree diagonals (IndexError for a vertex outside
      them) before the lookup `dual_variables[u]` (KeyError for a vertex
      without a row); stop when the pricing optimum is at most 0; otherwise
      the selected community and its weight. */
  function PassOf(st: State, vertices: seq<int>, g: Graph, o: Solvers): Pass
    requires Answers(o, vertices) && Consistent(st.master)
  {
    var reading := SolveLpS(st.master, o.lp(st.master.model));
    match WeightsOf(Flatten(st.S), g)
    case Err(e) => Raised(e)
    case Ok(w) =>
      WeightsOfValid(Flatten(st.S), g);
      if DualLp(vertices, w.keys, w.vals).Err? then Raised(KeyError)
      else if exists u :: u in vertices && !DegreesIndex(g, u) then Raised(IndexError)
      else if exists u :: u in vertices && u !in reading.duals then Raised(KeyError)
      else PricedPass(reading, o.price(reading.duals), vertices, g)
  }

  /** The end of a pass, once pricing has answered: stop with the reading
      when the optimum is at most 0, otherwise the selected community and
      its `calc_w_c`. */
  function PricedPass(reading: LpReading, priced: Priced, vertices: seq<int>, g: Graph): Pass
    requires forall u :: u in vertices ==> u in priced.x
  {
    if priced.opt <= 0.0 then Stop(reading)
    else
      var C := Picked(vertices, priced.x);
      match CalcWc(C, g)
      case Err(e) => Raised(e)
      case Ok(wc) => Next(C, wc)
  }

  /** After pricing, with every vertex within the matrices, the pass
      raises exactly when the optimum is positive and no vertex is above
      0.9. */
  lemma PricedRaises(reading: LpReading, priced: Priced, vertices: seq<int>, g: Graph)
    requires forall u :: u in vertices ==> u in priced.x
    requires forall u :: u in vertices ==> InShape(g, u)
    ensures PricedPass(reading, priced, vertices, g).Raised? <==>
      priced.opt > 0.0 && forall u :: u in vertices ==> priced.x[u] <= 0.9
  {
    if priced.opt > 0.0 {
      PickedEmpty(vertices, priced.x);
    }
  }

  /** A pass stops with the reading of LP(S) when the pricing optimum is
      at most 0. Otherwise the column it adds is non-empty, holds exactly
      the vertices pricing sets above 0.9, and carries its `calc_w_c`. */
  lemma PassMeaning(st: State, vertices: seq<int>, g: Graph, o: Solvers, u: int)
    requires Answers(o, vertices) && Consistent(st.master)
    ensures var reading := SolveLpS(st.master, o.lp(st.master.model));
      var priced := o.price(reading.duals);
      var p := PassOf(st, vertices, g, o);
      && (p.Stop? ==> p.reading == reading && priced.opt <= 0.0)
      && (p.Next? ==> priced.opt > 0.0 && 0 < |p.community| && CalcWc(p.community, g) == Ok(p.wc))
      && (p.Next? ==> (u in p.community <==> u in vertices && priced.x[u] > 0.9))
  {
    var reading := SolveLpS(st.master, o.lp(st.master.model));
    var p := PassOf(st, vertices, g, o);
    if !p.Raised? {
      assert p == PricedPass(reading, o.price(reading.duals), vertices, g);
      PricedMeaning(reading, o.price(reading.duals), vertices, g, u);
    }
  }

  /** PassMeaning for the end of a pass, once pricing has answered. */
  lemma PricedMeaning(reading: LpReading, priced: Priced, vertices: seq<int>, g: Graph, u: int)
    requires forall u :: u in vertices ==> u in priced.x
    ensures var p := PricedPass(reading, priced, vertices, g);
      && (p.Stop? ==> p.reading == reading && priced.opt <= 0.0)
      && (p.Next? ==> priced.opt > 0.0 && 0 < |p.community| && CalcWc(p.community, g) == Ok(p.wc))
      && (p.Next? ==> (u in p.community <==> u in vertices && priced.x[u] > 0.9))
  {
  }

  /** Once the weights of S are computed, a community of S holding a
      vertex outside `vertices` makes the dual LP's lookup raise KeyError. */
  lemma PassStray(st: State, vertices: seq<int>, g: Graph, o: Solvers, C: seq<int>, u: int)
    requires Answers(o, vertices) && Consistent(st.master)
    requires WeightsOf(Flatten(st.S), g).Ok?
    requires C in Flatten(st.S) && u in C && u !in vertices
    ensures PassOf(st, vertices, g, o) == Raised(KeyError)
  {
    StrayDual(st.S, vertices, g);
  }

  /** Once the weights of S are computed, a vertex outside the degree
      matrices makes pricing raise IndexError, unless the dual LP's lookup
      has already raised KeyError. */
  lemma PassOutOfShape(st: State, vertices: seq<int>, g: Graph, o: Solvers, u: int)
    requires Answers(o, vertices) && Consistent(st.master)
    requires WeightsOf(Flatten(st.S), g).Ok?
    requires u in vertices && !DegreesIndex(g, u)
    ensures PassOf(st, vertices, g, o) == Raised(IndexError) || PassOf(st, vertices, g, o) == Raised(KeyError)
    ensures (forall C, v :: C in Flatten(st.S) && v in C ==> v in vertices) ==> PassOf(st, vertices, g, o) == Raised(IndexError)
  {
    StrayDual(st.S, vertices, g);
  }

  /** Once the weights of S are computed, with every vertex within the
      degree matrices, a vertex without a row in the master has no dual:
      KeyError. */
  lemma PassRowless(st: State, vertices: seq<int>, g: Graph, o: Solvers, u: int)
    requires Answers(o, vertices) && Consistent(st.master)
    requires WeightsOf(Flatten(st.S), g).Ok?
    requires forall v :: v in vertices ==> DegreesIndex(g, v)
    requires u in vertices && !(0 <= u < |st.master.constraints|)
    ensures PassOf(st, vertices, g, o) == Raised(KeyError)
  {
    var reading := SolveLpS(st.master, o.lp(st.master.model));
    assert u !in reading.duals;
  }

  /** With the weights of S computed, every vertex of S's communities in
      `vertices`, and every vertex with a row and within the matrices, a
      pass raises exactly when
      pricing improves but selects no vertex: `calc_w_c` on an empty
      community. */
  lemma PassRaises(st: State, vertices: seq<int>, g: Graph, o: Solvers)
    requires Answers(o, vertices) && Consistent(st.master)
    requires WeightsOf(Flatten(st.S), g).Ok?
    requires forall C, u :: C in Flatten(st.S) && u in C ==> u in vertices
    requires forall u :: u in vertices ==> 0 <= u < |st.master.constraints|
    requires forall u :: u in vertices ==> InShape(g, u)
    ensures var priced := o.price(SolveLpS(st.master, o.lp(st.master.model)).duals);
      PassOf(st, vertices, g, o).Raised? <==> priced.opt > 0.0 && forall u :: u in vertices ==> priced.x[u] <= 0.9
  {
    var reading := SolveLpS(st.master, o.lp(st.master.model));
    var priced := o.price(reading.duals);
    var w := WeightsOf(Flatten(st.S), g).value;
    StrayDual(st.S, vertices, g);
    assert DualLp(vertices, w.keys, w.vals).Ok?;
    assert !exists u :: u in vertices && !DegreesIndex(g, u);
    assert forall u :: u in vertices ==> u in reading.duals;
    assert !exists u :: u in vertices && u !in reading.duals;
    assert PassOf(st, vertices, g, o) == PricedPass(reading, priced, vertices, g);
    PricedRaises(reading, priced, vertices, g);
  }

  /** Pricing selects no vertex exactly when none is above 0.9. */
  lemma PickedEmpty(vertices: seq<int>, x: map<int, real>)
    requires forall u :: u in vertices ==> u in x
    ensures Picked(vertices, x) == [] <==> forall u :: u in vertices ==> x[u] <= 0.9
  {
    var C := Picked(vertices, x);
    if C != [] {
      assert C[0] in C;
    } else {
      forall u | u in vertices ensures x[u] <= 0.9 {
        assert u !in C;
      }
    }
  }

  /** The dual LP on the communities of S fails exactly when one of them
      holds a vertex outside `vertices`. */
  lemma StrayDual(S: seq<seq<seq<int>>>, vertices: seq<int>, g: Graph)
    requires WeightsOf(Flatten(S), g).Ok?
    ensures var w := WeightsOf(Flatten(S), g).value;
      (forall C :: C in w.keys ==> C in w.vals) &&
      (DualLp(vertices, w.keys, w.vals).Err? <==> exists C, u :: C in Flatten(S) && u in C && u !in vertices)
  {
    var w := WeightsOf(Flatten(S), g).value;
    WeightsOfValid(Flatten(S), g);
    forall C | true ensures C in w.keys <==> C in Flatten(S) {
      WeightsOfEntries(Flatten(S), g, C);
    }
  }

  /** The state the loop keeps: a consistent master whose `z_vars` holds
      exactly the communities of S. */
  ghost predicate Tracks(st: State)
  {
    && Consistent(st.master)
    && forall C :: C in st.master.zVars.vals <==> C in Flatten(st.S)
  }

  /** The end of a pass that found a column: `add_column_to_lp_s` and
      `S.append([new_community])`. */
  function Advance(st: State, C: seq<int>, wc: real): (r: State)
    requires Consistent(st.master)
    ensures Tracks(st) ==> Tracks(r)
    ensures r.S == st.S + [[C]]
  {
    AddColumnConsistent(st.master, wc, C);
    var S := st.S + [[C]];
    assert S[..|S| - 1] == st.S;
    State(S, AddColumnToLpS(st.master, wc, C))
  }

  /** What `column_generation` returns besides S. */
  datatype Answer = Answer(opt: real, solution: map<seq<int>, real>, zKeys: seq<seq<int>>)

  /** How the passes from a state end, and the state they end in. */
  datatype Loop = Loop(run: Run<Answer>, last: State)

  /** S only gains partitions of a single community at its end. */
  ghost predicate Grown(before: seq<seq<seq<int>>>, after: seq<seq<seq<int>>>)
  {
    && before <= after
    && forall i :: |before| <= i < |after| ==> |after[i]| == 1
  }

  /** One pass as a function of the state, defined on the states the loop
      keeps. */
  ghost function StepOf(vertices: seq<int>, g: Graph, o: Solvers): (step: State --> Pass)
    requires Answers(o, vertices)
    ensures Steps(step)
    ensures forall st :: Tracks(st) ==> step(st) == PassOf(st, vertices, g, o)
  {
    st requires Tracks(st) => PassOf(st, vertices, g, o)
  }

  /** `step` can run from every state the loop keeps. */
  ghost predicate Steps(step: State --> Pass)
  {
    forall st :: Tracks(st) ==> step.requires(st)
  }

  /** The passes from st, at most `fuel` of them. A stopping pass returns
      the LP results of that pass and the keys of `z_vars`. */
  ghost function Iterate(st: State, step: State --> Pass, fuel: nat): Loop
    requires Steps(step) && Tracks(st)
    decreases fuel
  {
    if fuel == 0 then Loop(Unfinished, st)
    else
      match step(st)
      case Stop(reading) => Loop(Finished(Ok(Answer(reading.opt, reading.solution, st.master.zVars.keys))), st)
      case Raised(e) => Loop(Finished(Err(e)), st)
      case Next(C, wc) => Iterate(Advance(st, C, wc), step, fuel - 1)
  }

  /** The loop keeps its state, and S only gains one-community partitions
      at its end, at most one per pass. */
  lemma {:induction false} IterateKeeps(st: State, step: State --> Pass, fuel: nat)
    requires Steps(step) && Tracks(st)
    ensures Tracks(Iterate(st, step, fuel).last)
    ensures Grown(st.S, Iterate(st, step, fuel).last.S)
    ensures |Iterate(st, step, fuel).last.S| <= |st.S| + fuel
    decreases fuel
  {
    if fuel > 0 && step(st).Next? {
      var p := step(st);
      var next := Advance(st, p.community, p.wc);
      var f: nat := fuel - 1;
      IterateNext(st, step, fuel, f);
      IterateKeeps(next, step, f);
      GrownStep(st.S, p.community, Iterate(next, step, f).last.S);
    } else {
      IterateEnd(st, step, fuel);
    }
  }

  /** Advancing keeps the loop's state. */
  lemma AdvanceTracks(st: State, C: seq<int>, wc: real)
    requires Tracks(st)
    ensures Tracks(Advance(st, C, wc))
  {
  }

  /** A pass that finds a column goes on from the advanced state. */
  lemma IterateNext(st: State, step: State --> Pass, fuel: nat, f: nat)
    requires Steps(step) && Tracks(st)
    requires step(st).Next? && fuel == f + 1
    ensures Iterate(st, step, fuel) == Iterate(Advance(st, step(st).community, step(st).wc), step, f)
  {
    var p := step(st);
    AdvanceTracks(st, p.community, p.wc);
    IterateStep(st, step, f, p, Advance(st, p.community, p.wc));
  }

  /** IterateNext with the pass and the state it leads to named. */
  lemma IterateStep(st: State, step: State --> Pass, f: nat, p: Pass, next: State)
    requires Steps(step) && Tracks(st) && Tracks(next)
    requires step(st) == p && p.Next?
    requires next == Advance(st, p.community, p.wc)
    ensures Iterate(st, step, f + 1) == Iterate(next, step, f)
  {
  }

  /** Growing by one partition [C] and then some more is growing. */
  lemma GrownStep(before: seq<seq<seq<int>>>, C: seq<int>, after: seq<seq<seq<int>>>)
    requires Grown(before + [[C]], after)
    ensures Grown(before, after)
  {
    forall i | |before| <= i < |after| ensures |after[i]| == 1 {
      if i == |before| {
        assert after[i] == (before + [[C]])[i];
      }
    }
  }

  /** With no fuel left, or after a pass that stops or raises, the loop
      ends in the state the pass started from. */
  lemma IterateEnd(st: State, step: State --> Pass, fuel: nat)
    requires Steps(step) && Tracks(st)
    requires fuel == 0 || !step(st).Next?
    ensures Iterate(st, step, fuel).last == st
    ensures fuel == 0 ==> Iterate(st, step, fuel).run == Unfinished
    ensures fuel > 0 && step(st).Stop? ==>
      Iterate(st, step, fuel).run == Finished(Ok(Answer(step(st).reading.opt, step(st).reading.solution, st.master.zVars.keys)))
    ensures fuel > 0 && step(st).Raised? ==> Iterate(st, step, fuel).run == Finished(Err(step(st).error))
  {
  }

  /** How the passes end: an answer comes from a stopping pass in the last
      state, an error from a raising pass there, and running out of fuel
      means every pass added a column. */
  lemma {:induction false} IterateEnds(st: State, step: State --> Pass, fuel: nat)
    requires Steps(step) && Tracks(st)
    ensures (IterateKeeps(st, step, fuel);
      var l := Iterate(st, step, fuel);
      && (l.run.Finished? && l.run.result.Ok? ==>
            step(l.last).Stop? &&
            l.run.result.value == Answer(step(l.last).reading.opt, step(l.last).reading.solution, l.last.master.zVars.keys))
      && (l.run.Finished? && l.run.result.Err? ==> step(l.last) == Raised(l.run.result.error))
      && (l.run.Unfinished? ==> |l.last.S| == |st.S| + fuel))
    decreases fuel
  {
    IterateKeeps(st, step, fuel);
    if fuel > 0 && step(st).Next? {
      var p := step(st);
      var next := Advance(st, p.community, p.wc);
      var f: nat := fuel - 1;
      IterateNext(st, step, fuel, f);
      IterateEnds(next, step, f);
    } else {
      IterateEnd(st, step, fuel);
    }
  }

  /** How `column_generation` ends, and the partition list afterwards. */
  datatype Outcome = Outcome(run: Run<Answer>, S: seq<seq<seq<int>>>)

  /** `column_generation(vertices, ..., initial_partitions)` with at most
      `fuel` passes: the error of `create_lp_s`, or the passes from the
      master it builds. */
  ghost function ColumnGenerationOf(vertices: seq<int>, g: Graph, partitions: seq<seq<seq<int>>>, o: Solvers, fuel: nat): Outcome
    requires Answers(o, vertices)
  {
    match CreatedLpS(partitions, g)
    case Err(e) => Outcome(Finished(Err(e)), partitions)
    case Ok(m) =>
      CreatedConsistent(partitions, g);
      var l := Iterate(State(partitions, m), StepOf(vertices, g, o), fuel);
      Outcome(l.run, l.last.S)
  }

  /** What `column_generation` returns: S is the initial partitions
      followed by one-community partitions, one per pass that found a
      column; with a result, `z_vars`' keys are the communities of S, each
      once, and the LP solution holds a value for exactly those. */
  lemma ColumnGenerationMeaning(vertices: seq<int>, g: Graph, partitions: seq<seq<seq<int>>>, o: Solvers, fuel: nat)
    requires Answers(o, vertices)
    ensures var out := ColumnGenerationOf(vertices, g, partitions, o, fuel);
      && Grown(partitions, out.S)
      && |out.S| <= |partitions| + fuel
      && (out.run.Unfinished? ==> |out.S| == |partitions| + fuel)
      && (out.run.Finished? && out.run.result.Ok? ==>
            var a := out.run.result.value;
            && Distinct(a.zKeys)
            && (forall C :: C in a.zKeys <==> C in Flatten(out.S))
            && (forall C :: C in a.solution <==> C in Flatten(out.S)))
  {
    if CreatedLpS(partitions, g).Ok? {
      var m := CreatedLpS(partitions, g).value;
      CreatedConsistent(partitions, g);
      var st := State(partitions, m);
      var step := StepOf(vertices, g, o);
      IterateKeeps(st, step, fuel);
      IterateEnds(st, step, fuel);
      var l := Iterate(st, step, fuel);
      if l.run.Finished? && l.run.result.Ok? {
        PassMeaning(l.last, vertices, g, o, 0);
        assert l.run.result.value.zKeys == l.last.master.zVars.keys;
      }
    }
  }

  /** The Python list `initial_partitions`, which the loop appends to in
      place: `S` is the same object. */
  class PartitionList {
    var items: seq<seq<seq<int>>>
  }

  /** One pass, as the loop body runs it. */
  method RunPass(st: State, vertices: seq<int>, g: Graph, o: Solvers) returns (p: Pass)
    requires Answers(o, vertices) && Consistent(st.master)
    ensures p == PassOf(st, vertices, g, o)
  {
    var reading := SolveLpS(st.master, o.lp(st.master.model));
    var wr := CalcWcDict(st.S, g);
    if wr.Err? {
      return Raised(wr.error);
    }
    var w := wr.value;
    WeightsOfValid(Flatten(st.S), g);
    var dual := DualLp(vertices, w.keys, w.vals);
    if dual.Err? {
      return Raised(KeyError);
    }
    if exists u :: u in vertices && !DegreesIndex(g, u) {
      return Raised(IndexError);
    }
    if exists u :: u in vertices && u !in reading.duals {
      return Raised(KeyError);
    }
    var priced := o.price(reading.duals);
    if priced.opt <= 0.0 {
      return Stop(reading);
    }
    var newCommunity := Picked(vertices, priced.x);
    var wc := CalcWc(newCommunity, g);
    if wc.Err? {
      return Raised(wc.error);
    }
    return Next(newCommunity, wc.value);
  }

  /** `column_generation(...)`: build LP(S) from the initial partitions,
      then pass after pass until pricing finds no improving column, adding
      each selected community to the master and, as a one-community
      partition, to `initial_partitions` itself, which is returned as S.
      At most `fuel` passes are run. */
  method ColumnGeneration(vertices: seq<int>, g: Graph, initialPartitions: PartitionList, o: Solvers, fuel: nat)
    returns (r: Run<Answer>, S: PartitionList)
    requires Answers(o, vertices)
    modifies initialPartitions
    ensures S == initialPartitions
    ensures Outcome(r, initialPartitions.items) == ColumnGenerationOf(vertices, g, old(initialPartitions.items), o, fuel)
  {
    S := initialPartitions;
    var created := CreateLpS(initialPartitions.items, g);
    if created.Err? {
      return Finished(Err(created.error)), S;
    }
    CreatedConsistent(initialPartitions.items, g);
    var master := created.value;
    ghost var step := StepOf(vertices, g, o);
    ghost var goal := Iterate(State(initialPartitions.items, master), step, fuel);
    ghost var left := fuel;
    for k := 0 to fuel
      invariant left == fuel - k
      invariant Tracks(State(initialPartitions.items, master))
      invariant Iterate(State(initialPartitions.items, master), step, left) == goal
    {
      var st := State(initialPartitions.items, master);
      var p := RunPass(st, vertices, g, o);
      assert p == step(st);
      match p
      case Stop(reading) =>
        IterateEnd(st, step, left);
        return Finished(Ok(Answer(reading.opt, reading.solution, master.zVars.keys))), S;
      case Raised(e) =>
        IterateEnd(st, step, left);
        return Finished(Err(e)), S;
      case Next(C, wc) =>
        ghost var f: nat := left - 1;
        IterateNext(st, step, left, f);
        master := AddColumnToLpS(master, wc, C);
        initialPartitions.items := initialPartitions.items + [[C]];
        assert State(initialPartitions.items, master) == Advance(st, C, wc);
        left := f;
    }
    IterateEnd(State(initialPartitions.items, master), step, left);
    return Unfinished, S;
  }
}
