# Column generation for signed-graph community detection

ColumnGenerationForSMD partitions a signed graph into communities. A signed
adjacency matrix A (entries +1, -1 or 0) is split into the positive part A+
and the negative part A-. Their row sums are the degree vectors D+ and D-.
A community C is weighted by

    w_C = ((2 sum A+[C,C] - 2(1-lambda) sum D+[C]) - (2 sum A-[C,C] - 2 lambda sum D-[C])) / |C|

The best partition maximises the total weight of its communities. That is the
set-partitioning LP(S): one variable z_C per community in the pool S, one
equality row per vertex ("every vertex is covered exactly once"), and the
objective sum w_C z_C.

Column generation grows S:

- Solve LP(S) and read the dual price y_u of every vertex row.
- Price a new community with a mixed-integer program. There are several
  variants: AP_MILP with a scale variable s, AP_MILP_2, AP_MILPWithPartition
  with a cardinality row |C| = k, and the quadratic AP_QP. Each one maximises
  the reduced cost w_C - sum_{u in C} y_u.
- Stop when the best reduced cost is at most 10e-6. Otherwise add the priced
  community to S and repeat.

Initial pools come from the singleton, greedy and random partitions.

The model has one Dafny module per source file:

- **Graph construction:** `Graph` and `GraphUtil`.
- **The weight:** `Wc`, `ColumnGenerationUtil.CalcWc` and `Opt.CalcWc`.
- **Partitions:** `Partition` and `PartitionUtil`.
- **The master LP classes:** `Lps` and `LpsWithPartition`. Both are Dafny
  classes that mutate a model value.
- **The pricing classes:** `ApMilp`, `ApMilp2`, `ApMilpWithPartition` and
  `ApQp`.
- **The column-generation controllers:** `ColumnGeneration`,
  `ColumnGenerationWithPartition` and the functional
  `ColumnGenerationUtil.ColumnGeneration`.
- **The exact set-partitioning model:** `Opt`.

Shared modules:

- `Mip` models the subset of the python-mip modelling API the source uses:
  variables, linear expressions, rows, removal and objective.
- `Matrices`, `Sums`, `Triangle` and `Grid` hold the numpy reading, the sums
  and the double-loop shapes.
- `Pricing` and `ProductPricing` hold what the pricing models share.
- `Dicts` models an insertion-ordered Python dict.
- `Results` holds the Result and Run types. A Run is Finished or Unfinished
  when a loop's fuel runs out.

Every solver call is an oracle: a parameter that returns the optimum, the
primal point and the duals. The contracts state what the formulation means
at any point the solver could return. For example:

- the feasible points of each pricing model are exactly the encodings of a
  community;
- the objective there equals the reduced cost of that community;
- the master LP's rows say that each vertex is covered exactly once.

## Model

| member | source | states |
|---|---|---|
| Wc.CalcWC | Code/utils/wc.py:19-35 | for non-empty C, w_C times |C| is the signed numerator 2·A+[C,C] − 2(1−λ)·D+[C] − (2·A−[C,C] − 2λ·D−[C]) |
| Wc.WeightTimesSize | Code/utils/wc.py:35 | w_C·|C| recovers the numerator (the division by size_C is exact) |
| Wc.BlockSumPermutation | Code/utils/wc.py:22-30 | the np.ix_ block sum does not depend on the order of C |
| Wc.WeightPermutation | Code/utils/wc.py:19-35 | w_C depends only on the multiset of C, not on its order |
| Wc.WeightOfSet | Code/tests/test_wc.py:19-21 | two duplicate-free lists with the same members have the same weight, so keying results by frozenset(C) is sound |
| Wc.SingletonWeight | Code/utils/wc.py:19-35 | with a zero diagonal, w_{u} = −2(1−λ)D+[u] + 2λD−[u] |
| Wc.SingletonWeightHalf | Code/tests/test_wc.py:23-36 | at λ = 0.5 a singleton weighs D−[u] − D+[u], which is what the expected singleton table of the test encodes |
| Graph.PositivePart | Code/utils/graph.py:20 | A+ is a 0/1 matrix of A's shape with A+[i][j] = 1 exactly when A[i][j] > 0 |
| Graph.NegativePart | Code/utils/graph.py:21 | A− is a 0/1 matrix of A's shape with A−[i][j] = 1 exactly when A[i][j] < 0 |
| Graph.RowTotals | Code/utils/graph.py:24-25 | one degree per row |
| Graph.SignedEdges | Code/utils/graph.py:29-34 | the edge map has exactly the pairs i < j < n kept by the two tests, with sign +1 exactly when A+[i][j] = 1, otherwise −1 |
| Graph.SignedEdgesUnique | Code/utils/graph.py:29-34 | any map with those keys and signs is the edge map |
| Graph.GenerateSignedGraph | Code/utils/graph.py:16-36 | vertices are 0..n−1; A± are the sign parts; D± their row sums; the edge map as above, built by the double loop |
| Graph.PositiveDegreeCounts | Code/utils/graph.py:24 | D+[i] counts the positive entries of row i |
| Graph.NegativeDegreeCounts | Code/utils/graph.py:25 | D−[i] counts the negative entries of row i |
| Graph.PartsDisjoint | Code/utils/graph.py:20-21 | no entry is in both A+ and A− |
| Graph.PartsAreSignedAdjacency | Code/utils/graph.py:20-21 | a symmetric zero-diagonal A gives symmetric zero-diagonal, 0/1, disjoint A+ and A− |
| Graph.EdgesAreNonZeros | Code/utils/graph.py:29-34 | a pair i < j is an edge exactly when A[i][j] ≠ 0 |
| Graph.EdgeCount | Code/utils/graph.py:29-34 | the number of edges is the number of non-zero upper-triangle entries |
| Graph.PositiveSumIsTwiceEdges | Code/tests/test_graph.py:22 | for symmetric A, sum(A+) is twice the number of positive edges |
| Graph.NegativeSumIsTwiceEdges | Code/tests/test_graph.py:25 | for symmetric A, sum(A−) is twice the number of negative edges |
| Scenario.TestParts | Code/tests/test_graph.py:6-16 | the sign parts of the test matrix |
| Scenario.TestDegrees | Code/tests/test_graph.py:28-31 | D+ = [1, 0, 1] and D− = [1, 2, 1] |
| Scenario.TestEdges | Code/tests/test_graph.py:34-39 | three edges, (0,1) and (1,2) negative, (0,2) positive |
| Scenario.TestSingletonWeights | Code/utils/wc.py:19-35 | on the test graph at λ = 0.5 the singletons weigh 0, 2 and 0 |
| Scenario.TestWholeWeight | Code/utils/wc.py:19-35 | on the test graph at λ = 0.5 the whole vertex set weighs −2/3 |
| GraphUtil.GenerateEdges | Code/utils/graph_util.py:29-37 | (u, v) is listed exactly when u < v < n and A+[u][v] > 0 or A−[u][v] > 0; the list is strictly increasing in row-major order and has at most n(n−1)/2 entries |
| GraphUtil.EdgesUpperAndDistinct | Code/utils/graph_util.py:29-37 | every listed pair has u < v and no pair is listed twice |
| Matrices.Members | Code/utils/column_generation.py:62 | u is in the community read off x exactly when u < n and x[u] = 1.0 |
| Matrices.MembersSorted | Code/utils/column_generation.py:62 | that community lists its vertices in increasing order, without repeats |
| Matrices.MembersCount | Code/utils/ap_milp.py:38-41 | for a 0/1 vector, the sum of x_u is the size of the community |
| Matrices.NoMembers | Code/utils/ap_milp.py:38-41 | an x with no entry equal to 1.0 selects no vertex |
| Triangle.PairsMember | Code/utils/graph_util.py:31-36 | the double loop over u < v keeps exactly the pairs the test keeps |
| Triangle.PairsIncreasing | Code/utils/graph_util.py:31-36 | the pairs come out in strictly increasing row-major order |
| Triangle.PairsBound | Code/utils/graph_util.py:31-36 | at most n(n−1)/2 pairs |
| Triangle.PairsSum | Code/utils/graph.py:29-34 | summing over the kept pairs is the upper-triangle sum of the kept terms |
| Triangle.IncreasingCardinality | Code/utils/graph.py:29-34 | a strictly increasing edge list has as many entries as the set of its pairs |
| Grid.GridMember | Code/utils/ap_qp.py:19-20 | the double loop over all u, v < n lists exactly the pairs the test keeps |
| Grid.GridSum | Code/utils/ap_qp.py:31-34 | summing over the listed pairs is the full double sum of the kept terms |
| Grid.GridProductSum | Code/utils/ap_qp.py:36 | a double sum of terms a(u)·b(v) over all pairs factors into (Σ a)·(Σ b) |
| Partition.GenerateSingleton | Code/utils/partition.py:1-2 | one block of exactly one vertex per vertex |
| Partition.SingletonFlatten | Code/utils/partition_util.py:30-31 | flattening the singleton partition gives the vertex list back |
| Partition.GeneratePartition | Code/utils/partition.py:4-22 | ValueError when k > n; [] for no vertices; ZeroDivisionError for k = 0 and IndexError for k < 0 on a non-empty list; otherwise the first k vertices open blocks and every later vertex joins block 0 |
| Partition.PlaceVertex | Code/utils/partition.py:16-20 | one loop step: open a block while cnt < k, otherwise append to block cnt mod k |
| Partition.BlockCount | Code/utils/partition.py:13-20 | for 1 ≤ k ≤ n the run succeeds with exactly k blocks |
| Partition.ValueErrorIff | Code/utils/partition.py:9-11 | the result is ValueError exactly when k > n |
| Partition.FirstBlockCollectsPermutes | Code/utils/partition.py:13-20 | the blocks together hold every vertex exactly once |
| PartitionUtil.GenerateRandomPartition | Code/utils/partition_util.py:3-14 | ValueError when p > n; otherwise vertex i of the shuffled order goes to block i mod p (ZeroDivisionError or IndexError when p ≤ 0 and there are vertices) |
| PartitionUtil.RandomValueErrorIff | Code/utils/partition_util.py:4-5 | ValueError exactly when there are more blocks than vertices |
| PartitionUtil.StridesSnoc | Code/utils/partition_util.py:11-12 | appending the next shuffled vertex appends it to block i mod p and leaves the others unchanged |
| PartitionUtil.StridesPermute | Code/utils/partition_util.py:10-12 | the blocks together hold exactly the shuffled vertices |
| PartitionUtil.StrideMember | Code/utils/partition_util.py:11-12 | block j holds exactly the s[i] with i mod p = j |
| PartitionUtil.StrideSize | Code/utils/partition_util.py:10-12 | block j has n div p vertices, plus one when j < n mod p |
| PartitionUtil.RandomPartitionBalanced | Code/utils/partition_util.py:10-12 | of two blocks, the earlier one is non-empty and has the same size as the later one or one more |
| PartitionUtil.RandomPartitionNonEmpty | Code/utils/partition_util.py:10-12 | every block of a successful random partition is non-empty, the last block and the single block of p = 1 included |
| PartitionUtil.RandomPartitionIsPartition | Code/utils/partition_util.py:7-12 | a successful deal has p blocks (none when p ≤ 0) that together hold every vertex exactly once |
| PartitionUtil.SortInts | Code/utils/partition_util.py:22 | sorted(community) is sorted and a permutation of the block |
| PartitionUtil.SortForgetsOrder | Code/utils/partition_util.py:22 | two orderings of the same block sort to the same tuple |
| PartitionUtil.Canonical | Code/utils/partition_util.py:22 | each block of the canonical tuple is sorted and holds the same vertices as the original block |
| PartitionUtil.CanonicalIff | Code/utils/partition_util.py:22 | two partitions have the same canonical tuple exactly when they agree block by block up to order within blocks |
| PartitionUtil.CanonicalOfDeal | Code/utils/partition_util.py:20-22 | the canonical form of a deal is a sorted partition of the vertices into p blocks |
| PartitionUtil.GenerateUniquePartitions | Code/utils/partition_util.py:16-28 | an error can only be the first deal's error; on success there are max(0, num_samples) distinct canonical partitions, and for some k the result is exactly the canonical forms of the first k deals, all of which succeeded |
| PartitionUtil.ListOfSet | Code/utils/partition_util.py:26 | list(...) holds each element of the set exactly once |
| Pricing.ClassifyEdges | Code/utils/ap_milp.py:17-25 | E+ and E− are the upper-triangle pairs with A+ = 1, and with A+ ≠ 1 and A− = 1, in loop order |
| Pricing.EdgeClasses | Code/utils/ap_milp.py:17-25 | membership in E+ and E−, both strictly increasing, and disjoint |
| Pricing.MinusKeepSigned | Code/utils/ap_milp.py:22-25 | on a signed adjacency, E− is exactly the pairs with A− = 1 |
| Pricing.ProductForced | Code/utils/ap_milp_2.py:32-35 | for 0/1 values, z ≤ x_u, z ≤ x_v, z ≥ x_u + x_v − 1 hold exactly when z = x_u·x_v |
| Pricing.ZForced | Code/utils/ap_milp_2.py:32-35 | every feasible point has z_uv = x_u·x_v on each modelled pair |
| Pricing.ProductPoint | Code/utils/ap_milp_2.py:28-29 | the point with z_uv = x_u·x_v on every pair |
| Pricing.ProductPointFeasible | Code/utils/ap_milp_2.py:28-35 | that point satisfies every product row |
| Pricing.EdgesHalfBlock | Code/utils/ap_milp.py:50-55 | summing x_u·x_v over the upper-triangle edges is half the block sum over the community |
| Pricing.EdgeObjectiveIsNumerator | Code/utils/ap_milp_2.py:38-43 | at a 0/1 point the edge objective equals the w_C numerator of the selected community |
| ProductPricing.ProductRowsIff | Code/utils/ap_milp_2.py:28-35 | the product rows are feasible exactly when x is 0/1 and every z is the product |
| ProductPricing.GridProductRows | Code/utils/ap_qp.py:23-27 | the double loop emits the three product rows for every ordered pair |
| ProductPricing.PairIsProduct | Code/utils/ap_qp.py:23-27 | a feasible point has z_uv = x_u·x_v for all pairs |
| ProductPricing.ZBaseAtProducts | Code/utils/ap_milp_with_partition.py:59-64 | with E− summed once, the z-form base term equals the w_C numerator of the selected community |
| ProductPricing.ZeroPoint | Code/utils/ap_milp_2.py:28-35 | the all-zero point is a product point selecting nobody |
| ProductPricing.ZeroBase | Code/utils/ap_milp_2.py:38-43 | the base term is 0 at the all-zero point |
| ProductPricing.ReportOf | Code/utils/ap_milp_2.py:64-68 | the report has x for every vertex and z for exactly the modelled pairs, read from the point |
| ProductPricing.ReportedProducts | Code/utils/ap_milp_2.py:64-68 | a reported z_uv is 1 exactly when both ends are in the community |
| ApMilp.RowsMember | Code/utils/ap_milp.py:36-47 | the rows are the three per-vertex rows, the total row and the four per-edge rows (w ≤ α_u, w ≤ α_v and the two floors), and nothing else |
| ApMilp.AlphaForced | Code/utils/ap_milp.py:36-39 | feasibility forces α_u = s·x_u |
| ApMilp.TotalHolds | Code/utils/ap_milp.py:41 | feasibility forces Σ α_u = 1 |
| ApMilp.WForced | Code/utils/ap_milp.py:43-47 | feasibility forces w_uv = s·x_u·x_v on every edge |
| ApMilp.FeasibleShape | Code/utils/ap_milp.py:28-47 | a feasible point has the lifted shape |
| ApMilp.ShapeFeasible | Code/utils/ap_milp.py:28-47 | every lifted shape is feasible |
| ApMilp.ShapeScale | Code/utils/ap_milp.py:38-41 | in the lifted shape s·|C| = 1 |
| ApMilp.ScaleForced | Code/utils/ap_milp.py:38-41 | a feasible point has a non-empty community and s = 1/|C| |
| ApMilp.Lift | Code/utils/ap_milp.py:28-47 | the point built from a 0/1 x: s = 1/|C|, α = s·x, w = s·x_u·x_v |
| ApMilp.LiftFeasible | Code/utils/ap_milp.py:28-47 | every non-empty 0/1 x lifts to a feasible point |
| ApMilp.LiftUnique | Code/utils/ap_milp.py:28-47 | a feasible point is the lift of its own x |
| ApMilp.BaseAtShape | Code/utils/ap_milp.py:50-55 | at a lifted point the base term is w_C of the selected community |
| ApMilp.DualAtBinary | Code/utils/ap_milp.py:62 | at a 0/1 x the dual term is −Σ_{u∈C} y_u |
| ApMilp.ObjectiveAtFeasible | Code/utils/ap_milp.py:50-62 | at every feasible point the objective is w_C − Σ_{u∈C} y_u, the reduced cost of the selected community |
| ApMilp.ApMilp.constructor | Code/utils/ap_milp.py:4-55 | records the graph, classifies E+ and E−, and builds exactly the rows of RowsMember; no objective yet |
| ApMilp.ApMilp.AddLpsDualSol | Code/utils/ap_milp.py:57-65 | the objective becomes the base term minus Σ y_u x_u, and earlier duals leave no trace |
| ApMilp.ApMilp.SolveApMilp | Code/utils/ap_milp.py:67-84 | stores and returns the optimum and reports x_u, α_u, s and w_uv of the solver's point for every vertex and edge |
| ApMilp.ReportMeaning | Code/utils/ap_milp.py:76-82 | at a feasible point each reported w_uv is s exactly when both ends are in the community, otherwise 0 |
| ApMilp2.FeasibleIff | Code/utils/ap_milp_2.py:28-35 | feasible exactly when x is 0/1 and z_uv = x_u·x_v on every edge |
| ApMilp2.ObjectiveAtFeasible | Code/utils/ap_milp_2.py:38-53 | at a feasible point the objective is the w_C numerator of the selected community minus (number of edges inside it)·Σ_u y_u, since the dual term multiplies every y_u by every z_e |
| ApMilp2.DualAtProducts | Code/utils/ap_milp_2.py:50 | at product z the dual term is −(number of edges inside the community)·Σ over all vertices of y_u |
| ApMilp2.DualTermFactors | Code/utils/ap_milp_2.py:50 | the double sum over u and e factors into −(Σ_e z_e)·(Σ_u y_u) |
| ApMilp2.ZeroFeasible | Code/utils/ap_milp_2.py:28-35 | the all-zero point is feasible and its objective is 0 |
| ApMilp2.ApMilp.constructor | Code/utils/ap_milp_2.py:4-43 | records the graph, classifies E±, and the rows are exactly the product rows over E+ ++ E− |
| ApMilp2.ApMilp.AddLpsDualSol | Code/utils/ap_milp_2.py:45-53 | the objective becomes the base term minus Σ_u Σ_e y_u z_e; earlier duals leave no trace |
| ApMilp2.ApMilp.SolveApMilp | Code/utils/ap_milp_2.py:55-70 | stores and returns the optimum and the x and z report of the solver's point |
| ApMilp2.ReportMeaning | Code/utils/ap_milp_2.py:64-68 | at a feasible point the reported z_uv is 1 exactly when both ends are selected |
| ApMilpWithPartition.CardinalityIsSize | Code/utils/ap_milp_with_partition.py:53-56 | the cardinality row Σ x_u = k holds exactly when the community has k vertices |
| ApMilpWithPartition.FeasibleIff | Code/utils/ap_milp_with_partition.py:43-56 | feasible exactly when x is 0/1, every z_uv is x_u·x_v over all pairs, and the community has k vertices |
| ApMilpWithPartition.DiagonalIsX | Code/utils/ap_milp_with_partition.py:48-52 | feasibility forces z_uu = x_u |
| ApMilpWithPartition.AsWrittenGap | Code/utils/ap_milp_with_partition.py:62 | the as-written base term is the intended one minus 4(n−1)·Σ_{E−} z, because the E− sum is repeated once per vertex |
| ApMilpWithPartition.AsWrittenCounterexample | Code/utils/ap_milp_with_partition.py:62 | on two vertices joined by one negative edge, λ = 0.5, community {0, 1}: the as-written base term is −6 where the intended one is −2 |
| ApMilpWithPartition.DualAtProducts | Code/utils/ap_milp_with_partition.py:72 | at product z the all-pairs dual term is −|C|·Σ_{u∈C} y_u |
| ApMilpWithPartition.ObjectiveAtFeasible | Code/utils/ap_milp_with_partition.py:59-78 | at a feasible point the community has k vertices and the corrected objective is its w_C numerator minus k·Σ_{u∈C} y_u, that is k times its reduced cost |
| ApMilpWithPartition.ApMilpWithPartition.constructor | Code/utils/ap_milp_with_partition.py:4-64 | records the graph, classifies E±, and builds the product rows over all pairs followed by the cardinality row with k = 1 |
| ApMilpWithPartition.ApMilpWithPartition.UpdatePartitionConstr | Code/utils/ap_milp_with_partition.py:123-131 | k is recorded and the last row, the cardinality row, becomes Σ x_u = new k; every other row stays |
| ApMilpWithPartition.ApMilpWithPartition.AddLpsDualSol | Code/utils/ap_milp_with_partition.py:66-78 | the objective becomes the base term minus Σ_u Σ_v y_v z_uv; earlier duals leave no trace |
| ApMilpWithPartition.ApMilpWithPartition.SolveModel | Code/utils/ap_milp_with_partition.py:80-95 | stores and returns the optimum and the x and z report of the solver's point |
| ApMilpWithPartition.ReportMeaning | Code/utils/ap_milp_with_partition.py:90-93 | at a feasible point the reported z_uv is 1 exactly when both ends are selected |
| ApQp.EdgeTermIsBlock | Code/utils/ap_qp.py:32-34 | at product z, Σ of z_uv over the pairs with A[u][v] > 0 is the block sum of A over the community |
| ApQp.BaseAtProducts | Code/utils/ap_qp.py:31-35 | at product z the base term is the w_C numerator plus 2·A+[C,C] − 2·A−[C,C], because the edge terms run over ordered pairs |
| ApQp.DualAtProducts | Code/utils/ap_qp.py:36 | at product z the dual term is −|C|·Σ_{u∈C} y_u |
| ApQp.FeasibleIff | Code/utils/ap_qp.py:19-27 | feasible exactly when x is 0/1 and z_uv = x_u·x_v for all pairs |
| ApQp.ZeroFeasible | Code/utils/ap_qp.py:19-37 | the all-zero point is feasible with objective 0 |
| ApQp.ObjectiveAtFeasible | Code/utils/ap_qp.py:31-37 | at a feasible point the objective is the numerator plus 2·A+[C,C] − 2·A−[C,C] minus |C|·Σ_{u∈C} y_u |
| ApQp.ApQp.constructor | Code/utils/ap_qp.py:4-37 | records the graph and the duals, which fix the objective at construction; the rows are the product rows over every ordered pair |
| ApQp.ApQp.SolveApMilp | Code/utils/ap_qp.py:39-54 | stores and returns the optimum and the x and z report of the solver's point |
| ApQp.ReportMeaning | Code/utils/ap_qp.py:49-52 | at a feasible point the reported z_uv is 1 exactly when both ends are selected |
| Dicts.Update | Code/utils/lps.py:61 | dict.update: old keys keep their place, exactly the keys new to d are appended, and every value of the update wins |
| Dicts.UpdateOrder | Code/utils/lps.py:61 | the keys dict.update appends keep the order they have in the update |
| Lps.InitialVars | Code/utils/lps.py:20 | one continuous variable with lower bound 0 and no upper bound per listed community, named by it |
| Lps.LastIndexIsLast | Code/utils/lps.py:20 | a community listed twice is bound to its last variable, as a dict comprehension does |
| Lps.AddCommunityVars | Code/utils/lps.py:20 | the comprehension's loop adds exactly those variables |
| Lps.AddVertexRows | Code/utils/lps.py:23-27 | one "= 1" row per vertex, whose coefficient on z_C is 1 exactly when u ∈ C |
| Lps.BuildMaster | Code/utils/lps.py:13-30 | the constructed model is variables, vertex rows and the maximised objective Σ w_C z_C |
| Lps.InitialMeaning | Code/utils/lps.py:20-30 | each vertex row covers exactly the communities containing that vertex, and each objective coefficient is w_C |
| Lps.InitialRowsCover | Code/utils/lps.py:23-30 | the rows ask that every vertex is covered exactly once |
| Lps.AddColumn | Code/utils/lps.py:64-79 | a new variable with objective w_C and a 1 in the row of each member vertex |
| Lps.Columns | Code/utils/lps.py:64-79 | the model after adding the columns of new_S in order |
| Lps.ColumnsRowCoef | Code/utils/lps.py:66-69 | each new variable has coefficient 1 in the rows of exactly its community's vertices |
| Lps.ColumnsKeepObjCoef | Code/utils/lps.py:64-79 | existing variables keep their objective coefficients |
| Lps.ColumnsNewObjCoef | Code/utils/lps.py:75 | each new variable has the new weight as its objective coefficient |
| Lps.Rebind | Code/utils/lps.py:79 | z_C maps each new community to its new variable, and other bindings stay |
| Lps.AddColumns | Code/utils/lps.py:64-79 | the loop builds exactly Columns and Rebind |
| Lps.ColumnsCover | Code/utils/lps.py:24-27 | after adding columns every vertex row still covers exactly the variables whose community holds it |
| Lps.ColumnsKeepBookkeeping | Code/utils/lps.py:53-79 | the master invariant (rows, bindings, weights) survives update_model |
| Lps.Lps.constructor | Code/utils/lps.py:4-30 | the object holds the built master model, S, the weights, the vertices, z_C and the row table |
| Lps.Lps.UpdateModel | Code/utils/lps.py:53-79 | weights are merged, S becomes all weight keys, the columns are added, z_C is rebound, and the stored solver results stay as they were |
| Lps.Lps.SolveModel | Code/utils/lps.py:32-51 | returns and stores the optimum, z_C's value for each community of S, and each vertex row's dual |
| LpsWithPartition.PartitionRow | Code/utils/lps_with_partition.py:38-41 | the "Σ z_C ≤ k" row over S |
| LpsWithPartition.PartitionRowCoef | Code/utils/lps_with_partition.py:39 | its coefficient on a variable is 1 exactly when that variable is some listed community's z_C |
| LpsWithPartition.Drop | Code/utils/lps_with_partition.py:28-31 | removing the held row, or nothing when none is held |
| LpsWithPartition.DropKeeps | Code/utils/lps_with_partition.py:28-31 | removal keeps every other row and every variable |
| LpsWithPartition.AddRowKeeps | Code/utils/lps_with_partition.py:38-41 | adding the row keeps every other row |
| LpsWithPartition.PartitionStepRows | Code/utils/lps_with_partition.py:21-41 | afterwards the rows are the vertex rows plus exactly one cardinality row |
| LpsWithPartition.PartitionStepCovers | Code/utils/lps_with_partition.py:21-41 | the vertex rows still cover exactly once after the row is replaced |
| LpsWithPartition.ColumnsKeepPartition | Code/utils/lps_with_partition.py:51 | adding columns leaves the held cardinality row as it was |
| LpsWithPartition.ColumnsMissHeld | Code/utils/lps_with_partition.py:51-52 | the new variables have coefficient 0 in the old cardinality row |
| LpsWithPartition.RebuildCovers | Code/utils/lps_with_partition.py:21-41 | the rebuilt row counts every listed community, new ones included |
| LpsWithPartition.ReplaceRow | Code/utils/lps_with_partition.py:27-41 | drop then add, returning the new handle |
| LpsWithPartition.LpsWithPartition.constructor | Code/utils/lps_with_partition.py:5-19 | the master model of LPS plus one cardinality row with rhs k, whose handle is held |
| LpsWithPartition.LpsWithPartition.AddPartitionConstr | Code/utils/lps_with_partition.py:21-41 | k is recorded; the held row is removed and Σ_{C∈S} z_C ≤ k is added under the next handle |
| LpsWithPartition.LpsWithPartition.AddColumns | Code/utils/lps_with_partition.py:51 | super().update_model adds the columns, weights, S and z_C as LPS does; lps_opt and its solutions are unchanged, and the held row still satisfies the invariant |
| LpsWithPartition.LpsWithPartition.UpdateColumnsAndPartitionAsWritten | Code/utils/lps_with_partition.py:43-52 | the columns, weights, S and z_C are updated as update_model does, then AttributeError; k and the held row are unchanged |
| LpsWithPartition.LpsWithPartition.UpdateColumnsAndPartition | Code/utils/lps_with_partition.py:43-52 | as intended: the columns are added, then the cardinality row is rebuilt over the new S with rhs new_k |
| ColumnGeneration.Added | Code/utils/column_generation.py:44-68 | after i non-stopping passes the pool holds exactly i added columns |
| ColumnGeneration.PassStep | Code/utils/column_generation.py:46-68 | one pass records the master optimum, stops exactly when pricing is at most 10e-6, and otherwise appends the priced column |
| ColumnGeneration.ColumnGeneration | Code/utils/column_generation.py:36-70 | returns at the first stopping pass with cg_opt and cg_sol from that pass, one lps_opt per pass, and cnt the number of added columns; or runs out of fuel when no pass below it stops |
| ColumnGeneration.AddedPrefix | Code/utils/column_generation.py:65 | later passes never change earlier columns |
| ColumnGeneration.AddedColumn | Code/utils/column_generation.py:62 | column j holds exactly the vertices whose pricing x is 1.0 in pass j |
| ColumnGeneration.ColumnIsMembers | Code/utils/column_generation.py:62 | the frozenset read off x is the community of the x = 1 vertices |
| ColumnGeneration.RepeatsKept | Code/utils/column_generation.py:62-65 | a repeated community is added again, not deduplicated |
| ColumnGeneration.ReturnUnique | Code/utils/column_generation.py:44-70 | the returned tuple is determined by the solvers |
| ColumnGeneration.ReportedColumn | Code/utils/column_generation.py:62 | reading the column off the report gives the same community as reading it off the point |
| ColumnGeneration.CallByKeyword | Code/utils/lps.py:4 | a keyword call succeeds exactly when the keywords are the parameters, otherwise TypeError |
| ColumnGeneration.AsWrittenRaises | Code/utils/column_generation.py:26-34 | the LPS call as written raises TypeError |
| ColumnGeneration.UpdateModelRaises | Code/utils/column_generation.py:65 | the one-argument update_model call as written raises TypeError, since update_model takes two (lps.py:52) |
| ColumnGenerationWithPartition.Sweep | Code/utils/column_generation_with_partition.py:48-55 | for k = 2..n, the cardinality row is set to k, pricing runs, and the column is recorded when its optimum exceeds 10e-6 |
| ColumnGenerationWithPartition.Pass | Code/utils/column_generation_with_partition.py:41-55 | the duals of the master solve are handed to pricing and the sweep runs |
| ColumnGenerationWithPartition.ColumnGenerationWithPartition | Code/utils/column_generation_with_partition.py:30-77 | lps_opt_list holds the first master optimum; cnt is 0 when nothing was recorded, otherwise 1; the recorded columns are handed on in increasing k |
| ColumnGenerationWithPartition.UpdateAll | Code/utils/column_generation_with_partition.py:62-63 | the recorded columns are appended in key order after the existing ones |
| ColumnGenerationWithPartition.KeysIncrease | Code/utils/column_generation_with_partition.py:48-55 | k is recorded exactly when 2 ≤ k and its optimum exceeds 10e-6, in increasing order |
| ColumnGenerationWithPartition.RecordedValid | Code/utils/column_generation_with_partition.py:48-55 | the recorded dict has each key once |
| ColumnGenerationWithPartition.RecordedStep | Code/utils/column_generation_with_partition.py:48-55 | one sweep step adds k with its column exactly when its optimum exceeds 10e-6 |
| ColumnGenerationWithPartition.RecordedMeaning | Code/utils/column_generation_with_partition.py:53-55 | the column recorded at k holds exactly the vertices whose x is 1.0 |
| ColumnGenerationWithPartition.NothingRecorded | Code/utils/column_generation_with_partition.py:58-59 | nothing is recorded exactly when every k has optimum at most 10e-6 |
| ColumnGenerationWithPartition.AsWrittenRaises | Code/utils/column_generation_with_partition.py:20-28 | the LPS call as written raises TypeError |
| ColumnGenerationWithPartition.PassEndRaises | Code/utils/column_generation_with_partition.py:58-63 | as written, the end of the pass raises TypeError at the one-argument update_model exactly when some k in 2..n priced above 10e-6; otherwise it breaks with nothing recorded |
| ColumnGenerationUtil.CalcWc | Code/utils/column_generation_util.py:7-27 | IndexError exactly for an empty community or one with a member outside one of the four matrices; otherwise a weight |
| ColumnGenerationUtil.CalcWcIsWeight | Code/utils/column_generation_util.py:7-27 | for an indexable community this weight equals calc_w_C of wc.py, with the degrees read off the diagonals |
| ColumnGenerationUtil.SingletonWc | Code/utils/column_generation_util.py:7-27 | with a zero diagonal, a singleton weighs −2(1−λ)D+[u] + 2λD−[u] |
| ColumnGenerationUtil.Diag | Code/utils/column_generation_util.py:14-15 | the degree vector read off the diagonal of the degree matrix |
| ColumnGenerationUtil.WeightsOf | Code/utils/column_generation_util.py:29-38 | the dict of weights keyed by tuple(C), first occurrence only |
| ColumnGenerationUtil.CalcWcDict | Code/utils/column_generation_util.py:29-38 | the loop builds exactly WeightsOf |
| ColumnGenerationUtil.WeightsOfFails | Code/utils/column_generation_util.py:29-38 | the dict fails exactly when some community is empty or has a member outside the matrices |
| ColumnGenerationUtil.WeightsOfValid | Code/utils/column_generation_util.py:29-38 | each key appears once |
| ColumnGenerationUtil.WeightsOfEntries | Code/utils/column_generation_util.py:33-38 | each key is a listed community and its value is that community's weight |
| ColumnGenerationUtil.TupleKeys | Code/utils/column_generation_util.py:33-38 | a community is a key exactly when it is listed |
| ColumnGenerationUtil.SwappedTupleKeys | Code/utils/column_generation_util.py:33-38 | keys are tuples, so the same set in another order is a different key |
| ColumnGenerationUtil.CreateLpS | Code/utils/column_generation_util.py:40-61 | the loop builds exactly CreatedLpS |
| ColumnGenerationUtil.AddKeyVars | Code/utils/column_generation_util.py:51 | the loop adds one variable per weight key, in key order, and z_vars maps each key to its variable |
| ColumnGenerationUtil.AddVertexRows | Code/utils/column_generation_util.py:55-59 | one "= 1" row per vertex |
| ColumnGenerationUtil.LpSVars | Code/utils/column_generation_util.py:51 | the variables are the keys, continuous, bounded below by 0 |
| ColumnGenerationUtil.LpSObjective | Code/utils/column_generation_util.py:53 | the objective coefficient of z_C is w_C, maximised |
| ColumnGenerationUtil.LpSRow | Code/utils/column_generation_util.py:55-59 | the row of vertex u has coefficient 1 on z_C exactly when u ∈ C, with rhs 1 |
| ColumnGenerationUtil.CreatedZVars | Code/utils/column_generation_util.py:51 | the z table binds every key |
| ColumnGenerationUtil.CreatedKeys | Code/utils/column_generation_util.py:40-61 | a community has a variable exactly when it occurs in the initial partitions |
| ColumnGenerationUtil.CreatedConsistent | Code/utils/column_generation_util.py:40-61 | the created master and the partitions satisfy the master invariant |
| ColumnGenerationUtil.LpSWellFormed | Code/utils/column_generation_util.py:51-59 | every term names an existing variable |
| ColumnGenerationUtil.ColumnCoef | Code/utils/column_generation_util.py:67-69 | the new column has 1 in the row of each member |
| ColumnGenerationUtil.AddColumnMeaning | Code/utils/column_generation_util.py:63-73 | the new variable has objective w_C and is bound in z_vars; nothing else changes |
| ColumnGenerationUtil.AddColumnConsistent | Code/utils/column_generation_util.py:63-73 | adding a column keeps the master invariant |
| ColumnGenerationUtil.SolveLpS | Code/utils/column_generation_util.py:76-90 | a value for every bound community and a dual for every row |
| ColumnGenerationUtil.DualLp | Code/utils/column_generation_util.py:143-170 | KeyError exactly when some community holds a vertex outside the vertex list |
| ColumnGenerationUtil.DualLpObjective | Code/utils/column_generation_util.py:152-154 | one continuous y_u per vertex; minimise Σ y_u |
| ColumnGenerationUtil.DualLpRow | Code/utils/column_generation_util.py:156-157 | one row per community, Σ_{u∈C} y_u ≥ w_C |
| ColumnGenerationUtil.StrayDual | Code/utils/column_generation_util.py:195 | the discarded dual LP raises exactly for a community with a stray vertex |
| ColumnGenerationUtil.Picked | Code/utils/column_generation_util.py:216 | the new community is exactly the vertices with x > 0.9 |
| ColumnGenerationUtil.PickedDistinct | Code/utils/column_generation_util.py:216 | it lists each vertex once |
| ColumnGenerationUtil.PickedEmpty | Code/utils/column_generation_util.py:216-217 | it is empty exactly when no x exceeds 0.9 |
| ColumnGenerationUtil.PassMeaning | Code/utils/column_generation_util.py:183-220 | a pass stops when pricing is at most 0 and otherwise yields a non-empty community of x > 0.9 vertices with its weight |
| ColumnGenerationUtil.PricedMeaning | Code/utils/column_generation_util.py:211-217 | once pricing has answered: stop with the reading at an optimum of at most 0, otherwise a non-empty community of exactly the x > 0.9 vertices, with its calc_w_c |
| ColumnGenerationUtil.PassStray | Code/utils/column_generation_util.py:195 | a stray vertex makes the pass raise KeyError |
| ColumnGenerationUtil.PassOutOfShape | Code/utils/column_generation_util.py:108-112 | a vertex outside the degree matrices makes the pass raise IndexError in pricing, unless the dual LP has already raised KeyError for a stray vertex |
| ColumnGenerationUtil.PassRowless | Code/utils/column_generation_util.py:113 | with every vertex inside the degree matrices, a vertex without a row makes the pass raise KeyError at the dual lookup |
| ColumnGenerationUtil.PassRaises | Code/utils/column_generation_util.py:211-217 | with every vertex in S's communities, with a row and inside the matrices, a pass raises exactly when pricing is positive and picks nobody |
| ColumnGenerationUtil.PricedRaises | Code/utils/column_generation_util.py:211-217 | once pricing has answered, with every vertex inside the matrices, the pass raises exactly when the optimum is positive and no vertex is above 0.9 |
| ColumnGenerationUtil.IterateKeeps | Code/utils/column_generation_util.py:181-220 | the loop keeps the master invariant, only appends partitions, and adds at most one per pass |
| ColumnGenerationUtil.IterateEnds | Code/utils/column_generation_util.py:211-222 | the loop's answer is the stopping pass's reading; an error is the raising pass's error |
| ColumnGenerationUtil.ColumnGenerationMeaning | Code/utils/column_generation_util.py:172-222 | the pool only grows; on return the z keys and the solution are exactly the communities of the pool, each once |
| ColumnGenerationUtil.RunPass | Code/utils/column_generation_util.py:183-220 | one pass equals the pass function |
| ColumnGenerationUtil.ColumnGeneration | Code/utils/column_generation_util.py:172-222 | initial_partitions is extended in place and returned as S; the result is the fuel-iterated pass function |
| Opt.CalcWc | Code/opt.py:7-24 | IndexError exactly for an empty community or one with a member outside one of the four matrices; otherwise the weight in quotient form |
| Opt.QuartersCombine | Code/opt.py:17-22 | the four quotients add up to the numerator over |C| |
| Opt.CalcWcAgrees | Code/opt.py:17-22 | opt.py's calc_w_c equals column_generation_util.py's on every community, and wc.py's weight on every indexable one |
| Opt.Weights | Code/opt.py:29-35 | IndexError exactly when some community is empty or has a member outside the matrices; otherwise one weight per community, each its calc_w_c |
| Opt.CollectColumns | Code/opt.py:29-35 | the loop flattens the partitions into all_communities with their weights aligned by position, or raises IndexError exactly when Weights does |
| Opt.ObjectiveTermsCoef | Code/opt.py:39 | the objective coefficient of z_i is w_i |
| Opt.MemberTermsCoef | Code/opt.py:41-43 | the row of vertex u has coefficient 1 on z_i exactly when u is in community i |
| Opt.LpModelShape | Code/opt.py:37-43 | binary z per community, maximise Σ w_i z_i, one "= 1" row per vertex |
| Opt.AddZVars | Code/opt.py:37 | one binary variable per community |
| Opt.AddCoverRows | Code/opt.py:41-43 | one cover row per vertex |
| Opt.SolveLpS | Code/opt.py:26-50 | the method computes SolveLpSOf: the columns are collected, the model of LpModelShape is built over them and handed to the solver, whose optimum and z values are returned with all_communities |
| Opt.SolveLpSMeaning | Code/opt.py:26-50 | IndexError exactly when some partition holds an empty community or one with a member outside the matrices; otherwise there is one solution value per community, and the communities are exactly those of the partitions |
| Opt.Chosen | Code/opt.py:75-79 | a community is chosen exactly when some z_i > 0.5 belongs to it |
| Opt.ResultPartition | Code/opt.py:75-79 | the chosen communities, in the order they were listed |

## Left out

- The CBC and python-mip solvers are oracles. Each solve is a parameter that supplies the optimum, the point and the duals. No contract claims that the oracle's point is optimal, only what the formulation means at any point it returns.
- Floating point is modelled as `real`. This covers λ, the duals, the weights and the solver values. The 10e-6 and 0.9 thresholds and the `== 1.0` test are exact comparisons on reals.
- Loops that the source leaves unbounded carry a fuel argument, and running out of fuel is `Unfinished`. These are the column-generation loops and the `while` of generate_unique_partitions.
- random.shuffle is an `order` parameter: the permutation it produced. The random graph generators, networkx, plotting, CSV input, the main scripts, `print` and `write_model` are not part of this model.
- Matrices.At and Matrices.Entry read 0 outside the matrix, where numpy would raise IndexError or wrap a negative index. The calc_w_c functions (ColumnGenerationUtil.CalcWc, Opt.CalcWc) and the pass's degree reads check the range with Matrices.Indexes and raise IndexError. The four pricing constructors (ApMilp, ApMilp2, ApMilpWithPartition, ApQp) require n×n A+ and A− (see the line for each below), and GraphUtil.GenerateEdges requires matrices that cover every entry it reads.
- Wc.CalcWC: reads 0 for a member outside a matrix, where numpy raises IndexError. Its callers in the model pass members of 0..n−1.
- Matrices.Indexes: a negative index counts as out of range, so CalcWc reports IndexError for a negative member, where numpy reads from the end of the matrix. Vertices are 0..n−1 throughout the code.
- ColumnGenerationUtil.PassOf: inside solve_ap_qp_milp only the degree reads (IndexError) and the dual lookup (KeyError) are modelled. generate_edges' IndexError for an A− smaller than A+, and the KeyError for an edge endpoint outside `vertices`, are not modelled.
- Variable names are ints or communities, not the strings `z_{C}` and `x_{u}`.
- Lps.Lps.constructor: requires a weight for every community of S. The source raises KeyError for a missing one.
- Lps.Lps.UpdateModel: requires a weight for every new community and a row for every member vertex. The source raises KeyError otherwise.
- Lps.Lps.SolveModel: requires a variable in z_C for every community of S. The source raises KeyError at lps.py:46 otherwise, which happens when the caller's w_C_dict has keys outside the initial S, because update_model then sets S to all the keys.
- Lps.Lps.UpdateModel: the weight dictionary is a value field. The source's `w_C_dict.update` also mutates the caller's dict, through the alias taken in `__init__`; that aliasing is not modelled.
- LpsWithPartition.LpsWithPartition.AddColumns: requires a weight for every new community and a row for every member vertex, as Lps.Lps.UpdateModel does. The source raises KeyError otherwise.
- LpsWithPartition.LpsWithPartition.UpdateColumnsAndPartition: requires every weighted community to have a variable. Otherwise `z_C[C]` raises KeyError.
- LpsWithPartition.LpsWithPartition.AddPartitionConstr: a failed removal, which the source catches and prints as a warning, is not modelled. Removing a held row always succeeds.
- ApMilp.ApMilp.AddLpsDualSol: requires a dual for every vertex 0..n−1. The source raises KeyError for a missing one.
- ApMilp2.ApMilp.AddLpsDualSol: requires a dual for every vertex 0..n−1 when the graph has an edge. The source raises KeyError for a missing one.
- ApMilpWithPartition.ApMilpWithPartition.AddLpsDualSol: requires a dual for every vertex 0..n−1. The source raises KeyError for a missing one.
- ApQp.ApQp.constructor: requires a dual for every vertex 0..n−1. The source raises KeyError for a missing one.
- ApQp.ApQp.constructor: requires n×n A+ and A−, as the other three pricing constructors do. For smaller matrices ap_qp.py:31-33 raises IndexError, which is not modelled.
- ApMilp.ApMilp.constructor, ApMilp2.ApMilp.constructor, ApMilpWithPartition.ApMilpWithPartition.constructor, ApQp.ApQp.constructor: the degree vectors are not required to have n entries. A D+ or D− shorter than n reads 0 through Matrices.At, where the source raises IndexError.
- ColumnGeneration.DualsCover: the master oracle is required to report a dual for each vertex, so the KeyError of a missing dual is not modelled.
- ApMilp, ApMilp2, ApMilpWithPartition and ApQp take the vertex list to be 0..n−1, as generate_signed_graph produces it. Other vertex lists are not modelled.
- ApMilpWithPartition.ApMilpWithPartition: the class carries the corrected base term with E− summed once. The term as written at ap_milp_with_partition.py:62 is the separate function BaseTermAsWritten, and it is related to the corrected term by AsWrittenGap.
- ApQp.ApQp.constructor: the edge terms keep the coefficient 4 over ordered pairs, as written. Each edge inside C then counts 8 times, where w_C's numerator counts it 4 times. So at a product point the base term is |C|·w_C + 2·ΣA+[C×C] − 2·ΣA−[C×C] (ApQp.BaseAtProducts): the numerator shifted, not |C|·w_C. This is not claimed as a defect, because ap_qp.py does not say which objective it intends.
- ColumnGeneration.ColumnGeneration: models the loop as evidently intended, with three repairs besides the TypeError (see the first Findings row):
  - `solve_model` at column_generation.py:51 is taken to be `solve_ap_milp`;
  - `update_model` at column_generation.py:65 is given the new column with its weight;
  - the returned S is the list of added columns, not update_model's return value of None.
- ColumnGenerationWithPartition.ColumnGenerationWithPartition: models the loop as evidently intended, with the update at column_generation_with_partition.py:63 given each recorded column with its weight (see the Findings row for :63; the as-written call is PassEndAsWritten). The function returns None; the model returns the loop's local state instead. The debug prints, write_model and the commented-out block after the loop are not modelled.
- ColumnGenerationUtil.ColumnGeneration: add_column_to_lp_s at column_generation_util.py:67 passes Column's arguments in swapped order. As written, python-mip takes each entry of `column.constrs` as a constraint, and those entries are the ints 0 and 1, so the first added column fails instead of being added. The model takes the evident intent: a coefficient of 1 in each member's row.
- ColumnGenerationUtil.DualLp: the result of solve_dual_lp is discarded at column_generation_util.py:195, so only its KeyError is observable and modelled.
- ColumnGenerationUtil.ColumnGeneration: the internals of solve_ap_qp_milp are not modelled. It is the pricing oracle of this loop, and its rows are the same as AP_MILP's.
- Opt.ResultPartition: requires the solution and the flattened list to have equal lengths, which opt.py's main guarantees by construction.
- Wc.CalcWC: requires a non-empty C. For an empty C, numpy divides 0 by 0 and gives NaN, which has no `real` counterpart.

## Findings

| source | as written | input that shows it | evidently intended | confidence | as-written member | corrected member |
|---|---|---|---|---|---|---|
| Code/utils/column_generation.py:26-34 | `LPS(vertices=…, A_plus=…, …, init_partitions=…)`, but `LPS.__init__` takes (S, w_C_dict, vertices), so the call raises TypeError before the loop. Past that call, `solve_model` at :51 does not exist on AP_MILP (it is `solve_ap_milp`), and `update_model` at :65 is given one argument where it takes two. The S returned at :70 is update_model's None | any call of column_generation | build the master from the initial partitions; price with `solve_ap_milp`; add each priced column with its weight; return the added columns as S | not executed | ColumnGeneration.AsWrittenRaises | ColumnGeneration.ColumnGeneration |
| Code/utils/column_generation_with_partition.py:20-28 | the same keyword call of LPS raises TypeError | any call of column_generation_with_partition | build the master from the initial partitions, then sweep k | not executed | ColumnGenerationWithPartition.AsWrittenRaises | ColumnGenerationWithPartition.ColumnGenerationWithPartition |
| Code/utils/column_generation_with_partition.py:63 | `S = lps.update_model(cloumns[k])` passes one argument where `update_model` takes two (lps.py:52), so it raises TypeError before any column is added; had it bound, it would set S to update_model's None | any pass in which some k in 2..n prices above 10e-6 | `lps.update_model([C], {C: w_C})` for each recorded column, in key order | not executed | ColumnGenerationWithPartition.PassEndRaises | ColumnGenerationWithPartition.ColumnGenerationWithPartition |
| Code/utils/ap_milp_with_partition.py:62 | `for u in vertices for (u, v) in E_minus` rebinds u, so the E− term is added once per vertex | two vertices joined by one negative edge, D− = [1, 1], D+ = 0, λ = 0.5, community {0, 1}: base term −6 against numerator −2 | E− summed once, so the base term is the w_C numerator | not executed | ApMilpWithPartition.AsWrittenCounterexample | ProductPricing.ZBaseAtProducts |
| Code/utils/lps_with_partition.py:51-52 | `self.update_partition_constr(new_k)` names a method no class on LPSWithPartition's path defines, so AttributeError is raised after the columns have been added | any call of update_columns_and_partition | `self.add_partition_constr(new_k)`: rebuild the cardinality row over the new S | not executed | LpsWithPartition.LpsWithPartition.UpdateColumnsAndPartitionAsWritten | LpsWithPartition.LpsWithPartition.UpdateColumnsAndPartition |
