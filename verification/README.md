# A verified model of the SQL engine and its plan cache

The repository is a SQL engine in C++ (parser, logical rewrites, a Selinger-style join search, pull
executors, a coordinator that spreads a query over workers) with a Redis-like plan cache in Go.
This project models that logic and proves what it computes. One semantic base serves the query side:
expressions and literals (`Values.dfy`), logical plans and the rows they produce (`Relational.dfy`),
and a shape-independent meaning of a tree of filters and inner joins (`NormalForm.dfy`).

| part | files |
|---|---|
| expressions, rows, meaning of join trees | `Common`, `Values`, `EvaluationLaws`, `FloatTexts`, `Relational`, `NormalForm` |
| join search and the plan it chooses | `Bits`, `Plans`, `JoinSearch`, `PlanChoices`, `JoinEnumerator`, `JoinGraph`, `JoinMeaning`, `DroppedConditions`, `HashRefusal` |
| logical rewrites | `Pushdown`, `PushdownThrows`, `Reorder`, `GreedyScope`, `Nests` |
| running physical plans | `Execution`, `Executors`, `Aggregation`, `AggregateMeaning` |
| distribution | `PartialAggregation`, `CoLocation`, `MergeRuns`, `Exchange`, `WorkerPlans`, `Coordinator` |
| SQL text | `SqlSyntax`, `SqlParser`, `SqlRoundTrip`, `SqlLexer`, `SqlScanner`, `SqlText`, `SqlPrinter`, `SqlParsed`, `SqlPrecedence`, `SqlForms` |
| JSON and plan trees | `Json`, `JsonReader`, `PlanJson` |
| cache: shards, store, wire, snapshots | `CacheModel`, `CacheMeaning`, `Cache`, `Store`, `Resp`, `Reply`, `Snapshot` |
| bytes and texts of the formats | `Formats` |
| cost calibration | `Calibration` |

Doubles are exact reals. An evaluation that throws is `None`, an operation that throws is `Err`.
Clocks, the choice between broadcast and shuffle, worker failures, hash functions, checksums, estimators and the text of
non-integer numbers are parameters or nondeterministic choices, so every statement holds for all of them.
Code that moves a cursor, fills a table or updates fields is a class or a method with loops, proved
against a function of its input or of its old state; the lemmas are about those functions.

## Main results

* **Join search.** `FindBestPlan` succeeds exactly on connected join graphs of 1 to 63 relations; the memo has an
  entry for exactly the connected subsets, each entry is the best one-relation extension of memoised plans, and,
  when row estimates depend only on the subset, the plan is at most as dear as every left-deep plan. It starts from
  the cheaper access path of each relation, and each join step takes the cheapest of its algorithms.
  Where join equalities compare columns, on typed data the planned query never throws, and gives the rows of the
  original if and only if, on stored rows, the conditions its plan uses imply those it leaves out. It leaves none out
  if and only if there is one join conjunct fewer than there are relations; then every plan the search may choose
  runs if and only if every join equality compares two columns.
* **Distribution.** For every strategy, every worker count and every pattern of failing calls, the distributed
  query throws exactly when a single node throws on it, and otherwise gives the single-node answer as a bag, as soon
  as the strategy taken serves the query; what each strategy computes is stated for every query. The underlying laws
  are exact: parts reassemble a table if and only if its ids are integers (without an id column: one worker or no
  row), a shuffled join is the join if and only if matching rows meet, merged partial aggregates are the aggregate if
  and only if no NULL leads a MIN or MAX and no global AVG is over nothing, and concatenated aggregates are the
  aggregate if and only if no group is on two workers.
* **Rewrites.** Predicate pushdown keeps rows, their order and the schema; where the filter over a join does not throw,
  pushing it down throws if and only if a filter sent to a side throws on a row of that side. Greedy reordering of a
  nest of joins keeps every condition if and only if no split of the operands is uncrossed; the bottom-up reordering
  of a whole plan then keeps its rows, because a tree of conditions over the operands of a nest restricts to one on
  every nest inside it. The reordered conditions are in scope if and only if each one taken has all its tables in the
  pair it joins.
* **Joins.** Nested loop and hash join give the same bag if and only if, for every pair of keys that meet, equality
  of text is equality of value.
* **Evaluation.** On numbers, strings, truth values and NULL, comparison is their order, AND, OR and NOT are their truth
  tables, arithmetic is undone by its inverse, and the aggregates are counts, sums and extremes of a group's values.
* **Precedence.** Every expression written with no parentheses but those its structure needs parses back; chains of
  one level group to the left.
* **Round trips.** SQL text (for everything the parser returns, if and only if its NOTs stand where missing
  parentheses change nothing), JSON whose numbers are written as numbers (if and only if keys are unique, strings
  clean and numbers carried by their text; any other value comes back as its echo), plan trees, RESP (if and only if
  the value is in bounds, for the Go reader and for the C++ reader, each with its own bounds), snapshots of a store.
* **Cache.** Over every interleaving of shard steps get answers at most the value last set, up to its deadline, and
  with nothing evicted exactly what the values and deadlines noted along the trace say; eviction keeps the longest
  fitting prefix of the recency order.
* **Calibration.** The running sums give the least-squares line.

## Model

| member | source | states |
|---|---|---|
| JoinEnumeration.JoinEnumerator.FindBestPlan | optimizer/join_enumerator.cpp:206-233 | from a fresh memo: a plan exactly for connected graphs of 1 to 63 relations; an entry for exactly the connected subsets; the plan is left-deep over all relations and, when row estimates depend only on the subset, costs no more than any left-deep plan |
| JoinEnumeration.JoinEnumerator.SolveSubset | optimizer/join_enumerator.cpp:175-204 | adds at most the subset's own entry, the cheapest over all one-relation extensions of memoised plans, and none exactly when no extension exists |
| JoinEnumeration.JoinEnumerator.SolveSize | optimizer/join_enumerator.cpp:217-223 | a pass over one size leaves every subset up to that size solved and invents no entry of a larger size |
| JoinEnumeration.JoinEnumerator.FillBases | optimizer/join_enumerator.cpp:210-213 | single relations get their best access path and nothing else is stored |
| JoinEnumeration.JoinEnumerator.GenerateBestCandidate | optimizer/join_enumerator.cpp:120-173 | the result is one of the candidate algorithms and no candidate is cheaper |
| JoinEnumeration.JoinEnumerator.FindConnectingEdge | optimizer/join_enumerator.cpp:59-72 | the first edge between the two masks, or none |
| JoinEnumeration.UsableIffGrown | optimizer/join_enumerator.cpp:175-204 | some extension of a subset is usable exactly when the subset can be grown one adjacent relation at a time |
| JoinEnumeration.GloballyBest | optimizer/join_enumerator.cpp:120-233 | when row estimates depend only on the subset, each entry costs no more than any left-deep plan of its subset |
| JoinEnumeration.SearchOutcome | optimizer/join_enumerator.cpp:206-233 | what a fully solved memo says about connectivity and cost, for every subset |
| JoinGraphs.ConnectedIffGrown | optimizer/join_enumerator.cpp:59-72 | a set of relations is connected (every two linked by a walk inside it) exactly when it can be built one adjacent relation at a time: existence of a non-cut vertex |
| JoinCandidates.CandidatesMonotone | optimizer/join_enumerator.cpp:120-173 | with equal row estimates a cheaper left input makes every candidate at most as dear |
| PlanChoices.CandidatesAreTried | optimizer/join_enumerator.cpp:120-173 | every candidate is a nested loop in either order, or for an equality a hash join or an index probe, and costs in numbers what physical/cost.cpp charges |
| PlanChoices.NothingCheaper | optimizer/join_enumerator.cpp:120-173 | no such join of the two plans is cheaper than the cheapest candidate |
| AccessPaths.BestAccessPath | optimizer/access_path_generator.cpp:52-107 | a sequential scan under every local filter, or a scan of the first indexed equality under the others where that is cheaper; never dearer than either path, and of two equal ones the sequential |
| AccessPaths.AccessPathIsCheaper | optimizer/access_path_generator.cpp:52-107 | the path every search starts from is no dearer than the sequential one and than the index one, and is the index one only where that is cheaper |
| PlanChoices.PathTotals | physical/cost.cpp:19-39 | in numbers: a sequential path costs its pages, 0.01 for each row and 0.01 for each row a filter reads; an index path 4.015 for each row matched and the same for its other filters |
| PlanChoices.NearestSize | optimizer/access_path_generator.cpp:19 | row estimates round to the nearest size, and to no size below one |
| PlanChoices.IndexWins | optimizer/access_path_generator.cpp:106 | one row matched of a thousand on 16 pages: the index path, 4.015 against 36 |
| PlanChoices.IndexLoses | optimizer/access_path_generator.cpp:106 | a hundred rows matched: the sequential path, 36 against 401.5 |
| AccessPaths.WrapFilters | optimizer/access_path_generator.cpp:60-99 | the filter loop stacks every local filter but the one the index serves, with running row counts |
| JoinMeaning.AccessPathShape | optimizer/access_path_generator.cpp:52-107 | either access path is a scan of the relation under exactly its local filters |
| JoinGraphExtraction.IdsAreMentioned | optimizer/join_graph.cpp:76-117 | relation ids are found exactly when every column is known, and are exactly the relations mentioned |
| JoinGraphExtraction.PlaceConjunct | optimizer/join_graph.cpp:131-151 | a conjunct goes to exactly one of local filters, edges and residuals, by the number of relations it mentions |
| JoinGraphExtraction.BuildJoinGraph | optimizer/join_graph.cpp:124-154 | succeeds exactly on trees of scans, filters and joins; every conjunct is kept exactly once in its place |
| JoinMeaning.LeftDeepShape | optimizer/join_enumerator.cpp:120-204 | every left-deep plan implements a join tree over exactly its relations, each edge used at most once |
| JoinMeaning.EveryEdgeUsedIffTree | optimizer/join_enumerator.cpp:61-70 | a plan of all relations uses every edge exactly when there is one edge fewer than relations; otherwise conditions are dropped |
| JoinMeaning.TreeUsesEverythingOnce | optimizer/join_enumerator.cpp:120-204 | then each relation, edge and local filter is used exactly once |
| JoinMeaning.EdgesAreJoinConjuncts | optimizer/join_graph.cpp:124-154 | the edges are exactly the conjuncts that mention two relations |
| JoinMeaning.SearchedPlanAnswers | physical/physical_planner.cpp:151-167 | any left-deep plan with the residual filters on top gives the rows of the query, up to column order, and runs without throwing |
| JoinMeaning.PlanJoinSearch | physical/physical_planner.cpp:151-167 | a plan exactly when the extracted graph is connected and has 1 to 63 relations; the plan is a left-deep plan of all relations under the residual filters; with one join conjunct fewer than relations it answers the query on every typed database |
| DroppedConditions.FewerConditions | execution/operators.cpp:84-170 | with conditions left out, the rows are the same exactly when those that are left imply them on stored rows |
| DroppedConditions.SearchedPlanAnswersIff | optimizer/join_enumerator.cpp:61-70 | on typed data every plan the search may give runs, and answers the query exactly when, on stored rows, the conditions it uses imply those it leaves out |
| DroppedConditions.CycleLosesCondition | optimizer/join_enumerator.cpp:61-70 | three tables joined by equalities in a cycle, with six stored rows: every plan the search may choose runs and gives other rows than the query |
| HashRefusal.EveryPlanRunsIff | optimizer/join_enumerator.cpp:120-173 | with one join conjunct fewer than relations, every left-deep plan the search may choose runs on typed data exactly when every join equality compares two columns |
| HashRefusal.CheapestPlanRefused | execution/operators.cpp:157-176 | two tables of 1000 rows joined by an equality of a column and an expression: every cheapest plan throws |
| NormalForm.TreeMeaning | execution/operators.cpp:84-170 | how often a row occurs in a tree of filters and inner joins: the product of its parts' multiplicities if all conditions hold, else never |
| NormalForm.SameConjunctsSameRows | logical/optimizer.cpp:47-122 | two trees with the same leaves and the same conjuncts give the same rows up to column order |
| NormalForm.RowsAreDrawn | execution/operators.cpp:104-170 | every row of a tree is put together from one stored row per leaf |
| NormalForm.BooleanTreesRun | execution/expr_eval.cpp:12-76 | a tree whose conjuncts always give booleans never throws |
| Evaluation.HoldsSplit | logical/optimizer.cpp:387-400 | a conjunction holds exactly when all its split conjuncts hold |
| EvaluationLaws.NumbersCompare | execution/value_ops.cpp:38-51 | on numbers, of one kind or two, the six comparisons are the order of the numbers |
| EvaluationLaws.StringsCompare | execution/value_ops.cpp:38-51 | on strings they are the lexicographic order: the first difference decides, or a proper prefix comes first |
| EvaluationLaws.Trichotomy | execution/expr_eval.cpp:33-51 | exactly one of <, = and > holds of two comparable values |
| EvaluationLaws.NullCompares | execution/value_ops.cpp:38-51 | with NULL on a side <, = and > are false, and <=, <> and >= are true |
| EvaluationLaws.OthersCompare | execution/value_ops.cpp:38-51 | other pairs of kinds throw when ordered; of them only booleans can be equal |
| EvaluationLaws.TruthTables | execution/expr_eval.cpp:26-45 | AND, OR and NOT of booleans are their truth tables |
| EvaluationLaws.ConnectivesThrow | execution/expr_eval.cpp:26-45 | AND and OR throw exactly when the left side is no boolean or, where it does not decide, the right side is none |
| EvaluationLaws.OperandsThrow | execution/expr_eval.cpp:33-51 | an operand that throws makes every operation throw, decided or not |
| EvaluationLaws.ArithmeticComputes | execution/value_ops.cpp:53-65 | sum, difference, product and quotient of the numbers; an Integer exactly when both operands are, a quotient always a Float |
| EvaluationLaws.ArithmeticUndone | execution/value_ops.cpp:53-65 | (a - b) + b is a, (a / b) * b is a for b not zero, -(-a) is a |
| EvaluationLaws.NotANumberThrows | execution/value_ops.cpp:14-18 | arithmetic on anything but numbers throws |
| EvaluationLaws.QualifiedFound | execution/row_schema.cpp:78-93 | a qualified name is found at the first column that bears both names |
| EvaluationLaws.UnqualifiedFound | execution/row_schema.cpp:78-93 | an unqualified name is found exactly when one column alone bears it |
| FloatTexts.FloatTextIs | execution/value_ops.cpp:20-29 | the text of a Float is sign, whole part and six decimals of the nearest millionth |
| FloatTexts.FloatTextNear | execution/value_ops.cpp:20-29 | Floats with equal text have one sign and are at most a millionth apart |
| FloatTexts.FarFloatsKeyedApart | execution/value_ops.cpp:20-29 | Floats more than a millionth apart have different key text |
| Relational.JoinCount | execution/operators.cpp:104-170 | how often a pair occurs in a join, from the multiplicities of its halves |
| Pushdown.PushdownPreservesRows | logical/optimizer.cpp:47-122 | the rewritten plan has the same schema and the same rows in the same order on every database |
| Pushdown.PushdownPreservesThrowing | logical/optimizer.cpp:47-122 | with boolean conditions a join tree runs both before and after, and a plan over one throws exactly when the original does |
| PushdownThrows.DistributeRuns | logical/optimizer.cpp:47-122 | a filter moved below a join throws on none of: the filters sent to a side, on every row of that side; the join condition, on the pairs they leave; the filters that stay, on the joined rows |
| PushdownThrows.SentFiltersThrow | logical/optimizer.cpp:47-122 | where the filter over the join does not throw, the moved one throws exactly when some filter sent to a side throws on a row of that side |
| PushdownThrows.PushingThrows | logical/optimizer.cpp:47-122 | a filter that is a number over a join without rows: only the rewritten plan throws |
| PushdownThrows.PushingHidesThrow | logical/optimizer.cpp:47-122 | a number and a filter that empties one side: only the original plan throws |
| PushdownThrows.SentWhereMentioned | logical/optimizer.cpp:65-76 | a conjunct is sent to a side exactly when it mentions an alias of that side and none of the other, and stays otherwise |
| PushdownThrows.FilterIsSplit | logical/optimizer.cpp:50-83 | a filter over a join becomes the filters that stay, over the join of the two sides under the filters sent to them |
| Pushdown.PushedConjuncts | logical/optimizer.cpp:47-122 | no conjunct is lost or invented, at any depth |
| Pushdown.TablesAreColumns | logical/optimizer.cpp:402-427 | the referenced tables are exactly the qualifiers of the columns |
| Pushdown.ScanAliasesAreAliases | logical/optimizer.cpp:459-482 | the collected aliases are exactly those of the leaves |
| Reorder.BestPair | logical/optimizer.cpp:287-325 | the linked pair with the smallest estimated join, with its first linking condition; the first two plans and no condition exactly when no pair is linked |
| Reorder.SomePairLinks | logical/optimizer.cpp:327-360 | while two or more plans are left and no split is uncrossed, some pair is linked by a remaining condition |
| Reorder.GreedyJoinOrder | logical/optimizer.cpp:327-360 | every round joins the cheapest linked pair by its first link; all leaves survive; with one condition fewer than operands, each between two of them, all conditions survive and no TRUE is invented exactly when no split of the operands is uncrossed |
| GreedyScope.ScopedIffInPair | logical/optimizer.cpp:287-360 | every condition of what greedy rounds make is in scope exactly when each condition taken has all its tables in the pair it joins |
| GreedyScope.OutOfPairThrows | execution/operators.cpp:134-155 | a join condition with a table outside its pair throws as soon as both sides have a row |
| GreedyScope.ThreeTableConditionThrows | logical/optimizer.cpp:302-309 | a JOIN b ON a.x = b.x JOIN c ON c.z = a.x + b.y with one row each: the query runs, and what greedy reordering makes of it throws for every catalog |
| GreedyScope.SmallTablesJoinFirst | logical/optimizer.cpp:287-360 | of three tables the two smaller ones that a condition links are joined first |
| Reorder.ReorderNest | logical/optimizer.cpp:211-267 | a reordered nest of inner joins keeps its operands and leaves; with a tree of conditions over the operands it keeps its conditions and, on every database, its rows up to column order |
| Nests.SubNest | logical/optimizer.cpp:200-223 | when the conditions of a nest are a tree over its operands, those of either side are a tree over that side's operands |
| Nests.ReorderJoins | logical/optimizer.cpp:200-250 | the bottom-up recursion keeps the leaves of every plan and the operators above its joins; where every nest of joins is a tree over its operands it keeps every condition and, on every database, the rows up to column order, and where conditions are boolean neither plan throws |
| Execution.ImplementsRows | execution/executor_builder.cpp:12-72 | a physical plan gives, in build order, exactly the rows of the logical tree it implements, whatever join algorithms it uses |
| Execution.YieldsBag | execution/operators.cpp:178-218 | however the buckets of its hash joins order their rows, a plan yields that bag of rows |
| Execution.BuildOrderYielded | execution/operators.cpp:178-218 | the order in which rows were built is one such order |
| Execution.ImplementsRuns | execution/executor_builder.cpp:12-72 | and does not throw when that tree does not |
| Execution.HashKeeps | execution/operators.cpp:157-218 | on keys of one comparable kind, equality of key texts keeps exactly the pairs the condition holds of |
| Execution.IndexScanKeeps | execution/operators.cpp:67-82 | an index scan keeps exactly the rows its equality holds of |
| Values.TextDecidesEquality | execution/value_ops.cpp:20-44 | equality of text is equality of value always between two Integers, two strings or two booleans, never between two NULLs, between Floats exactly when they are equal or differ in six decimals, between Integer and Float exactly when they differ, and for a string exactly when it does not spell the other value |
| Values.EqualityIgnoresText | execution/value_ops.cpp:20-44 | 1 and 1.0 are equal with different texts; NULL and NULL, and 1 and '1', have one text and are not equal |
| Executors.NestedLoopJoinExec.Open | execution/operators.cpp:104-116 | after open the rows to come are the whole join |
| Executors.NestedLoopJoinExec.AdvanceLeft | execution/operators.cpp:123-132 | moving to the next left row loses no pair still to come |
| Executors.NestedLoopJoinExec.ScanRight | execution/operators.cpp:134-155 | the next matching pair for the current left row is the first row still to come |
| Executors.NestedLoopJoinExec.Next | execution/operators.cpp:134-155 | each call gives the first row still to come; nothing once none is left and every pair gave a boolean |
| Executors.NestedLoopJoinExec.Drain | execution/operators.cpp:104-155 | throws exactly when some pair gives no boolean, and otherwise yields exactly the left-major sequence of matching pairs |
| Executors.HashJoinExec.Open | execution/operators.cpp:178-190 | the buckets hold every right row under its key text, so the rows to come are the text join |
| Executors.HashJoinExec.Next | execution/operators.cpp:197-218 | each call takes one row from the bag still to come |
| Executors.HashJoinExec.Drain | execution/operators.cpp:178-218 | yields exactly the bag of pairs with equal key text, for any order inside buckets |
| Executors.JoinsAgree | execution/operators.cpp:104-218 | hash join and nested loop give the same bag exactly when for every left and right row equality of key text is equality of key value, and then the same sequence |
| Aggregation.FoldMeaning | execution/operators.cpp:246-320 | the accumulator holds the count, the total, a least and a greatest non-NULL value |
| AggregateMeaning.ResultsAreOf | execution/operators.cpp:307-320 | a group gives one result for each aggregate, in their order, each of its own column |
| AggregateMeaning.CountMeans | execution/operators.cpp:283-291 | COUNT(*) is the number of rows, COUNT(e) that of the rows on which e is not NULL |
| AggregateMeaning.SumMeans | execution/operators.cpp:294-313 | SUM is the sum of the values that are not NULL |
| AggregateMeaning.AvgMeans | execution/operators.cpp:294-315 | AVG times the number of those values is their sum; 0 when there is none |
| AggregateMeaning.MinMeans | execution/operators.cpp:297-316 | MIN is one of the values with none before it, NULL when there is none |
| AggregateMeaning.MaxMeans | execution/operators.cpp:299-317 | MAX is one of the values with none after it, NULL when there is none |
| AggregateMeaning.NothingMeans | execution/operators.cpp:322-333 | without GROUP BY and rows: one row with 0 for COUNT and SUM and NULL for the others |
| Aggregation.FoldAppend | execution/operators.cpp:246-320 | accumulating two runs of values is combining their accumulators |
| Aggregation.FoldPermutes | execution/operators.cpp:246-320 | the accumulator does not depend on the order of the values |
| Aggregation.AddRow | execution/operators.cpp:281-304 | one row updates every accumulator, or throws exactly when some argument does |
| Aggregation.Absorb | execution/operators.cpp:254-305 | one row goes to its group's accumulators and a new key goes last in the order |
| Aggregation.EmitGroups | execution/operators.cpp:307-320 | groups come out in first-seen order, key columns before results |
| Aggregation.HashAggregateOpen | execution/operators.cpp:246-334 | throws exactly when some row cannot be aggregated; otherwise one row per group computed from exactly its rows |
| Aggregation.AggregableIff | execution/operators.cpp:281-304 | aggregation runs exactly when every key and argument evaluates and, group by group, the arguments can be summed or compared |
| CoLocation.AggregatePermutes | execution/operators.cpp:246-334 | the bag of results does not depend on the order of the input |
| PartialAggregation.SplitAvg | distributed/coordinator.cpp:199-216 | workers never compute AVG; every original aggregate is mapped to the worker columns that determine it |
| PartialAggregation.MergePartialAggregates | distributed/coordinator.cpp:239-312 | throws exactly on unmergeable cells; otherwise one row per key text with its cells merged |
| PartialAggregation.MergeIsAggregate | distributed/coordinator.cpp:239-312 | for any partition of the rows, merged partial aggregates equal the aggregate of all rows exactly when no NULL leads a MIN or MAX group and no global AVG is over nothing |
| PartialAggregation.AverageOfNothing | distributed/coordinator.cpp:297-311 | a global AVG over no rows is merged to a different answer |
| MergeRuns.SentMergeable | distributed/coordinator.cpp:239-312 | what workers send is mergeable whenever the whole can be aggregated |
| MergeRuns.AggregablePermutes | execution/operators.cpp:246-334 | whether rows can be aggregated does not depend on their order |
| MergeRuns.MergeRunsIff | distributed/coordinator.cpp:239-312 | when no NULL leads, all workers and the merge run exactly when one aggregation of all rows does |
| MergeRuns.ConcatenationRunsIff | distributed/coordinator.cpp:594-625 | with no group on two workers, all workers run exactly when one aggregation of all rows does |
| CoLocation.ConcatenationIsAggregate | distributed/coordinator.cpp:594-625 | concatenating unsplit per-worker aggregates is the aggregate exactly when no group is on two workers |
| CoLocation.KeyTextColumns | execution/operators.cpp:262-266 | key texts without the separator determine the text of each key column |
| CoLocation.GroupedByHome | distributed/properties.hpp:27-44 | when GROUP BY contains the column rows were placed by, no group is on two workers |
| Partition.PartitionIsRemainder | distributed/partition.cpp:10-17 | the owner of any id, negative ones included, is its non-negative remainder |
| Partition.FilterTableToPartition | distributed/partition.cpp:19-37 | exactly the owned rows in order; all rows when there is no id column |
| Partition.FilterDatabaseToPartition | distributed/partition.cpp:55-65 | the catalogued tables that exist, each filtered |
| Partition.PartsTogether | distributed/partition.cpp:19-37 | filtering the parts and concatenating is filtering the table, as bags |
| Partition.PartitionExact | distributed/partition.cpp:19-37 | the parts reassemble the table exactly when every id is an Integer or, without an id column, there is one worker or no row |
| Exchange.BroadcastLeft | distributed/coordinator.cpp:488-536 | joining a broadcast left side with the parts of the right is the whole join |
| Exchange.BroadcastRight | distributed/coordinator.cpp:488-536 | the same with the right side broadcast |
| Exchange.ShuffleExact | distributed/coordinator.cpp:540-625 | joining bucket by bucket is the whole join exactly when matching rows always go to the same bucket |
| WorkerPlans.NameRoundTrip | execution/executor_builder.cpp:25-52 | a qualified column name survives the wire exactly when the column has no dot |
| WorkerPlans.BareNameRoundTrip | execution/executor_builder.cpp:25-52 | so does an unqualified one |
| WorkerPlans.SchemaRoundTrip | execution/executor_builder.cpp:25-52 | the schema of a relation with such names survives |
| WorkerPlans.RelationRows | distributed/coordinator.cpp:132-155 | a single-relation plan is one filter over its stored table |
| WorkerPlans.RelationOnPart | distributed/coordinator.cpp:454-484 | on a worker it is that filter over the rows the worker owns |
| WorkerPlans.RelationRuns | distributed/coordinator.cpp:132-155 | a single-relation plan runs exactly when its table and columns exist and each filter is boolean on every stored row that reaches it |
| WorkerPlans.RelationRunsOnParts | distributed/coordinator.cpp:454-484 | it runs on every worker's part exactly when it runs on the whole table |
| Coordinator.RecoveryContext.CallWorkerExecute | distributed/coordinator.cpp:329-354 | a call may fail at any time, and fails on a plan that throws; if not, it is the worker's answer |
| Coordinator.RecoveryContext.CallWorkerOrRecover | distributed/coordinator.cpp:365-392 | the worker's answer, or the error its execution throws, whether or not the call is answered; the worker is recorded exactly when it is not |
| Coordinator.RecoveryContext.AskAll | distributed/coordinator.cpp:465-471 | one answer per worker in order, whatever fails; throws exactly when the plan throws on some worker |
| Coordinator.RecoveryContext.AskBoth | distributed/coordinator.cpp:557-561 | one worker's answers for both sides, Err when either throws |
| Coordinator.RecoveryContext.Collect | distributed/coordinator.cpp:473-484 | concatenation, merge or merge skip of the answers, Err when one of them or the merge throws, for every query; where the answers are spread soundly, the aggregate of all rows, throwing exactly when that or its input does |
| Coordinator.Scatter | distributed/coordinator.cpp:563-570 | rows are pushed to the bucket of their key's hash |
| Coordinator.RecoveryContext.GatherByTarget | distributed/coordinator.cpp:557-571 | both sides, from all workers, are in their buckets, whatever fails; throws exactly when a side throws on some worker |
| Coordinator.RecoveryContext.RunDistributedSingle | distributed/coordinator.cpp:454-484 | for every query the workers' answers assembled; on a query it serves it throws exactly when a single node does, and otherwise gives its answer as a bag, for every failure pattern |
| Coordinator.RecoveryContext.RunBroadcastJoin | distributed/coordinator.cpp:488-536 | for every query one side's rows joined with the parts of the other; on a query it serves it throws exactly when a single node does, and otherwise gives its answer as a bag, for either side, any condition and every failure pattern |
| Coordinator.RecoveryContext.RunShuffleJoin | distributed/coordinator.cpp:540-632 | throws when the condition gives no keys; for every query the buckets of both sides joined by target; on a query it serves it throws exactly when a single node does, and otherwise gives its answer as a bag, for every failure pattern, merge skip included |
| Coordinator.RecoveryContext.RunDistributedQuery | distributed/coordinator.cpp:636-700 | takes the strategy the estimates and the wish for broadcast call for, and computes what that strategy computes; throws exactly when a single node does, and otherwise gives its answer as a bag, where the strategy taken serves the query, whatever any other would do; a shuffle without keys and no workers are errors |
| Coordinator.ShuffleKeysFound | distributed/coordinator.cpp:162-178 | there are shuffle keys exactly when the condition is an equality of a column of either side with one of the other |
| Coordinator.MergeSkipped | distributed/coordinator.cpp:589-600 | the merge is skipped exactly when a column of the join equality is among the group keys |
| Coordinator.MergedAnswer | distributed/coordinator.cpp:239-312 | merging what any partition of any reordering of the rows sends runs exactly when the aggregate of the rows does, and is that aggregate as a bag |
| Coordinator.SkippedAnswer | distributed/coordinator.cpp:594-625 | so does concatenating per-worker aggregates when no group is on two workers |
| Coordinator.KeysMeet | distributed/coordinator.cpp:162-183 | matching rows of a shuffled join have the same target |
| Coordinator.PlacedByKey | distributed/coordinator.cpp:557-614 | after a shuffle every joined row is on the worker of either key's text |
| Coordinator.ShuffleApart | distributed/coordinator.cpp:581-619 | grouping by either shuffle key, no group is on two workers |
| Coordinator.QualifiedKeysShuffle | distributed/coordinator.cpp:162-183 | with qualified keys, two different qualifiers and keys that are equal only in equal text, a shuffle is served |
| Coordinator.OneNumberKind | execution/value_ops.cpp:20-44 | keys that are both Integer or both not are equal only in equal text |
| SqlParser.Parser.ParseHere | parser/parser.cpp:30-85 | the statement the grammar assigns to the tokens, or an error exactly when there is none |
| SqlParser.Parser.ParseSelectListHere | parser/parser.cpp:89-126 | the select list of the grammar, cursor after it |
| SqlParser.Parser.ParseTableRefHere | parser/parser.cpp:130-149 | the table reference of the grammar, cursor after it |
| SqlParser.Parser.ParseJoinHere | parser/parser.cpp:153-190 | the join clause of the grammar, cursor after it |
| SqlParser.Parser.ParseOrderByHere | parser/parser.cpp:194-215 | the ORDER BY list of the grammar, cursor after it |
| SqlParser.Parser.ParseExprListHere | parser/parser.cpp:219-230 | the expression list of the grammar, cursor after it |
| SqlParser.Parser.ParseOrHere | parser/parser.cpp:236-244 | the loop builds the left-nested OR of the grammar and stops where it stops |
| SqlParser.Parser.ParseAndHere | parser/parser.cpp:246-254 | the same for AND |
| SqlParser.Parser.ParseNotHere | parser/parser.cpp:256-263 | the same for NOT |
| SqlParser.Parser.ParseComparisonHere | parser/parser.cpp:265-280 | at most one comparison |
| SqlParser.Parser.ParseAdditiveHere | parser/parser.cpp:282-294 | the sum of the grammar, which SqlPrecedence.ChainGroupsLeft shows to group to the left |
| SqlParser.Parser.ParseMultiplicativeHere | parser/parser.cpp:296-308 | the left-nested product of the grammar |
| SqlParser.Parser.ParseUnaryHere | parser/parser.cpp:310-317 | minus signs of the grammar |
| SqlParser.Parser.ParsePrimaryHere | parser/parser.cpp:319-390 | parentheses, literals, names, calls and stars of the grammar |
| SqlPrecedence.LeanParsed | parser/parser.cpp:236-390 | an expression written at any level with no parentheses but those its structure needs is read there as itself, and the reader goes on with what follows |
| SqlPrecedence.LeanRoundTrip | parser/parser.cpp:232-390 | so written, every expression the parser can make parses back: each operator takes the operands that bind more tightly whole |
| SqlPrecedence.ChainGroupsLeft | parser/parser.cpp:236-307 | operands joined by OR, by AND, by + and - or by * and / parse to the left fold of the operands |
| SqlPrecedence.Examples | parser/parser.cpp:236-320 | a OR b AND c, NOT a = b, a + b * c, a < b + c, a - b - c and -a * b, token by token |
| SqlForms.BareJoin | parser/parser.cpp:153-182 | JOIN alone is INNER JOIN |
| SqlForms.JoinKinds | parser/parser.cpp:153-182 | INNER, LEFT, RIGHT and CROSS give their join type |
| SqlForms.OrderIsAscending | parser/parser.cpp:194-215 | an item is ascending without a word and with ASC, descending with DESC |
| SqlForms.AliasWithoutAs | parser/parser.cpp:139-146 | an alias means the same with and without AS |
| SqlScanner.Lexer.Tokenize | parser/lexer.cpp:29-38 | the tokens of the text and the end, or an error exactly when some token is malformed |
| SqlScanner.Lexer.ScanToken | parser/lexer.cpp:40-162 | one token, cursor after it |
| SqlScanner.Lexer.ScanNumber | parser/lexer.cpp:94-124 | integer or float, with the lookahead past the dot and the 64-bit bound |
| SqlForms.ReadsDecimal | parser/lexer.cpp:94-117 | digits, a point and n digits are one Float, which 10^n times is the number of all the digits |
| SqlForms.SpaceUnseen | parser/lexer.cpp:22-27 | white space in front changes no token |
| SqlForms.KeywordsAnyCase | parser/lexer.cpp:132-158 | keywords are read in any case |
| SqlForms.Keywords | parser/lexer.cpp:135-157 | the clause keywords and their tokens |
| SqlForms.MoreKeywords | parser/lexer.cpp:135-157 | those of joins, aliases and constants |
| SqlForms.TwoInequalities | parser/lexer.cpp:57-75 | != and <> are one token |
| SqlForms.InfixRead | parser/lexer.cpp:40-75 | the text of every binary operation of two names is read as that operation |
| SqlForms.PrefixTokens | parser/lexer.cpp:40-75 | so are the tokens of NOT and of a sign |
| SqlForms.PrefixRead | parser/parser.cpp:256-320 | and those tokens as that operation |
| SqlScanner.Lexer.ScanString | parser/lexer.cpp:77-88 | the characters up to the closing quote, or an error exactly when there is none |
| SqlPrinter.Printer.PrintStatement | parser/sql_printer.cpp:67-124 | appends exactly the canonical text |
| SqlPrinter.Printer.PrintExpr | parser/sql_printer.cpp:27-64 | appends exactly the expression's text |
| SqlForms.CanonicalOperation | parser/sql_printer.cpp:27-64 | a binary operation is printed in parentheses with a space on either side of its operator, NOT without, arguments with a comma and a space |
| SqlPrinted.ExprPrinted | parser/sql_printer.cpp:27-64 | a printed expression, before anything that ends one, is taken exactly and comes back exactly when its NOTs are at the top, under AND, OR or NOT, or arguments |
| SqlStatementRoundTrip.StatementPrinted | parser/sql_printer.cpp:67-124 | the same for the tokens of every statement the parser can build |
| SqlText.ReadsExpr | parser/lexer.cpp:40-162 | an expression's text before a word break lexes to its tokens and leaves the rest to be lexed |
| SqlText.ReadsStatement | parser/lexer.cpp:29-162 | canonical text lexes to the statement's tokens |
| SqlText.SqlRoundTrip | parser/sql_printer.cpp:27-131 | lexing and parsing canonical text gives the statement back exactly when its NOTs are placed |
| SqlText.CanonicalTextInjective | parser/sql_printer.cpp:27-131 | different such statements have different canonical text |
| SqlParsed.LexGood | parser/lexer.cpp:40-162 | names are no keywords, integers fit 64 bits, strings hold no quote |
| SqlParsed.OrBuilt | parser/parser.cpp:236-390 | every expression parsed from such tokens is one the round trip is about |
| SqlParsed.StatementBuilt | parser/parser.cpp:30-230 | so is every statement |
| SqlParsed.ParsedRoundTrip | parser/sql_printer.cpp:27-131 | for every text that parses to a statement without Float literals, re-reading its canonical text gives it back exactly when its NOTs are placed |
| SqlParsed.NotUnderComparisonIsLost | parser/sql_printer.cpp:49-52 | (NOT a) = b comes back as something else |
| Json.ReadWritten | util/json.cpp:131-226 | any string written is read as its echo |
| Json.EchoExact | util/json.cpp:131-226 | a string survives exactly when its only control characters are newline and tab |
| Json.IntegerValue | util/json.cpp:185-203 | the text of an integer is read as that integer |
| Json.IntegersCarried | util/json.cpp:228-250 | the text of every integer below 2^53 in size carries it, however other numbers are rendered |
| Json.DecimalsCarried | util/json.cpp:185-203 | so does every decimal text equal to the number |
| Json.ParseWritten | util/json.cpp:67-273 | a written value whose numbers are each written as one number is read as its echo and exactly what follows it is left |
| Json.EchoedIff | util/json.cpp:67-273 | such a value is its own echo exactly when keys are unique, strings clean and numbers carried by their text |
| Json.JsonRoundTrip | util/json.cpp:228-286 | parsing the written text of such a value gives its echo, and gives the value exactly when it is its own echo |
| JsonReader.JsonParser.Parse | util/json.cpp:67-78 | the cursor reader reads what the definition on text reads, and fails exactly where it fails |
| JsonReader.JsonParser.ParseArrayItems | util/json.cpp:107-129 | the same for arrays |
| JsonReader.JsonParser.ParseObjectMembers | util/json.cpp:80-105 | the same for objects, later duplicates overwriting |
| JsonReader.JsonParser.ParseChars | util/json.cpp:131-153 | the same for strings and their escapes |
| JsonReader.JsonParser.ParseNumberHere | util/json.cpp:185-203 | the same for numbers |
| JsonReader.JsonWriter.WriteJson | util/json.cpp:228-271 | the writer appends exactly the value's text |
| JsonReader.JsonWriter.WriteEscapedString | util/json.cpp:207-226 | the writer appends exactly the escaped string |
| Formats.JsonText | util/json.cpp:228-271 | commas between items and members, a colon after a key, no space |
| Formats.EscapesText | util/json.cpp:207-226 | backslash, newline, tab, carriage return and control characters as written |
| Formats.SpaceBeforeValue | util/json.cpp:67-78 | space before a value is not seen |
| Formats.SpaceInArray | util/json.cpp:108-131 | space after an item is not seen |
| Formats.SpaceInObject | util/json.cpp:80-106 | space before a key, before the colon and after it is not seen |
| Formats.SpaceAfterMember | util/json.cpp:80-106 | nor is space after a member |
| Formats.Exponents | util/json.cpp:185-204 | an exponent of either sign shifts the point |
| PlanJsonRoundTrip.ExprBack | integration/plan_serializer.cpp:168-228 | every expression record comes back from its JSON |
| PlanJsonRoundTrip.AggregateBack | integration/plan_serializer.cpp:232-246 | so does every aggregate |
| PlanJsonRoundTrip.OrderBack | integration/plan_serializer.cpp:248-260 | so does every ordering |
| PlanJsonRoundTrip.PlanBack | integration/plan_serializer.cpp:282-383 | so does every plan tree |
| PlanJsonRoundTrip.PlanRoundTrip | integration/plan_serializer.cpp:387-393 | deserialising the text of a serialised plan returns the plan, for clean strings and for whatever costs, confidences and literals the number text carries |
| PlanJsonRoundTrip.ExprFields | integration/plan_serializer.cpp:188-204 | which field of an expression stands under which name |
| PlanJsonRoundTrip.PlanNames | integration/plan_serializer.cpp:282-329 | which plain field of a plan stands under which name |
| PlanJsonRoundTrip.PlanTrees | integration/plan_serializer.cpp:282-329 | which expression and subplan of a plan stands under which name |
| PlanJsonRoundTrip.PlanLists | integration/plan_serializer.cpp:282-329 | which list of a plan stands under which name |
| PlanJsonRoundTrip.UnknownNamesThrow | integration/plan_serializer.cpp:24-164 | an enumerator is read exactly from the name of one |
| PlanJsonRoundTrip.NoExprFields | integration/plan_serializer.cpp:206-228 | an expression without fields is the default one |
| PlanJsonRoundTrip.NoPlanFields | integration/plan_serializer.cpp:332-340 | a plan without fields is the default one |
| CacheModel.EvictedKeepsPrefix | cache/internal/storage/shard.go:142-151 | eviction keeps exactly the longest prefix of the recency order that fits, and its entries |
| CacheModel.SetKeepsLongestPrefix | cache/internal/storage/shard.go:101-151 | an applied set puts its key first and then keeps exactly the longest fitting prefix; an entry no larger than the budget is always found afterwards |
| CacheMeaning.SetIsAnswered | cache/internal/storage/shard.go:101-138 | after an applied set that fits the budget, get answers the value at every time up to now + ttl when a positive TTL was given, and always otherwise |
| CacheMeaning.SetCharges | cache/internal/storage/shard.go:118-128 | such an entry is charged for its key, its value and 64 bytes |
| CacheMeaning.RefusedSetIsUnseen | cache/internal/storage/shard.go:105-116 | a set refused by NX or XX changes no answer |
| CacheMeaning.ExpireIsAnswered | cache/internal/storage/shard.go:164-193 | EXPIRE moves the deadline of an answered key to now + ttl, PERSIST takes it away; no other answer changes |
| CacheMeaning.DeleteIsAnswered | cache/internal/storage/shard.go:153-162 | a deleted key is not answered, every other as before |
| CacheMeaning.AnsweredUpToDeadline | cache/internal/storage/shard.go:35-71 | a stored value is answered exactly up to its deadline |
| CacheMeaning.GetMovesToFront | cache/internal/storage/lru.go:23-38 | an answered get moves its key to the front and keeps the order of the others |
| CacheMeaning.SetMovesToFront | cache/internal/storage/lru.go:23-38 | so does a set, up to what eviction cuts off the end |
| CacheModel.RestoreAccounted | cache/internal/storage/shard.go:256-268 | restoring keeps the byte count right exactly when the entry is expired, the key is new or the replaced entry has size 0 |
| CacheModel.IncrAccounted | cache/internal/storage/shard.go:217-251 | an increment keeps list, entries and bytes consistent and the budget |
| CacheMeaning.IncrAdds | cache/internal/storage/shard.go:217-251 | INCR gives the 64-bit sum of the number the key answers and the delta, exact where it fits |
| CacheMeaning.IncrOfNothing | cache/internal/storage/shard.go:217-251 | INCR of a key that answers nothing gives the delta |
| CacheMeaning.IncrIsAnswered | cache/internal/storage/shard.go:217-251 | the text of the sum is stored afterwards, under the deadline the key had |
| CacheModel.IncrFound | cache/internal/storage/shard.go:217-251 | the increased value is found afterwards exactly when there is one, no expired entry was stored under the key, and the new entry fits the budget |
| CacheModel.IncrOfExpiredIsLost | cache/internal/storage/shard.go:222-240 | incrementing an expired entry returns the delta, and the entry is not found afterwards |
| CacheModel.SweepAccounted | cache/internal/storage/shard.go:305-320 | a sweep keeps them consistent and frees bytes only |
| Recency.RemovedDistinct | cache/internal/storage/lru.go:33-38 | removing a key keeps the recency list free of repeats and removes exactly that key |
| Cache.Shard.RemoveLocked | cache/internal/storage/shard.go:41-51 | entry, list position, bytes and counters go together |
| Cache.Shard.Get | cache/internal/storage/shard.go:53-71 | the unexpired value, made most recent; an expired entry is dropped; hits and misses counted |
| Cache.Shard.Exists | cache/internal/storage/shard.go:73-85 | whether an unexpired entry is there |
| Cache.Shard.EvictIfOverBudget | cache/internal/storage/shard.go:142-151 | the loop computes the eviction above; evictions counted |
| Cache.Shard.Set | cache/internal/storage/shard.go:101-138 | NX and XX decide against the unexpired entry; the new state is the stored entry first, then eviction; an applied set that fits stores the value given, with deadline now + ttl exactly when a positive TTL is given |
| Cache.Shard.Delete | cache/internal/storage/shard.go:153-162 | removes the key and says whether it was stored |
| Cache.Shard.Expire | cache/internal/storage/shard.go:164-175 | sets the deadline of an unexpired entry only |
| Cache.Shard.Persist | cache/internal/storage/shard.go:180-190 | clears the deadline of an unexpired entry that has one |
| Cache.Shard.IncrBy | cache/internal/storage/shard.go:217-251 | the increased value, wrapped to 64 bits, or an error exactly for text that is no 64-bit integer; the new state |
| Cache.Shard.RestoreEntry | cache/internal/storage/shard.go:256-268 | expired entries are skipped, others are stored most recent with their size added |
| Cache.Shard.FlushAll | cache/internal/storage/shard.go:291-300 | nothing is left and the counters follow |
| Cache.Shard.SweepExpired | cache/internal/storage/shard.go:305-320 | exactly the expired entries go, each counted |
| StoreModel.StepGood | cache/internal/storage/store.go:38-111 | every step keeps keys in their hash shard, lists without repeats, bytes exact and at most the budget |
| StoreModel.StepRemembers | cache/internal/storage/store.go:38-111 | after every step each stored entry is the last write of its key |
| StoreModel.StepComplete | cache/internal/storage/store.go:38-111 | without eviction every unexpired last write is stored |
| StoreModel.RunIsTimedMap | cache/internal/storage/store.go:38-133 | both, over every chronological interleaving of shard steps |
| StoreModel.WrittenNotes | cache/internal/storage/shard.go:101-193 | each step notes a value and a deadline, written out operation by operation |
| StoreModel.HistoryIsLog | cache/internal/storage/store.go:38-133 | what was last written is, over every run, the log of those notes |
| StoreModel.LogIsLedger | cache/internal/storage/store.go:38-133 | with nothing evicted, the log is the ledger the trace alone defines, NX, XX, EXPIRE and PERSIST decided by it |
| StoreModel.ViewIsLedger | cache/internal/storage/store.go:38-133 | with nothing evicted, after any chronological interleaving the store tells of every key exactly the value and deadline the ledger of its trace tells |
| StoreModel.GetReturnsLastWrite | cache/internal/storage/shard.go:53-71 | get tells only the value and deadline last noted for the key, and none after the deadline; if nothing was evicted it tells it |
| StoreModel.ReadsKeepView | cache/internal/storage/shard.go:53-85 | lazy deletion and sweeps leave the unexpired view unchanged, now and later |
| ShardedCache.StepTotals | cache/internal/storage/store.go:38-111 | one step changes the store's totals by the change of one shard |
| ShardedCache.ShardedStore.constructor | cache/internal/storage/store.go:22-36 | at least one shard, all empty, the budget divided |
| ShardedCache.ShardedStore.Get | cache/internal/storage/store.go:44-46 | the value in the key's shard; one model step; counters equal the totals |
| ShardedCache.ShardedStore.Set | cache/internal/storage/store.go:54-56 | one model step in the key's shard; counters equal the totals |
| ShardedCache.ShardedStore.Delete | cache/internal/storage/store.go:59-67 | exactly the given keys go, and the count is how many entries went |
| ShardedCache.ShardedStore.Expire | cache/internal/storage/store.go:69-71 | one model step in the key's shard |
| ShardedCache.ShardedStore.Persist | cache/internal/storage/store.go:73-75 | one model step in the key's shard; true exactly when an unexpired entry had a deadline |
| ShardedCache.ShardedStore.DBSize | cache/internal/storage/store.go:99-105 | the sum over shards, which is the entry counter |
| ShardedCache.ShardedStore.FlushAll | cache/internal/storage/store.go:107-111 | every shard empty, counters zero |
| ShardedCache.ShardedStore.SweepAll | cache/internal/storage/store.go:119-133 | every shard keeps exactly its unexpired entries; counters equal the totals |
| Resp.ParseEncoded | cache/internal/resp/encoder.go:11-52 | an in-bound value is parsed back and exactly what follows it is left |
| Resp.ParseEncodedAll | cache/internal/resp/parser.go:28-96 | so is any list of concatenated encodings |
| Resp.ParsedInBounds | cache/internal/resp/parser.go:28-96 | whatever is parsed is in bounds |
| Resp.FramingExact | cache/internal/resp/parser.go:28-96 | a value is parsed back exactly when it is in bounds |
| Resp.CommandRoundTrip | cache/internal/resp/parser.go:101-117 | an encoded command is parsed to its arguments |
| Formats.RespBytes | cache/internal/resp/encoder.go:11-52 | the bytes of each kind of value |
| Formats.CommandBytes | cache/internal/resp/encoder.go:11-52 | an array is its length, then its items |
| Resp.Reader.ParseValue | cache/internal/resp/parser.go:28-96 | the reader consumes and returns what the definition on bytes says |
| Resp.Reader.ParseCommand | cache/internal/resp/parser.go:101-117 | the same for commands |
| Resp.Reader.ReadLine | cache/internal/resp/parser.go:119-125 | up to the line feed, carriage returns and line feeds trimmed |
| Resp.Writer.WriteValue | cache/internal/resp/encoder.go:11-52 | appends exactly the encoding |
| Resp.EncodeCommand | integration/cache_client.cpp:75-83 | the C++ client writes what the Go encoder writes for an array of bulk strings |
| Replies.ReplyExact | integration/cache_client.cpp:101-140 | the C++ client reads back what the Go server encodes, leaving what follows, exactly for non-arrays without line feeds in simple strings, 64-bit integers and bulk strings within the bound |
| Replies.ReadersAgree | integration/cache_client.cpp:85-140 | on in-bound non-arrays the C++ and the Go reader agree |
| Replies.StringByteReader.ReadLine | integration/cache_client.cpp:85-92 | up to the first line feed, at most one carriage return dropped |
| Replies.StringByteReader.ReadExact | integration/cache_client.cpp:94-99 | exactly that many bytes, or an error when fewer are left |
| Replies.StringByteReader.ParseReply | integration/cache_client.cpp:101-140 | the cursor reader reads what the definition on bytes reads, and fails exactly where it fails |
| SnapshotFormat.AppendEntry | cache/internal/persistence/snapshot.go:69-80 | appends one encoded entry |
| SnapshotFormat.SavePayload | cache/internal/persistence/snapshot.go:50-83 | header, entries and checksum of the listing |
| SnapshotFormat.LoadEntries | cache/internal/persistence/snapshot.go:123-181 | the entries decoded so far and the error, if any, for every byte string |
| SnapshotFormat.SnapshotRoundTrip | cache/internal/persistence/snapshot.go:50-201 | loading a saved payload returns the same entries in order, without sizes, and no error |
| Formats.HeaderBytes | cache/internal/persistence/snapshot.go:53-67 | magic, version and count, highest byte first |
| Formats.EntryBytes | cache/internal/persistence/snapshot.go:69-80 | key and value after their lengths, then flag and deadline |
| Formats.DeadlineBytes | cache/internal/persistence/snapshot.go:73-79 | a flag of 1 and 64 bits, two's complement |
| Formats.ChecksumBytes | cache/internal/persistence/snapshot.go:82-83 | the checksum of all before it ends the file |
| Formats.NothingUnchecked | cache/internal/persistence/snapshot.go:123-146 | nothing is loaded where length, checksum, magic or version is wrong |
| SnapshotLoading.RestoreAllFinds | cache/internal/storage/store.go:87-89 | in an empty store a key is found exactly with its last restored unexpired entry |
| SnapshotLoading.RestoreAllAccounted | cache/internal/storage/shard.go:256-268 | restoring distinct keys keeps every shard consistent |
| SnapshotLoading.ForEach | cache/internal/storage/store.go:91-97 | lists every unexpired entry of a store once, and nothing else |
| SnapshotLoading.ForEachInShard | cache/internal/storage/shard.go:270-283 | the same for one shard |
| SnapshotLoading.SaveThenLoad | cache/internal/persistence/snapshot.go:50-201 | saving any listing of distinct keys and loading it into an empty store finds exactly the listed entries not yet expired, values and deadlines unchanged |
| SnapshotLoading.SaveStoreThenLoad | cache/internal/persistence/snapshot.go:50-201 | saving what ForEach lists of a store and loading it later into an empty one finds, for every key, what the saved store would find then, without its size |
| SnapshotLoading.LoadedUsesNothing | cache/internal/persistence/snapshot.go:172-177 | loaded entries count no bytes |
| Calibration.FitMinimises | adaptive/calibration.cpp:56-72 | after three or more observations no line has a smaller total squared error |
| Calibration.BestLineUnique | adaptive/calibration.cpp:56-72 | unless all costs are equal it is the only such line |
| Calibration.DenominatorZero | adaptive/calibration.cpp:56-72 | the denominator is never negative, and zero exactly when all costs are equal |
| Calibration.NormalEquations | adaptive/calibration.cpp:56-72 | slope and intercept solve the normal equations, fallback included |
| Calibration.CalibrationModel.RecordObservation | adaptive/calibration.cpp:74-81 | the running sums are those of the observations so far, per kind |
| Calibration.CalibrationModel.CalibratedEstimateMs | adaptive/calibration.cpp:83-91 | the raw cost before three observations, then the point at that cost on the fitted line, which is a least-squares line |

## What the code does that one might not expect

Each line names the member that states exactly when it happens.

* With two conjuncts between the same two relations, or any other cycle, the chosen join plan drops a condition
  (`JoinMeaning.EveryEdgeUsedIffTree`), and with it rows may change (`DroppedConditions.SearchedPlanAnswersIff`, at an
  input `CycleLosesCondition`). 64 relations are never planned: the loop bound leaves out the full mask
  (`FindBestPlan`).
* A hash join is a candidate for any equality; if a side is not a column its executor throws, while a nested loop
  would run (`HashRefusal.EveryPlanRunsIff`, at an input `CheapestPlanRefused`).
* Greedy reordering invents a TRUE join and leaves a condition unused when some split of the operands is uncrossed
  (`Reorder.GreedyJoinOrder`); a condition over three tables may be put on two of them, where it throws
  (`GreedyScope.ScopedIffInPair`, at an input `ThreeTableConditionThrows`).
* Pushing a filter below a join may throw where the filter did not, and may hide a throw
  (`PushdownThrows.SentFiltersThrow`, `DistributeRuns`, at inputs `PushingThrows` and `PushingHidesThrow`).
* Hash join and shuffle compare key text, nested loop compares values (`Values.TextDecidesEquality`,
  `Executors.JoinsAgree`, `Exchange.ShuffleExact`, at inputs `Values.EqualityIgnoresText`).
* A table without `id` is replicated to every worker, and rows whose `id` is no Integer belong to nobody
  (`Partition.PartitionExact`).
* A shuffle throws when the condition is no equality of two columns (`RunShuffleJoin`).
* A NULL partial met first is never replaced in the MIN/MAX merge; a global AVG over nothing is merged to 0,
  where a single node gives NULL (`PartialAggregation.MergeIsAggregate`, at an input `AverageOfNothing`).
* A column name with a dot does not survive the wire (`WorkerPlans.NameRoundTrip`).
* NOT is printed without parentheses, so (NOT a) = b changes meaning in canonical text
  (`SqlParsed.ParsedRoundTrip`, at an input `NotUnderComparisonIsLost`).
* Control characters other than newline and tab are written as escapes the JSON reader does not decode
  (`Json.EchoExact`, for whole values `JsonRoundTrip`).
* `restoreEntry` does not subtract the size of a replaced entry (`CacheModel.RestoreAccounted`); loaded entries have
  size 0 (`SnapshotLoading.LoadedUsesNothing`); `incrBy` on an expired entry keeps the old deadline, so the increment
  is never seen (`CacheModel.IncrFound`).

## Left out

- JoinEnumeration.JoinEnumerator.FindBestPlan: optimality needs row estimates that depend only on the subset, which optimizer/cardinality_estimator.cpp:55-67 does not give for three or more relations; the memo is taken as fresh.
- JoinMeaning.PlanJoinSearch: the rows are claimed for qualified columns, distinct aliases, boolean conjuncts and join equalities of columns of one comparable kind, because text keys and value equality differ elsewhere; more than 64 relations overflow the mask and are excluded.
- Nests.ReorderJoins: outer joins, which stop the reordering of the nest around them, are not in the model; what Project, Sort and Aggregate make of another column order is left open, and so is throwing where a condition gives no boolean.
- Pushdown.PushdownPreservesThrowing: conditions that give no boolean on some stored row are covered one filter over one join at a time, by PushdownThrows, not over whole plans.
- Coordinator.RecoveryContext.RunShuffleJoin: a nested-loop condition needs keys that are equal only in equal text and columns found on their own sides, group keys of a skipped merge hold no separator character, and the catalog's column order must be the stored one.
- Coordinator.RecoveryContext.RunDistributedQuery: the answer is claimed for tables whose parts reassemble them and for aggregates no order of rows shows in (one key per group, no ties between kinds in MIN or MAX); HAVING, Project, Sort and Limit over the merged rows and the names of aggregate columns are not modelled; workers hold the data the coordinator holds. A single-node hash join is taken in build order, and only its bag is compared.
- SqlText.SqlRoundTrip: no Float literals, whose text the default stream precision rounds.
- Json.JsonRoundTrip: the text of a number that is no small integer is a parameter, read as an exact real: the rounding of `%.17g` and `stod` is not modelled, so the claim is for numbers written as one number.
- PlanJsonRoundTrip.PlanRoundTrip: the same holds for costs, confidences and float literals in the text; PlanBack has no such condition. Conversions are functions on values: filling objects in place is not modelled.
- Cache.Shard.Set: one reading of the clock per operation, where the source reads it twice; 64-bit overflow of sizes is not modelled; the recency list is a sequence, not linked nodes.
- StoreModel.RunIsTimedMap: INCR and RESTORE are not among its steps; each has its own lemma above.
- SnapshotFormat.SavePayload: no writer is active while a snapshot is taken; temporary files and renames are file I/O.
- Executors.HashJoinExec.Open: rows enter a bucket at any position, which covers the order of the source's multimap.
- Outer joins, subplans under an outer join, SortExec, ProjectExec and LimitExec; the executors do not look at the join type.
- Division by zero: `literal_div` gives an infinity or NaN, which exact reals do not have; the model gives no value.
- Aggregate functions with unknown names, and 64-bit overflow and rounding in arithmetic.
- Projection pushdown, because executors ignore `projected_columns`.
- Cardinality, selectivity and histogram formulas: estimators are arbitrary functions.
- FNV and CRC32: arbitrary functions, no collision claims.
- Sockets, HTTP, worker routes, bandit rewards, CSV and statistics files, command-line tools, the web interface.
- Lock order and data races in the store: each shard operation is one atomic step.
