# Verified models of libcudf's CI tooling, scripts and benchmarks

The project models seven pieces of the repository whose correctness rests on the code shown there rather
than on GPU kernels, and proves what they are for.

1. **NDS-H query plans** (`Calendar`, `Values`, `Schema`, `Relational`, `Grouping`, `Tables`, `GroupBy`,
   `Queries`, `NullRows`, `RevenueColumn`, `Answers`, `Q05`, `Q09`, `Q10`). Each query file carries SQL text
   and hand-writes a plan: filters pushed into scans or applied below joins, projections, left-deep or bushy
   joins, computed columns, a group-by and a sort. A row is a map from column names to values, a plan is a
   tree of scans and joins, and the SQL text means the cross product, filtered and grouped.
   `Relational.PlanIsSelection` compares the two by the multiplicity of every row; the programs are methods
   over tables with a list of names beside them. Each is proved, for all tables, to deliver the groups of
   what its plan tests, and it is proved when these are the rows of its SQL text. `Q05.IsGroup`,
   `Q09.IsGroup` and `Q10.IsGroup` write the rows out: their conditions between texts, dates and keys, their
   civil years, and their sums of numbers.
2. **Expression trees** (`ExpressionTrees`). Arenas grown by pushes with back references, against loops of
   column operations; both equal a closed form, nulls included, and each other.
3. **The GPU run-list audit** (`AuditReports`, `AuditJobs`, `AuditEvidence`, `AuditComplete`, `AuditFacts`,
   `AuditProposal`, `AuditProtocol`). Six stages accumulate errors over dictionaries, counts and sorts; there
   are none exactly when the evidence is complete. Set algebra then proposes lists, and a protocol over three
   files survives a stop at any point. `AuditComplete` and `AuditFacts` state all this in the fields of the
   report and the jobs.
4. **Ninja log threads** (`NinjaThreads`, `NinjaChart`). How many rows first fit by descending end time takes,
   exactly, when that is optimal, and that the chart overwrites every entry exactly once.
5. **IWYU output** (`IwyuLines`, `Iwyu`). A line state machine, post-processing and a printer that round-trips.
6. **Streaming group-by inputs** (`StreamingInputs`). Exact counts of composite keys, and capacities
   that are never exceeded.
7. **Ownership, indexes and chunks** (`TempFiles`, `CharCases`, `SkewedStrings`, `Chunks`).

`Sequences` and `Numbers` hold what several of them share. `dafny verify dfyconfig.toml` checks the whole project.

## Reading the model

- A column name is the pair of its table and its position there; every name of the schema belongs to one table.
- Numbers are reals, dates are day numbers, and a null is a value of its own. `Apply` and the aggregations
  propagate or skip nulls as libcudf does.
- libcudf calls are methods or functions whose contracts say what its documentation promises: a join delivers
  index pairs in no particular order, a group-by delivers groups in no particular order. The default null
  policies are those of `cpp/benchmarks/ndsh/utilities.hpp:98`, `cpp/include/cudf/groupby.hpp:121` and
  `cpp/include/cudf/aggregation.hpp:242`.
- Fields of JSON objects are missing, malformed or good, so that every `KeyError` and every type check of the
  audit has its branch.
- Randomness, the names that `mkstemp` picks, the contents of files and the order in which an unordered map is
  traversed are parameters.

## Where the code does not keep a promise

- The update instructions for the run list (`.agents/skills/update-cudf-polars-polars-tests-selection/SKILL.md:126`)
  say that a rerun against the candidate must report `current`. `AuditProposal.AuditOfProposal` proves that the
  rerun always proposes the same lists, and that it reports `current` exactly when every test that ran on the GPU
  is in the collection inventory or in a skipped module. The audit does not check that condition: it compares the
  tests with `collected_nodeids` and the lists with `collection_nodeids`. `AuditProposal.RerunCanDrift` is a report
  that passes every check and drifts again; `AuditProposal.AgreeingInventoriesSuffice` says when it cannot.
- `COUNT_ALL` of `apply_groupby` counts valid elements, not rows (`Values.CountAllIsRowCount`,
  `Values.CountAllMissesNull`).
- Joins treat null keys as equal, which SQL does not; `Grouping.NullPolicyMatters` says exactly when that shows
  in one join, `Grouping.NullKeysJoin` is an input, and `Q05.JoinedRowsIff`, `Q09.JoinedRowsIff` and
  `Q10.JoinedRowsIff` say exactly when it shows in the joined rows of a query. `NullRows.SumsDecide` says when it
  shows in the answer, and `Q05.NullLetThrough` is a database on which it does.
- Group-bys leave out null keys, which SQL groups; `Queries.AnswersIff` says that this shows for every null key,
  and `Q05.NullGroupLost` is a database on which it does.
- The split points of a chunked parquet file lie outside the table exactly when all chunks but the last, filled
  up, hold more rows than it has (`Chunks.SplitsValidIff`, `Chunks.FewRowsFail`).
- The chart of a Ninja log has one row more than needed exactly when an entry that never builds is listed after
  all of a largest set, not empty, of entries that build when it ends (`NinjaThreads.WastesAThreadIff`);
  `NinjaThreads.EmptyEntryCostsARow` is such a log.
- `segments_in_chunk` accepts negative chunk indexes and returns numbers below zero (`Chunks.SegmentsInFile`,
  `Chunks.NegativeChunk`).
- The files that the IWYU script prints come back from its own parser exactly when none of their printed lines is a
  header, which a line can become when it is stripped (`Iwyu.ParseOfOutput`, `Iwyu.ProcessTwice`);
  `Iwyu.HiddenHeaderLoses` is such a log.

## Model

| member | source | states |
|---|---|---|
| `Calendar.YearMeans` | cpp/benchmarks/ndsh/q09.cpp:278-279 | the year extracted from a day number is the one between whose first day and the next year's it lies, with first days counted by years of 365 or 366 days |
| `Calendar.QueryDates` | cpp/benchmarks/ndsh/q10.cpp:95-100 | the day numbers that queries 5 and 10 compare with are those of 1993-10-01, 1994-01-01 and 1995-01-01 |
| `Values.SumAndMean` | cpp/benchmarks/ndsh/utilities.cpp:246-251 | SUM is the sum of the numbers of a group and MEAN their average, and both are null without numbers |
| `Values.AggregatePermutes` | cpp/benchmarks/ndsh/utilities.cpp:246-254 | the order in which a join delivers a group's rows changes no aggregate |
| `Values.CountAllIsRowCount` | cpp/benchmarks/ndsh/utilities.cpp:252-254 | the count requested for COUNT_ALL is the number of rows exactly when the counted column has no null |
| `Values.CountAllMissesNull` | cpp/benchmarks/ndsh/utilities.cpp:252-254 | a group of two rows, one null: the program counts one |
| `Values.ValueLeMeans` | cpp/benchmarks/ndsh/utilities.cpp:286-287 | the order of a sort is nulls first, numbers and days by size, texts by the first differing character or by length |
| `Schema.SchemaListed` | cpp/benchmarks/ndsh/utilities.cpp:36-85 | the columns of every table are those names in that order |
| `Relational.PlanCount` | cpp/benchmarks/ndsh/q05.cpp:126-132 | a plan delivers a row as often as it can be assembled from stored rows that meet all conditions, wherever the plan tests them |
| `Relational.PlanIsSelection` | cpp/benchmarks/ndsh/q05.cpp:113-132 | a plan in any join order with filters at any depth delivers the combinations of stored rows that pass a test, each as often, exactly when its conditions amount to the test |
| `Relational.PlanMeetsSql` | cpp/benchmarks/ndsh/q05.cpp:113-132 | so it delivers the multiset of rows of the cross product filtered by WHERE exactly when its conditions amount to WHERE on every combination of stored rows |
| `Relational.ProjectionPushdown` | cpp/benchmarks/ndsh/utilities.cpp:307-323 | reading only some columns in every scan delivers the projection of what the plan over whole tables delivers |
| `Grouping.NullPolicyMatters` | cpp/benchmarks/ndsh/utilities.hpp:92-98 | the default null equality makes a join differ from SQL exactly when both inputs hold a matching key that contains a null |
| `Grouping.NullKeysJoin` | cpp/benchmarks/ndsh/utilities.hpp:92-98 | two rows with null keys that the program joins and SQL does not |
| `Grouping.GroupsPermute` | cpp/benchmarks/ndsh/utilities.cpp:262 | groups do not depend on the order of the rows |
| `Grouping.GroupsMap` | cpp/benchmarks/ndsh/q09.cpp:289-303 | groups do not depend on columns that no key and no request mentions |
| `Grouping.GroupRowAnswers` | cpp/benchmarks/ndsh/utilities.cpp:243-274 | a group's row holds its key and every requested aggregate under the requested name, and nothing else |
| `Grouping.RequestOrder` | cpp/benchmarks/ndsh/utilities.cpp:243-261 | any order of the requests gives the same rows by name |
| `Tables.TableWithNames.ColumnId` | cpp/benchmarks/ndsh/utilities.cpp:106-114 | the first column of that name, or an error exactly when there is none |
| `Tables.TableWithNames.Column` | cpp/benchmarks/ndsh/utilities.cpp:99-102 | the values that the rows hold under the name |
| `Tables.TableWithNames.Append` | cpp/benchmarks/ndsh/utilities.cpp:116-124 | one column more on the right, its name at the end, everything else as it was |
| `Tables.TableWithNames.Indexes` | cpp/benchmarks/ndsh/utilities.cpp:126-134 | resolves all names or fails exactly when one is missing |
| `Tables.PairsRange` | cpp/benchmarks/ndsh/utilities.cpp:160-165 | a join's index pairs are exactly the positions with equal keys |
| `Tables.JoinAndGather` | cpp/benchmarks/ndsh/utilities.cpp:150-182 | gathers both sides at a permutation of the matching index pairs and puts the columns side by side |
| `Tables.GatherIsJoin` | cpp/benchmarks/ndsh/utilities.cpp:150-182 | read by name, the gathered rows are those of the equi-join, as a multiset |
| `Tables.ApplyInnerJoin` | cpp/benchmarks/ndsh/utilities.cpp:184-215 | fails exactly on missing keys, key lists of different length or no keys; otherwise names match columns and the rows are those of the join |
| `Tables.EvaluateByName` | cpp/benchmarks/ndsh/q05.cpp:86-109 | a predicate over column positions means the same predicate over the names at those positions |
| `Tables.ApplyFilter` | cpp/benchmarks/ndsh/utilities.cpp:217-224 | keeps, in order, the rows on which the predicate is true, and the names; by name, if no two columns share one |
| `Tables.ApplyMask` | cpp/benchmarks/ndsh/utilities.cpp:226-232 | keeps, in order, the rows on which the mask is valid and true, and the names |
| `Tables.ColumnsRead` | cpp/benchmarks/ndsh/utilities.cpp:307-313 | the columns read: all of the file when none is listed, otherwise the listed ones that the file has, each once |
| `Tables.ReadParquet` | cpp/benchmarks/ndsh/utilities.cpp:307-323 | filters the stored rows and projects them on the columns read |
| `GroupBy.AddAggregations` | cpp/benchmarks/ndsh/utilities.cpp:245-259 | fails exactly on an unsupported kind; otherwise one kind and one name per aggregation, in order |
| `GroupBy.BuildRequests` | cpp/benchmarks/ndsh/utilities.cpp:240-261 | for any traversal of the value map, the k-th result name belongs to the k-th requested aggregation |
| `GroupBy.FlatMembers` | cpp/benchmarks/ndsh/utilities.cpp:243-261 | any traversal of the value map requests exactly the (column, kind, name) triples of the context |
| `GroupBy.CollectColumns` | cpp/benchmarks/ndsh/utilities.cpp:263-272 | key columns first, then one column per request in the order of the names |
| `GroupBy.ApplyGroupBy` | cpp/benchmarks/ndsh/utilities.cpp:234-275 | fails exactly on missing columns, unsupported kinds, or rows and requests without key columns; otherwise every result column holds the aggregate whose name it bears, for every group without null keys, whatever the traversal order |
| `GroupBy.GroupTableIsGroups` | cpp/benchmarks/ndsh/utilities.cpp:234-275 | that table, read by name, is GROUP BY over the rows without null keys, each group once |
| `GroupBy.KeyLeOrder` | cpp/benchmarks/ndsh/utilities.cpp:286-287 | comparison by several keys, each in its direction, is a total preorder |
| `GroupBy.KeyLeMeans` | cpp/benchmarks/ndsh/utilities.cpp:286-287 | keys are in order exactly when they are the same or the first that differs is smaller for ascending and larger for descending |
| `GroupBy.ApplyOrderBy` | cpp/benchmarks/ndsh/utilities.cpp:277-289 | fails exactly on a missing key or, with rows to sort, without keys or with another number of orders than keys; otherwise the same rows and names, of which an earlier and a later one have the same keys or first differ in the direction of that key, ascending when no order is given |
| `Queries.PlanDelivers` | cpp/benchmarks/ndsh/q05.cpp:126-145 | computing columns on a plan's rows, in any order, and grouping them gives the groups of the combinations that pass its tests, for all tables |
| `Queries.JoinedRowsMeetSql` | cpp/benchmarks/ndsh/q05.cpp:126-132 | a plan that tests no more than WHERE delivers the selected columns of exactly the rows of FROM and WHERE if and only if its conditions amount to WHERE |
| `Queries.NullsDecide` | cpp/benchmarks/ndsh/utilities.hpp:92-98 | for such a plan, if and only if no combination of stored rows passes its tests with a null in a compared column |
| `Queries.AnswersIff` | cpp/benchmarks/ndsh/q05.cpp:139-145 | on the rows of FROM and WHERE, the groups without null keys are the answer of the SQL text exactly when no group key is null |
| `Queries.DeliveredIsAnswer` | cpp/benchmarks/ndsh/q05.cpp:29-52 | where no null passes the tests, a program delivers the answer of the SQL text exactly when no group key is null |
| `NullRows.SumsDiffer` | cpp/benchmarks/ndsh/q05.cpp:139-145 | one combination that the tests let into a group and WHERE does not changes the group's sum, if such combinations have positive values |
| `NullRows.NoExtraAnswers` | cpp/benchmarks/ndsh/q05.cpp:29-52 | for any requests, a program answers its query if no combination passes with a null compared column in a group without null keys, and no group key is null |
| `NullRows.SumsDecide` | cpp/benchmarks/ndsh/q05.cpp:29-52 | for one sum, if such combinations have positive values, that is the only way: the delivered groups are the SQL answer exactly then |
| `Queries.StoredKeysNonNull` | cpp/benchmarks/ndsh/q05.cpp:141-145 | group keys that are stored columns without nulls lose no group to the default null policy |
| `Queries.JoinStep` | cpp/benchmarks/ndsh/utilities.cpp:184-215 | one apply_inner_join over tables that hold two plans' rows does not fail and holds the rows of their join |
| `Queries.MaskDelivers` | cpp/benchmarks/ndsh/q09.cpp:255-257 | masking a whole scan is a scan with that filter |
| `Queries.Read` | cpp/benchmarks/ndsh/utilities.cpp:307-323 | one read with projection and filter holds the rows of the scan with both |
| `RevenueColumn.AppendRevenue` | cpp/benchmarks/ndsh/q05.cpp:134-137 | the table gains a column that holds l_extendedprice * (1 - l_discount) row by row |
| `RevenueColumn.GroupRevenue` | cpp/benchmarks/ndsh/q05.cpp:139-145 | the sums of the revenue per key, each key once |
| `Answers.SumGroups` | cpp/benchmarks/ndsh/q05.cpp:139-145 | the groups of a query with one sum are, for every combination, its key and the sum of the values of the combinations with that key |
| `Q05.PredicatesByName` | cpp/benchmarks/ndsh/q05.cpp:85-109 | the pushed-down predicates test the named columns of the WHERE clause |
| `Q05.PlanTestsAreWhere` | cpp/benchmarks/ndsh/q05.cpp:126-132 | WHERE is what the joins and filters test without nulls in the compared columns, although c_nationkey is never compared with s_nationkey |
| `Q05.PassesMeans` | cpp/benchmarks/ndsh/q05.cpp:85-132 | the plan's tests, and WHERE without nulls in the compared columns, are region ASIA, an order date from 1994-01-01 and before 1995-01-01 and equal keys |
| `Q05.JoinedRowsIff` | cpp/benchmarks/ndsh/q05.cpp:113-132 | the joined rows are those of FROM and WHERE exactly when no combination of stored rows passes the tests with a null in a compared column |
| `Q05.CleanTables` | cpp/benchmarks/ndsh/q05.cpp:29-52 | tables without nulls in the compared columns and in n_name are such tables, and have no null group key |
| `Q05.Decided` | cpp/benchmarks/ndsh/q05.cpp:29-52 | when the delivered groups are the SQL rows: where no null passes, exactly when no group key is null; where every passing combination that SQL leaves out and cudf groups has a positive value, exactly when there is none and no group key is null |
| `Q05.PricesDecide` | cpp/benchmarks/ndsh/q05.cpp:29-52 | with positive prices and discounts below one, that decides all tables |
| `Q05.NullLetThrough` | cpp/benchmarks/ndsh/q05.cpp:29-52 | six tables of one row each, two null customer keys: the program sums a revenue that SQL does not |
| `Q05.NullGroupLost` | cpp/benchmarks/ndsh/q05.cpp:29-52 | six tables of one row each, a nation without a name: SQL has a group that the program lacks |
| `Q05.JoinTables` | cpp/benchmarks/ndsh/q05.cpp:113-132 | the reads and joins do not fail and hold the rows of the left-deep plan, which are those of FROM and WHERE under that condition and no other |
| `Q05.GroupsMean` | cpp/benchmarks/ndsh/q05.cpp:134-145 | the delivered rows are the nations that are not null with the sums of price * (1 - discount) of their passing combinations |
| `Q05.RunQ5` | cpp/benchmarks/ndsh/q05.cpp:82-153 | for all tables, the groups of the combinations that pass the plan's tests, each once, written out, and of two rows the earlier has the larger revenue, an equal one, or the later has none; where no null passes, they are the rows of the SQL text of lines 29-52 exactly when no group key is null; and the same where nulls pass with positive values, exactly when none does in a delivered group |
| `Q10.PredicatesByName` | cpp/benchmarks/ndsh/q10.cpp:90-111 | the pushed-down predicates test the named columns, l_returnflag by its position in the projection |
| `Q10.PlanTestsAreWhere` | cpp/benchmarks/ndsh/q10.cpp:127-130 | WHERE is what the bushy plan tests without nulls in the compared columns |
| `Q10.PassesMeans` | cpp/benchmarks/ndsh/q10.cpp:90-130 | the plan's tests, and WHERE without nulls in the compared columns, are return flag R, an order date from 1993-10-01 and before 1994-01-01 and equal keys |
| `Q10.JoinedRowsIff` | cpp/benchmarks/ndsh/q10.cpp:113-130 | the joined rows are those of FROM and WHERE exactly when no combination of stored rows passes the tests with a null in a compared column |
| `Q10.CleanTables` | cpp/benchmarks/ndsh/q10.cpp:27-57 | tables without nulls in the compared and the grouped columns are such tables, and have no null group key |
| `Q10.Decided` | cpp/benchmarks/ndsh/q10.cpp:27-57 | when the delivered groups are the SQL rows: where no null passes, exactly when no group key is null; where every passing combination that SQL leaves out and cudf groups has a positive value, exactly when there is none and no group key is null |
| `Q10.PricesDecide` | cpp/benchmarks/ndsh/q10.cpp:27-57 | with positive prices and discounts below one, that decides all tables |
| `Q10.JoinTables` | cpp/benchmarks/ndsh/q10.cpp:113-130 | the reads and joins do not fail and hold the rows of the bushy plan, which are those of FROM and WHERE under that condition and no other |
| `Q10.GroupsMean` | cpp/benchmarks/ndsh/q10.cpp:132-145 | the delivered rows are the seven columns, none null, with the sums of price * (1 - discount) of their passing combinations |
| `Q10.RunQ10` | cpp/benchmarks/ndsh/q10.cpp:87-152 | for all tables, the groups of the combinations that pass the plan's tests, each once, written out, and of two rows the earlier has the larger revenue, an equal one, or the later has none; where no null passes, they are the rows of the SQL text of lines 27-57 exactly when no group key is null; and the same where nulls pass with positive values, exactly when none does in a delivered group |
| `Q09.PlanTestsAreWhere` | cpp/benchmarks/ndsh/q09.cpp:259-265 | WHERE is what the two subtrees test without nulls in the compared columns, although ps_suppkey is compared with s_suppkey |
| `Q09.PassesMeans` | cpp/benchmarks/ndsh/q09.cpp:253-265 | the plan's tests, and WHERE without nulls in the compared columns, are a part name with the word green in it and equal keys |
| `Q09.JoinedRowsIff` | cpp/benchmarks/ndsh/q09.cpp:228-266 | the joined rows are those of FROM and WHERE exactly when no combination of stored rows passes the tests with a null in a compared column |
| `Q09.CleanTables` | cpp/benchmarks/ndsh/q09.cpp:61-92 | tables with order dates and without nulls in the compared columns and in n_name are such tables, and have no null group key |
| `Q09.Decided` | cpp/benchmarks/ndsh/q09.cpp:61-92 | when the delivered groups are the SQL rows: where no null passes, exactly when no group key is null; where every passing combination that SQL leaves out and cudf groups has a positive value, exactly when there is none and no group key is null |
| `Q09.ComputeAmountBinaryop` | cpp/benchmarks/ndsh/q09.cpp:105-135 | four column operations compute price * (1 - discount) - cost * quantity on every row |
| `Q09.ComputeAmountTransform` | cpp/benchmarks/ndsh/q09.cpp:137-170 | the row function computes the same column |
| `Q09.ExpandedAmount` | cpp/benchmarks/ndsh/q09.cpp:190-203 | the expanded product, with the quantity cast, is the same value, nulls included |
| `Q09.ComputeAmountAst` | cpp/benchmarks/ndsh/q09.cpp:172-206 | the pushed tree denotes the same column |
| `Q09.ComputeAmount` | cpp/benchmarks/ndsh/q09.cpp:208-226 | every engine computes the same column |
| `Q09.LikeMask` | cpp/benchmarks/ndsh/q09.cpp:255-256 | the mask of column 1 holds the LIKE test of p_name on every row |
| `Q09.FilterPart` | cpp/benchmarks/ndsh/q09.cpp:253-257 | the filtered part table holds the rows of a scan with the LIKE filter |
| `Q09.JoinTables` | cpp/benchmarks/ndsh/q09.cpp:228-266 | the reads, the mask and the five joins do not fail and hold the rows of the plan with two subtrees, which are those of FROM and WHERE under that condition and no other |
| `Q09.ProfitTable` | cpp/benchmarks/ndsh/q09.cpp:275-297 | the new table holds nation, o_year and amount of every joined row; o_year is the civil year in which the order date lies |
| `Q09.GroupProfit` | cpp/benchmarks/ndsh/q09.cpp:299-303 | the sums of the amounts per nation and year, each once |
| `Q09.GroupsMean` | cpp/benchmarks/ndsh/q09.cpp:275-303 | the delivered rows are a nation that is not null and a civil year with the sum of price * (1 - discount) - cost * quantity of the passing combinations ordered in that year |
| `Q09.RunQ9` | cpp/benchmarks/ndsh/q09.cpp:228-308 | for every engine and all tables, the groups of the combinations that pass the plan's tests, each once, written out with their civil year; of two rows the earlier has the smaller nation or the same with a year no smaller; where no null passes, they are the rows of the SQL text of lines 61-92 exactly when no group key is null; and the same where nulls pass with positive values, exactly when none does in a delivered group |
| `ExpressionTrees.DenoteStable` | cpp/benchmarks/ast/polynomials.cpp:69-81 | later pushes do not change what an expression denotes |
| `ExpressionTrees.HornerStep` | cpp/benchmarks/ast/polynomials.cpp:73 | multiplying by x and adding a constant extends the sum of the constants times powers of x |
| `ExpressionTrees.BuildPolynomial` | cpp/benchmarks/ast/polynomials.cpp:69-81 | for every order the tree's last expression denotes the sum of c_i * x^(order - i), or null |
| `ExpressionTrees.PolynomialColumns` | cpp/benchmarks/binaryop/polynomials.cpp:62-80 | for every order the loop computes that sum on every row |
| `ExpressionTrees.BuildAddChain` | cpp/benchmarks/ast/transform.cpp:70-93 | the tree denotes the sum of all columns, null if one is null |
| `ExpressionTrees.AddChainColumns` | cpp/benchmarks/binaryop/binaryop.cpp:57-60 | the loop computes that sum on every row |
| `ExpressionTrees.BuildReuseChain` | cpp/benchmarks/ast/transform.cpp:80-84 | the tree denotes tree_levels + 1 times the one column, and twice for fewer than one level |
| `ExpressionTrees.ReuseChainColumns` | cpp/benchmarks/binaryop/binaryop.cpp:51-55 | the loop computes that multiple on every row, for any tree_levels |
| `ExpressionTrees.BuildAndChain` | cpp/benchmarks/ast/transform.cpp:150-169 | the tree denotes whether all pairs of columns are equal, null if an element is null |
| `ExpressionTrees.AndChainColumns` | cpp/benchmarks/binaryop/binaryop.cpp:106-120 | the loop computes the same, with the operands of every conjunction in the other order |
| `ExpressionTrees.PolynomialBothWays` | cpp/benchmarks/ast/polynomials.cpp:69-94 | the built tree and the loop of cpp/benchmarks/binaryop/polynomials.cpp compute the same column, for every order and all values |
| `ExpressionTrees.AddChainBothWays` | cpp/benchmarks/ast/transform.cpp:70-93 | the built tree and the loop of cpp/benchmarks/binaryop/binaryop.cpp compute the same column, for any number of columns |
| `ExpressionTrees.ReuseChainBothWays` | cpp/benchmarks/ast/transform.cpp:80-84 | the same with one column reused |
| `ExpressionTrees.AndChainBothWays` | cpp/benchmarks/ast/transform.cpp:150-169 | the same for the conjunction of comparisons, whose operands the loop swaps |
| `AuditReports.ExecutionCategory` | ci/analyze_cudf_polars_fallbacks.py:439-451 | unknown exactly when one of the three signals is; otherwise a GPU category exactly for executed tests, mixed exactly with fallback, and attempted exactly for attempts without success |
| `AuditReports.DefaultKey` | ci/analyze_cudf_polars_fallbacks.py:182-190 | the key of a default run is its version followed by `\|spmd\|default` |
| `AuditReports.KeyMeans` | ci/analyze_cudf_polars_fallbacks.py:182-190 | the key of any engine: version, engine and default, or for a variant behind spmd- the parts around its last dash |
| `AuditReports.KeySplits` | ci/analyze_cudf_polars_fallbacks.py:285-294 | splitting a key at its first bar gives the default configuration exactly when the version holds no bar |
| `AuditReports.GroupTests` | ci/analyze_cudf_polars_fallbacks.py:214-218 | every selected run gets exactly its tests, in order |
| `AuditReports.BuildReport` | ci/analyze_cudf_polars_fallbacks.py:76-179 | readable files contribute their run and a permutation of their tests, sorted; the others are listed |
| `AuditReports.RunsKeepTheirTests` | ci/analyze_cudf_polars_fallbacks.py:91-112 | with distinct file names the audit finds for a run exactly the tests of its own file |
| `AuditReports.SegmentStart` | ci/analyze_cudf_polars_fallbacks.py:343 | the configuration starts after the last separator of the job name |
| `AuditReports.LastPartMeans` | ci/analyze_cudf_polars_fallbacks.py:343 | the last segment is the shortest part after a separator, or the whole name |
| `AuditJobs.OneToOneDecided` | ci/analyze_cudf_polars_fallbacks.py:327-347 | comparing sets, counts and looked-up names decides whether runs and jobs correspond one to one by id and configuration |
| `AuditJobs.MatchRuns` | ci/analyze_cudf_polars_fallbacks.py:327-347 | no error exactly when there are producers, all succeeded, and they correspond one to one to the runs |
| `AuditJobs.CheckJobs` | ci/analyze_cudf_polars_fallbacks.py:295-347 | no error exactly when the relevant jobs are well formed, distinct and successful and those that are no helpers correspond to the runs |
| `AuditEvidence.MetadataPasses` | ci/analyze_cudf_polars_fallbacks.py:222-241 | the first chain of conditions rejects or raises exactly on runs that are not fully described |
| `AuditEvidence.OncePerTest` | ci/analyze_cudf_polars_fallbacks.py:248-251 | the comparisons of counts and sets pass exactly when every inventoried test is reported once |
| `AuditEvidence.FullSuitePasses` | ci/analyze_cudf_polars_fallbacks.py:242-256 | the second chain passes exactly on full, consistent runs that exited zero and report each test once with complete telemetry |
| `AuditEvidence.JudgeRun` | ci/analyze_cudf_polars_fallbacks.py:220-260 | one turn of the loop adds no error exactly for a sound run |
| `AuditEvidence.ValidateRuns` | ci/analyze_cudf_polars_fallbacks.py:219-260 | no error exactly when all runs are sound, and then the cohorts partition the runs |
| `AuditEvidence.SortedIsRange` | ci/analyze_cudf_polars_fallbacks.py:262-264 | the sorted shard ids equal the range exactly when each id from 0 to n - 1 occurs once |
| `AuditEvidence.CheckCohort` | ci/analyze_cudf_polars_fallbacks.py:261-274 | no error exactly when the shards are 0 to n - 1 for one n and share one collection and one list of skips |
| `AuditEvidence.CheckRevisions` | ci/analyze_cudf_polars_fallbacks.py:275-284 | no error exactly when there are runs, one cuDF revision, and one upstream revision per version |
| `AuditEvidence.CheckKeys` | ci/analyze_cudf_polars_fallbacks.py:285-294 | no error exactly when there are cohorts and every key splits into the default configuration |
| `AuditEvidence.CohortMeaning` | ci/analyze_cudf_polars_fallbacks.py:257-258 | runs share a cohort exactly when they share version and configuration |
| `AuditEvidence.CheckSuites` | ci/analyze_cudf_polars_fallbacks.py:261-294 | the checks over cohorts pass exactly when every run belongs to a whole suite and the revisions agree |
| `AuditEvidence.FindErrors` | ci/analyze_cudf_polars_fallbacks.py:193-348 | the audit finds no error exactly when the evidence is complete |
| `AuditComplete.RunMeans` | ci/analyze_cudf_polars_fallbacks.py:219-260 | a run passes, and its version has no bar, exactly when it is described, full and zero, and the report has one test of its name for each inventoried node, no other, and all signals |
| `AuditComplete.SuiteMeans` | ci/analyze_cudf_polars_fallbacks.py:261-274 | a suite is whole exactly when the default runs of one version and configuration have every shard id once and agree on number, collection and skips |
| `AuditComplete.JobsMean` | ci/analyze_cudf_polars_fallbacks.py:295-347 | runs and jobs match exactly when every relevant job succeeded under its own id, and by decimal id and last part of the name every producer has a run, every run a producer, and no two runs the same one |
| `AuditComplete.EvidenceMeans` | ci/analyze_cudf_polars_fallbacks.py:193-348 | the evidence is complete exactly when all this holds of the fields of report and jobs, with one cuDF revision and one upstream revision per version |
| `AuditProposal.NodesBalance` | ci/analyze_cudf_polars_fallbacks.py:360-382 | the new list is the old one plus the added minus the lost and stale nodes, exactly when no stale node ran on the GPU |
| `AuditProposal.NoDriftIsUnchanged` | ci/analyze_cudf_polars_fallbacks.py:370-431 | nothing added, lost or stale exactly when the list stays as it is and no stale node ran on the GPU |
| `AuditProposal.AuditAgain` | ci/analyze_cudf_polars_fallbacks.py:360-431 | one key, audited again against its new list, keeps that list, and drifts exactly when a GPU test is not inventoried |
| `AuditProposal.ObservedMeans` | ci/analyze_cudf_polars_fallbacks.py:356-378 | what a key's runs observed is what the report says: a node ran on the GPU, was exercised, is collected or lies in a skipped module, by tests and runs of that key |
| `AuditProposal.ProposeKey` | ci/analyze_cudf_polars_fallbacks.py:357-420 | one turn of the loop lists a node exactly when a default test of the key executed it on the GPU, or it was listed, was only skipped and still exists; added, lost, stale and unobserved nodes likewise |
| `AuditProposal.ProposeObserved` | ci/analyze_cudf_polars_fallbacks.py:355-420 | exactly the observed keys get such lists and differences |
| `AuditProposal.Retain` | ci/analyze_cudf_polars_fallbacks.py:421-426 | exactly the other maintained keys of the default configuration are retained, unchanged |
| `AuditProposal.AuditReport` | ci/analyze_cudf_polars_fallbacks.py:193-436 | no error exactly for complete evidence; then, in the fields of the report, which nodes are listed under which keys, which are added, lost, stale and unobserved, which keys are kept, and drift exactly when some node is added, lost or stale |
| `AuditProposal.ProposalMeans` | ci/analyze_cudf_polars_fallbacks.py:355-436 | the proposal and the drift of complete evidence, node by node and key by key, with keys kept by their literal suffix |
| `AuditProposal.CurrentIsUnchanged` | ci/analyze_cudf_polars_fallbacks.py:427-436 | current exactly when every observed list is unchanged and no stale node ran on the GPU |
| `AuditProposal.AuditOfProposal` | ci/analyze_cudf_polars_fallbacks.py:355-436 | auditing the same report against its proposal proposes the same lists, and is current exactly when every GPU test is inventoried |
| `AuditProposal.InventoriedMeans` | ci/analyze_cudf_polars_fallbacks.py:360-382 | every GPU test is inventoried exactly when every node executed on the GPU is collected or under a skipped module of its key |
| `AuditProposal.AuditTwice` | ci/analyze_cudf_polars_fallbacks.py:193-436 | an audit and a second one against what the first proposed: the same lists, no error, and status current or drift exactly by whether every GPU test is inventoried |
| `AuditProposal.AuditFiles` | ci/analyze_cudf_polars_fallbacks.py:76-436 | combining files with distinct names and auditing the report: unless the audit is incomplete, every default run's own file reports each test of its inventory exactly once |
| `AuditProposal.AgreeingInventoriesSuffice` | ci/analyze_cudf_polars_fallbacks.py:242-256 | complete evidence whose runs select from what they collect inventories every GPU test |
| `AuditProposal.RerunCanDrift` | ci/analyze_cudf_polars_fallbacks.py:363-378 | accepted evidence whose rerun against its own proposal drifts |
| `AuditProtocol.InvStep` | ci/analyze_cudf_polars_fallbacks.py:502-579 | every file step keeps the invariant |
| `AuditProtocol.CrashSafety` | ci/analyze_cudf_polars_fallbacks.py:503-564 | wherever a run stops after its first step, a candidate is there only for complete evidence and beside this run's audit, and the run list is touched only after a whole candidate |
| `AuditProtocol.ExitsZeroIff` | ci/analyze_cudf_polars_fallbacks.py:557-579 | a finished audit exits with 0 or 1, and with 0 exactly when the inputs were read, the evidence is complete and, if lists were audited, no node drifted |
| `AuditProtocol.SuccessMeans` | ci/analyze_cudf_polars_fallbacks.py:557-579 | exit status zero means complete evidence, no drift against an audited list, and everything asked for on disk |
| `AuditProtocol.EveryRunEnds` | ci/analyze_cudf_polars_fallbacks.py:502-579 | no run has more than eleven steps, and one that has not exited has a next step |
| `NinjaThreads.FirstAvailable` | cpp/scripts/sort_ninja_log.py:94-99 | the first thread that starts no earlier than the entry ends, if any |
| `NinjaThreads.DepthIsNeeded` | cpp/scripts/sort_ninja_log.py:78-79 | any valid assignment has at least as many threads as entries that build at one time |
| `NinjaThreads.EarlyApart` | cpp/scripts/sort_ninja_log.py:93-104 | the entries listed before that start before an entry ends are in rows of their own, other than its row |
| `NinjaThreads.ReuseThread` | cpp/scripts/sort_ninja_log.py:95-99 | reusing a thread keeps the rows exact, ordered, without overlap and as many as the count |
| `NinjaThreads.OpenThread` | cpp/scripts/sort_ninja_log.py:101-104 | opening a thread does too: the last entries of all rows start before the entry ends |
| `NinjaThreads.RowsAreDepth` | cpp/scripts/sort_ninja_log.py:80-115 | the number of rows, exactly: the greatest number of entries that build at one time, and one more exactly when an entry that never builds is listed after all of a largest set that builds at its end |
| `NinjaThreads.AssignEntriesToThreads` | cpp/scripts/sort_ninja_log.py:80-115 | the rows of first fit by descending end: an exact partition without overlap, exactly as many rows as the greatest number of entries listed before one entry that start before it ends, that entry included, the depth or one more by that condition, and the last end time |
| `NinjaThreads.NoFewerThreads` | cpp/scripts/sort_ninja_log.py:80-115 | no valid assignment uses fewer threads than the returned rows unless that condition holds, and none ever does for proper entries |
| `NinjaThreads.DepthSuffices` | cpp/scripts/sort_ninja_log.py:78-79 | as many threads as entries that build at one time are enough for a valid assignment, though never none |
| `NinjaThreads.WastesAThreadIff` | cpp/scripts/sort_ninja_log.py:80-115 | some valid assignment uses fewer threads than the returned rows exactly when something builds and that condition holds |
| `NinjaThreads.EmptyEntryCostsARow` | cpp/scripts/sort_ninja_log.py:93-104 | a log of two entries that never build at one time, one of them empty, whose returned rows are two |
| `NinjaChart.ScanFindsLastBuild` | cpp/scripts/sort_ninja_log.py:45-62 | the scan keeps the first entry per command of the last stretch in which time does not go back |
| `NinjaChart.BuildLogMap` | cpp/scripts/sort_ninja_log.py:41-68 | the map holds, per object file, the last of those entries |
| `NinjaChart.Metrics.DrawRow` | cpp/scripts/sort_ninja_log.py:182-255 | one row reads only entries that still hold times, by start time, and overwrites and counts exactly its names |
| `NinjaChart.TallyTotal` | cpp/scripts/sort_ninja_log.py:173-229 | the four colour counts add up to the number of entries |
| `NinjaChart.Metrics.DrawChart` | cpp/scripts/sort_ninja_log.py:180-258 | afterwards every entry holds the difference of its times, its colour by the three limits and its size, and the counts are those of the entries between the limits |
| `NinjaChart.Metrics.OutputHtml` | cpp/scripts/sort_ninja_log.py:160-258 | the same from the assignment on, for any nonempty table |
| `IwyuLines.PathBeforeWritten` | cpp/scripts/parse_iwyu_output.py:36-47 | a written add or remove header is recognised with its path |
| `IwyuLines.PathAfterWritten` | cpp/scripts/parse_iwyu_output.py:49 | a written include-list header is recognised |
| `IwyuLines.PathBeforeMeans` | cpp/scripts/parse_iwyu_output.py:36-47 | the add and remove patterns match exactly the lines that begin with a path and the words |
| `IwyuLines.PathAfterMeans` | cpp/scripts/parse_iwyu_output.py:49 | the include-list pattern matches exactly the lines that begin with the words, a path and a colon |
| `IwyuLines.StripMeans` | cpp/scripts/parse_iwyu_output.py:52-63 | stripping takes white space from both ends and nothing else |
| `IwyuLines.IncludeMeans` | cpp/scripts/parse_iwyu_output.py:22-27 | the extracted name is the one of the first place that reads as the directive, white space, a delimiter, a name without delimiters and a closing delimiter; none exactly when there is no such place |
| `Iwyu.TokenMeans` | cpp/scripts/parse_iwyu_output.py:34-75 | every line is read as the one kind that the patterns say in their order, and is passed on exactly when it is not blank and holds none of three messages |
| `Iwyu.ParseWellFormed` | cpp/scripts/parse_iwyu_output.py:30-77 | after any lines, the order lists every file once and every file has a path |
| `Iwyu.IncludeModifications.ParseOutput` | cpp/scripts/parse_iwyu_output.py:30-77 | the loop computes the state machine's files, lists and echoed lines |
| `Iwyu.PostProcessOne` | cpp/scripts/parse_iwyu_output.py:82-113 | one file: no duplicates; a line goes exactly when a line of the other list includes the same name between delimiters, and from the include list exactly when an addition does; its order is kept |
| `Iwyu.ProcessedMeans` | cpp/scripts/parse_iwyu_output.py:95-113 | which lines of one file go, by the names that they include |
| `Iwyu.NothingInBoth` | cpp/scripts/parse_iwyu_output.py:95-113 | no line that is left in the additions includes the same name as one in the removals or in the include list |
| `Iwyu.IncludeModifications.PostProcess` | cpp/scripts/parse_iwyu_output.py:80-113 | every file is rewritten that way, in place |
| `Iwyu.IncludeModifications.WriteOutput` | cpp/scripts/parse_iwyu_output.py:116-131 | the blocks of the files with removals, in order |
| `Iwyu.BlockReads` | cpp/scripts/parse_iwyu_output.py:118-131 | a block reads as its headers and its plain lines, verbatim |
| `Iwyu.RunWeight` | cpp/scripts/parse_iwyu_output.py:57-69 | any run of the parser collects at most as many lines as are neither headers nor end marks |
| `Iwyu.ParseOfOutput` | cpp/scripts/parse_iwyu_output.py:30-131 | for everything the parser can have collected: parsing what was printed returns exactly the files with removals, in order, their removals and a blank line, and their include lists, if and only if no line of these lists is a header or the end mark |
| `Iwyu.RoundTrip` | cpp/scripts/parse_iwyu_output.py:80-131 | after post-processing, removals and include list are those that carry an include; they are unchanged exactly when all do; no addition remains |
| `Iwyu.PrintAndReparse` | cpp/scripts/parse_iwyu_output.py:153-155 | printing, parsing and post-processing all files: they come back exactly under that condition, and then without additions and with the removals and include lines that carry an include, unchanged exactly when all do |
| `Iwyu.LogIsStripped` | cpp/scripts/parse_iwyu_output.py:57-69 | whatever the log, the collected lines have no white space around them |
| `Iwyu.CarryIff` | cpp/scripts/parse_iwyu_output.py:88-113 | after post-processing every removal, or every line of the include list, carries an include exactly when the additions had a line without one or the list had none |
| `Iwyu.CarriesMeans` | cpp/scripts/parse_iwyu_output.py:22-27 | a line carries an include exactly when a name is found in it |
| `Iwyu.ProcessTwice` | cpp/scripts/parse_iwyu_output.py:134-155 | the script on any log and again on its own output: the files with removals come back exactly when none of their printed lines is a header; then a list is the same exactly when the additions had a line without an include or the list had none |
| `Iwyu.HiddenHeaderParses` | cpp/scripts/parse_iwyu_output.py:34-60 | for every path, a log whose one removal is an add header behind a space: it is collected as a removal |
| `Iwyu.HiddenHeaderLoses` | cpp/scripts/parse_iwyu_output.py:116-131 | the first run prints it as a header, and the file does not come back |
| `StreamingInputs.RunStreamingGroupby` | cpp/benchmarks/groupby/streaming_groupby.cpp:54-75 | succeeds exactly when there is data, no batch exceeds the capacity and all distinct keys together do not |
| `StreamingInputs.MakeBatches` | cpp/benchmarks/groupby/streaming_groupby.cpp:36-44 | the batches concatenate to the input, and all but the last have the batch size |
| `StreamingInputs.AdmissibleMeans` | cpp/benchmarks/groupby/streaming_groupby.cpp:155-179 | the admissible keys are exactly those that some group and some null pattern give |
| `StreamingInputs.BoundIsExact` | cpp/benchmarks/groupby/streaming_groupby.cpp:211-216 | the computed bound is the number of admissible keys |
| `StreamingInputs.ConvertedCount` | cpp/benchmarks/groupby/streaming_groupby.cpp:166-176 | date and string conversion preserve the number of distinct keys |
| `StreamingInputs.MakeCardinalityInputs` | cpp/benchmarks/groupby/streaming_groupby.cpp:142-179 | row i holds quotient and remainder of its group: null where its mask says so, and otherwise a number, a day in the first column of dates and strings, or decimal digits |
| `StreamingInputs.KeysBounded` | cpp/benchmarks/groupby/streaming_groupby.cpp:211-218 | no input has more distinct keys than the bound |
| `StreamingInputs.BenchCardinality` | cpp/benchmarks/groupby/streaming_groupby.cpp:196-236 | skipped exactly for parameters that are not positive; otherwise no batch is refused, whatever is drawn |
| `StreamingInputs.PaddedInjective` | cpp/benchmarks/groupby/streaming_groupby.cpp:275-289 | padding decimals on the right keeps them distinct, for any width |
| `StreamingInputs.LongKeyMeans` | cpp/benchmarks/groupby/streaming_groupby.cpp:275-293 | a long key is the number in decimal digits filled up with # to the width, and in a struct the number beside it |
| `StreamingInputs.LongKeyCount` | cpp/benchmarks/groupby/streaming_groupby.cpp:272-296 | as many distinct keys as rows, or as the first batch has rows |
| `StreamingInputs.BenchLongString` | cpp/benchmarks/groupby/streaming_groupby.cpp:265-305 | no batch is refused; the groups are the long keys of the first numbers, as many as computed |
| `Numbers.DecimalInjective` | cpp/benchmarks/groupby/streaming_groupby.cpp:284 | different numbers print differently |
| `Numbers.DecimalMeans` | cpp/benchmarks/groupby/streaming_groupby.cpp:284 | printing gives the one text of digits without leading zero that stands for the number |
| `TempFiles.ApplyKeeps` | cpp/benchmarks/io/cuio_common.cpp:49-94 | every operation keeps one owner per file and accounts for every file |
| `TempFiles.NothingLeft` | cpp/benchmarks/io/cuio_common.cpp:49-94 | when all objects are gone, no file is left and each was removed exactly once |
| `TempFiles.SourceSinkPair.constructor` | cpp/benchmarks/io/cuio_common.cpp:49-57 | a new object owns a new file |
| `TempFiles.SourceSinkPair.Move` | cpp/benchmarks/io/cuio_common.cpp:64-73 | the new object takes over type, name and ownership, and the source owns nothing |
| `TempFiles.SourceSinkPair.Assign` | cpp/benchmarks/io/cuio_common.cpp:75-92 | nothing happens to a self-move; otherwise the old file is removed if owned, and the source's is taken over |
| `TempFiles.SourceSinkPair.Destroy` | cpp/benchmarks/io/cuio_common.cpp:59-62 | removes the file exactly when the object owns it |
| `TempFiles.Program.ExecuteAll` | cpp/benchmarks/io/cuio_common.cpp:49-94 | any legal sequence of constructions, moves, assignments and destructions keeps the invariant and leaves nothing behind |
| `CharCases.FindCollisionProofPrime` | cpp/scripts/char_cases.cpp:125-137 | the first modulus of the list without a collision, or 0 exactly when there is none |
| `CharCases.FillTable` | cpp/scripts/char_cases.cpp:158-166 | every code point's slot holds its position, the other slots are unused |
| `CharCases.EmitRows` | cpp/scripts/char_cases.cpp:170-192 | one row per slot: the mapping of its position, or an empty one |
| `CharCases.RowsAgree` | cpp/scripts/char_cases.cpp:158-192 | the hashed table answers like the linear one for every listed code point, and its other rows are empty |
| `CharCases.GenerateSpecialMappingHashTable` | cpp/scripts/char_cases.cpp:150-197 | fails exactly when every modulus has a collision; otherwise the emitted table agrees with the linear one |
| `SkewedStrings.RepeatToWidth` | cpp/benchmarks/common/generate_skewed_data.cpp:61-75 | fails exactly on a wrong length or width; otherwise the string over and over |
| `SkewedStrings.HitsAreFirst` | cpp/benchmarks/common/generate_skewed_data.cpp:34-45 | a repeated template contains the target exactly if it is the first |
| `SkewedStrings.StridedInRange` | cpp/benchmarks/common/generate_skewed_data.cpp:109-111 | the scatter indexes are distinct and within the table |
| `SkewedStrings.MakeGatherMap` | cpp/benchmarks/common/generate_skewed_data.cpp:96-116 | exactly the share of rows, rounded down, maps to the first template |
| `SkewedStrings.MakeShortRowMask` | cpp/benchmarks/common/generate_skewed_data.cpp:128-150 | exactly the share of rows, rounded down, is short |
| `SkewedStrings.CreateSkewedStringColumn` | cpp/benchmarks/common/generate_skewed_data.cpp:153-183 | fails exactly on refused arguments, negative numbers of rows among them; otherwise exact numbers of rows with the target and of short rows, and no third length |
| `Chunks.SegmentsInChunk` | cpp/benchmarks/io/cuio_common.cpp:203-217 | fails exactly on the two expectations; otherwise, in order, the segments whose chunk this is when every chunk has as many as divide the file, rounded up, for chunk indexes of any sign |
| `Chunks.SegmentsInFile` | cpp/benchmarks/io/cuio_common.cpp:210-214 | the segments are those of the file exactly for chunk indexes that are not negative, which no expectation demands; an accepted negative index gives some |
| `Chunks.NegativeChunk` | cpp/benchmarks/io/cuio_common.cpp:203-217 | chunk -1 of four segments in two chunks is -2 and -1 |
| `Chunks.ChunksCover` | cpp/benchmarks/io/cuio_common.cpp:210-214 | all chunks together are 0 to n - 1, in order |
| `Chunks.SplitPoints` | cpp/benchmarks/ndsh/utilities.cpp:369-374 | the split points are the multiples of the rows per chunk |
| `Chunks.SplitsValidIff` | cpp/benchmarks/ndsh/utilities.cpp:367-375 | they are ordered and within the table exactly when all chunks but one, filled up, fit into it |
| `Chunks.ManyRowsSuffice` | cpp/benchmarks/ndsh/utilities.cpp:367-375 | at least the square of the number of split points many rows suffice |
| `Chunks.FewRowsFail` | cpp/benchmarks/ndsh/utilities.cpp:367-375 | the split points for one row in three chunks are 1 and 2, which lie outside the table |
| `Chunks.SplitRebuilds` | cpp/benchmarks/ndsh/utilities.cpp:375-379 | the pieces of a valid split are the table |
| `Chunks.WriteChunked` | cpp/benchmarks/ndsh/utilities.cpp:363-381 | fails exactly then; otherwise the pieces written are the table, and all but the last have the rows of a chunk |

## Left out

- Q05.RunQ5: where a combination with a null compared column passes the tests with a value that is not positive, the delivered groups are given by the plan's own tests, and whether the sums happen to agree with SQL is left open.
- Q10.RunQ10: the same.
- Q09.RunQ9: the same.
- AuditReports.BuildReport: takes files as already judged readable or not, and any total order of the tests instead of the one by engine, node id and run.
- ReadParquet: predicates whose references exceed the columns read, on which libcudf throws; the same for `apply_filter`.
- BuildLogMap: fields that are not numbers, which make the script fail, and file sizes, which come from disk.
- StreamingInputs.MakeBatches: batch sizes that are not positive, which two of the benchmarks refuse and the other two never pass.
- libcudf, CUDA, RMM, nvbench and parquet internals; joins, gathers, scatters, slices, sorts and group-bys are given by what their documentation promises.
- Floating point and narrow integers: prices, discounts and polynomial values are reals, sizes are unbounded integers, and the overflow of 32-bit sizes is not modelled, apart from the 16-bit indexes of the character table.
- Result types of `cudf::binary_operation` and the float casts of query 6.
- The code of `days_since_epoch`, which relies on `mktime`; it is given as the day number of a civil date, and `extract_datetime_component` as the civil year of a day number.
- Queries 1 and 6, `apply_reduction`, the writing of result files and the generation of source tables.
- Regular expressions and string splitting are written out as searches over characters; JSON, HTML, Markdown and command-line text are not modelled, nor are pixel widths, which need a last end time other than zero.
- The summaries of `build_report` and the baseline and the configuration-dependent nodes of the proposal, which decide nothing.
- Reports given as one diagnostics file may lack a run's name or hold tests without a node id; the script then stops with an exception.
- Configurations, python versions and the like are texts or missing; values of other types are refused when reports are read.
- The order of errors within one stage of the audit, and the order in which `list(set(...))` lists lines.
- The buffers and sinks of `cuio_source_sink_pair`; only file ownership is modelled. What a move leaves in the moved string is arbitrary.
- The claim that short and long rows hit at about the same rate (`cpp/benchmarks/common/generate_skewed_data.hpp:25-27`): with equal percentages both scatters choose the same rows.
- `dtypes_for_column_selection` and `select_column_indexes` (`cpp/benchmarks/io/cuio_common.cpp:149-201`), and the streaming benchmarks over single integer keys (`cpp/benchmarks/groupby/streaming_groupby.cpp:77-139`, `239-263`), which would add only easy members.
- Concrete code points and primes of the character tables; the generator is proved for all arrays.
- `ci/timeout_with_stack.py`, the narwhals plugins, the other benchmarks and the small scripts, which would add only easy members.
