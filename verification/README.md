# Verified models of vexnor

Dafny models of the parts of vexnor whose correctness is hardest to see, with proofs. The Go
query builder compiles template trees and runtime parameters to SQL text and bound values; the
foreign-key graph finds join paths; the DuckDB parser reads type texts; the pipelines and rate
limiters run executions side by side; `deepMerge` merges object trees in place; the catalog and
selection code canonicalises schemas and restricts what may be joined; and the transaction helpers
nest savepoints. `dafny verify dfyconfig.toml` checks everything.

| files | part of vexnor |
|---|---|
| `SqlTemplate`, `SqlParts`, `SqlSpec`, `SqlJoins`, `SqlBuilder` | the builder: what each node stands for, and the imperative code proved to append exactly that |
| `SqlDrivers`, `SqlNodes` | how a driver reads the text with its values, and what simple nodes come to |
| `SearchCondition`, `FilterMeaning`, `FilterNumbers`, `FilterReadings` | a parser and an evaluator for search conditions (sections 8.3 and 8.12 of ISO/IEC 9075:1992), the meaning of filters, and where it differs from the documented one |
| `SqlLayout`, `SqlReading`, `SqlUpserts`, `SqlSets`, `SqlJoinReading`, `SqlJoinMeaning` | the layout of inserts and upserts, the comparison of dialects, and inserts, upserts, `set` and `joinBy` read back |
| `OrderedMaps`, `Strings`, `Digits`, `Seqs`, `Ordering`, `Wrappers` | ordered JSON maps, the default string order, numerals, and shared helpers |
| `FkPaths`, `SchemaGraph` | breadth-first search and join composition |
| `DuckDbSyntax`, `DuckDbParser`, `DuckDbRoundTrip`, `DuckDbNames`, `DuckDbRejects`, `DuckDbEnums` | the type grammar, the parser, the printer's round trip, type names, refused texts, enum texts |
| `LimiterModel`, `LimiterRuns` | the TTL rate limiter and all its interleavings |
| `GoLimiterModel`, `GoLimiterRuns` | the Go rate limiter and all its interleavings |
| `QueryPipeline`, `PipelineProtocol`, `PipelineExecute`, `GoPipeline` | the pipeline as a machine of interleaved executions, its `execute`, and the Go pipeline |
| `MergeTrees`, `DeepMerge` | the recursive merge of trees, what it shows at each path, and the stack-based merge on the heap |
| `SchemaCatalog`, `CatalogRelationships`, `CatalogCanonical`, `CatalogContents`, `CatalogJoins` | the catalog before hashing |
| `SchemaSelection`, `RuntimeMappings` | stored selections and the tables and joins they allow |
| `Savepoints`, `Transactions` | nested savepoints in three dialects |

Methods follow the code statement by statement and are proved equal to a specification function,
or to a run of a step machine; the lemmas then say what that specification means.

Some points where the code decides:

- `docs/crud.md:196-198` and `docs/crud.md:291` promise null tests for empty `in`, `notIn` and
  `between` lists. The Go builder emits `1=0`, nothing, and an error. The model follows the code;
  `FilterReadings.EntryReadings` says where the two agree.
- An operator without its argument is an index panic in the Go code; the model gives the error
  `MissingArgument`.
- The comment at `stacks/golang/vexnor/pipeline.go:88` says Init and End always pair.
  `GoPipeline.InitsAndEndsPair` says when they do: a panic of a hook, a check or the query itself
  skips every End, and so does one of `OnError`, which nothing recovers (`GoPipeline.PairingFails`).
- A savepoint that reuses the name of one around it can keep writes that the outer one should undo
  (`Savepoints.LostUndo`). For programs of one shape, `Nested`, in which an outer savepoint fails
  behind an inner one, `Savepoints.ReusedNameAfterFailure` and `Savepoints.ReusedNameAfterSuccess`
  say exactly when; for programs whose nested names differ it never happens.
- A COMMIT or ROLLBACK that the database refuses is not followed by another command, so a
  connection can go back to its pool inside a transaction (`Transactions.Connection.Transaction`).
- A foreign key without columns makes `joinPath` and `join` throw once a path uses it.
- A JSON object with a repeated key decodes to an ordered map that lists the key twice
  (`OrderedMaps.DecodedIsBuilt`).

## Model

| member | source | states |
|---|---|---|
| SqlBuilder.SqlBuilder.Build | stacks/golang/vexnor/sqlbuilder.go:39-65 | a build returns a text and a value list in which the database's driver finds exactly the items the template stands for, or the first error; the counter equals the number of values throughout |
| SqlBuilder.SqlBuilder.BuildNodes | stacks/golang/vexnor/sqlbuilder.go:67-126 | nodes append their items one after another, whatever was written before |
| SqlBuilder.SqlBuilder.BuildNode | stacks/golang/vexnor/sqlbuilder.go:67-126 | each node kind appends its items, `when` those of the chosen branch |
| SqlBuilder.SqlBuilder.FormatParam | stacks/golang/vexnor/sqlbuilder.go:129-140 | each placeholder gets the next index |
| SqlBuilder.SqlBuilder.BuildParam | stacks/golang/vexnor/sqlbuilder.go:217-235 | one placeholder per element of a list parameter, one otherwise |
| SqlBuilder.SqlBuilder.BuildSet | stacks/golang/vexnor/sqlbuilder.go:256-305 | assignments for given and declared keys, errors for none |
| SqlSets.SetReads | stacks/golang/vexnor/sqlbuilder.go:256-305 | a set clause succeeds exactly for a non-empty object, and its text reads back as the given and declared keys, in the object's own or the declared order, each with its own column and its own value |
| SqlBuilder.SqlBuilder.CoerceRows | stacks/golang/vexnor/sqlbuilder.go:144-168 | the rows of a parameter, or the error for an empty list |
| SqlBuilder.SqlBuilder.CanonicalKeys | stacks/golang/vexnor/sqlbuilder.go:172-180 | the declared keys the first row has, in declared order |
| SqlBuilder.SqlBuilder.BuildRows | stacks/golang/vexnor/sqlbuilder.go:308-414 | the insert-like nodes write the rows of their parameter, or nothing without it |
| SqlBuilder.SqlBuilder.BuildInsert | stacks/golang/vexnor/sqlbuilder.go:308-350 | column list, then one tuple per row |
| SqlBuilder.SqlBuilder.WriteTuples | stacks/golang/vexnor/sqlbuilder.go:378-414 | the value list: rows in order, keys in order, a missing cell as null |
| SqlBuilder.SqlBuilder.BuildUpsert | stacks/golang/vexnor/sqlbuilder.go:979-1002 | the upsert of the dialect |
| SqlBuilder.SqlBuilder.BuildUpsertPgSqlite | stacks/golang/vexnor/sqlbuilder.go:1005-1055 | insert with a conflict clause |
| SqlBuilder.SqlBuilder.BuildUpsertMssql | stacks/golang/vexnor/sqlbuilder.go:1058-1128 | merge with a source table of values |
| SqlBuilder.SqlBuilder.BuildFilter | stacks/golang/vexnor/sqlbuilder.go:424-475 | prefix, joined conditions and suffix, or nothing for an empty filter |
| SqlBuilder.SqlBuilder.WriteConditions | stacks/golang/vexnor/sqlbuilder.go:478-524 | the conditions' parts with the enclosing connective between each two |
| SqlBuilder.SqlBuilder.WriteEntry | stacks/golang/vexnor/sqlbuilder.go:527-543 | a bare value is an equality, a list an operator with its arguments |
| SqlBuilder.SqlBuilder.WriteOp | stacks/golang/vexnor/sqlbuilder.go:546-633 | every operator's text and bound arguments, unknown operators and wrong argument counts refused |
| SqlBuilder.SqlBuilder.BuildPagination | stacks/golang/vexnor/sqlbuilder.go:789-811 | limit and offset, each bound, each only when given |
| SqlBuilder.SqlBuilder.BuildJoinBy | stacks/golang/vexnor/sqlbuilder.go:823-965 | join clauses in alias order, or the first refusal |
| SqlTemplate.PlaceholdersInOrder | stacks/golang/vexnor/sqlbuilder.go:129-140 | the k-th placeholder of any output has index k |
| SqlTemplate.ResolveNumber | stacks/golang/vexnor/sqlbuilder.go:46-140 | replacing each numbered placeholder by the value of that index gives back the items the builder was to emit: every placeholder meets its own value |
| SqlDrivers.SpellInjective | stacks/golang/vexnor/sqlbuilder.go:129-140 | dialects with numbered placeholders spell different indices differently |
| SqlDrivers.PlaceOfPlaceholder | stacks/golang/vexnor/sqlbuilder.go:129-140 | a driver that reads `$1` as the first value, `@param_0` too, and `?` as the next one finds the k-th placeholder at the k-th value |
| SqlDrivers.DriverMeetsValues | stacks/golang/vexnor/sqlbuilder.go:46-140 | so it runs exactly the items that were to be emitted, in every dialect |
| SqlNodes.TemplatesInRow | stacks/golang/vexnor/sqlbuilder.go:67-126 | templates in a row are evaluated in a row, the first error counting |
| SqlNodes.WhenChooses | stacks/golang/vexnor/sqlbuilder.go:237-254 | `when` takes its first branch for a parameter that is there and neither nil nor false; negation swaps the branches |
| SqlNodes.ParamReads | stacks/golang/vexnor/sqlbuilder.go:217-235 | a parameter binds its value or nil; a list parameter reads back as its elements |
| SqlNodes.LiteralNodes | stacks/golang/vexnor/sqlbuilder.go:67-126 | text and values are written as they are; an unknown frame is refused in T-SQL only |
| SqlNodes.PaginationReads | stacks/golang/vexnor/sqlbuilder.go:789-811 | limit before offset, each with its own value |
| SqlNodes.RowsGiven | stacks/golang/vexnor/sqlbuilder.go:142-168 | rows come from a list of objects; none is an error, no parameter is nothing |
| FilterMeaning.FilterMeans | stacks/golang/vexnor/sqlbuilder.go:478-633 | the text of a filter parses under the precedence of AND over OR to a condition as true, on every row (three-valued), as what the filter's operators ask by name, exactly when no `notIn` list is empty and no level emits nothing; otherwise it is no search condition at all |
| FilterMeaning.ExecutedFilterMeans | stacks/golang/vexnor/sqlbuilder.go:424-633 | the same for the stretch of a whole numbered query between the filter's prefix and suffix, with the driver's values in place |
| FilterNumbers.ConditionOnNumbers | stacks/golang/vexnor/sqlbuilder.go:527-633 | on rows of integers the text of `[operator, n, ...]` is true exactly when the column's value stands in that relation to the numbers, and unknown when there is none |
| FilterNumbers.OperatorText | docs/crud.md:187-205 | each operator with one argument has the documented text |
| FilterNumbers.OtherTexts | docs/crud.md:187-205 | so have a bare value, the null tests and `between` |
| FilterNumbers.ListTexts | docs/crud.md:197-198 | and `in` and `notIn`, the list given as one or one by one |
| FilterNumbers.TextTests | stacks/golang/vexnor/sqlbuilder.go:612-620 | the texts of `like` and the null tests parse to those tests |
| FilterNumbers.ConditionsOfList | stacks/golang/vexnor/sqlbuilder.go:448-457 | a filter list's conditions are its objects in order |
| FilterNumbers.ObjectForm | stacks/golang/vexnor/sqlbuilder.go:431-447 | the object form is the conjunction of its columns |
| FilterMeaning.EmptyNotInDangles | stacks/golang/vexnor/sqlbuilder.go:601-603 | a concrete filter whose empty `notIn` leaves a dangling connective |
| FilterReadings.EntryReadings | docs/crud.md:196-198 | the documented and the coded meaning of a condition agree on every row exactly when it is no empty `in`, `notIn` or `between` |
| FilterReadings.EmptyBetweenIsRefused | stacks/golang/vexnor/sqlbuilder.go:565-568 | an empty `between` is an error instead of a null test |
| FilterReadings.FilterMeansAsDocumented | docs/crud.md:291 | the text of a filter without empty lists means what the documentation says, on every row |
| SqlLayout.RowMajor | stacks/golang/vexnor/sqlbuilder.go:333-346 | row r's value for column c is the (r * columns + c)-th value of an insert |
| SqlLayout.SlotMeans | stacks/golang/vexnor/sqlbuilder.go:333-346 | that position as a product |
| SqlLayout.InsertLayout | stacks/golang/vexnor/sqlbuilder.go:308-350 | in a whole query the layout starts behind the values bound before |
| SqlLayout.InsertIsSplit | stacks/golang/vexnor/sqlbuilder.go:308-414 | a combined insert is the split column list and value list |
| SqlLayout.KeysInDeclared | stacks/golang/vexnor/sqlbuilder.go:172-180 | a key is bound exactly when it is declared and in the first row |
| SqlLayout.UpsertArgs | stacks/golang/vexnor/sqlbuilder.go:1005-1128 | both upsert syntaxes bind the same values in the same order |
| SqlUpserts.OnConflictReads | stacks/golang/vexnor/sqlbuilder.go:1005-1055 | the ON CONFLICT text reads back as the insert, the conflict keys' columns, and an assignment from the incoming column of the same name for each present key that is no conflict key |
| SqlUpserts.MergeReads | stacks/golang/vexnor/sqlbuilder.go:1058-1128 | the MERGE text reads back as the same rows as source, a match on each conflict key's column, the same assignments, and an insert of each present key's column from the source's column of the same name |
| SqlUpserts.InsertReads | stacks/golang/vexnor/sqlbuilder.go:308-350 | an insert reads back as the present keys' columns and, row by row, their values |
| SqlNodes.KeysInOrder | stacks/golang/vexnor/sqlbuilder.go:172-180 | present keys keep their declared order |
| SqlLayout.SameItems | stacks/golang/vexnor/sqlbuilder.go:67-140 | without upserts, dialects that both succeed emit the same fragments, so texts differ in the spelling of placeholders only |
| SqlLayout.SameValues | stacks/golang/vexnor/sqlbuilder.go:67-140 | dialects that both succeed bind equal value lists, upserts included |
| SqlLayout.SameErrors | stacks/golang/vexnor/sqlbuilder.go:67-126 | without a frame that T-SQL refuses, dialects fail on the same templates with the same error |
| SqlJoinReading.JoinByMeans | stacks/golang/vexnor/sqlbuilder.go:823-965 | the text of a `joinBy` reads back as exactly the joins asked for; only listed tables, columns and operators occur, conditions are missing exactly for cross joins, and nothing is bound |
| SqlJoinMeaning.JoinByAnswers | stacks/golang/vexnor/sqlbuilder.go:823-965 | one join per alias with an entry, in the aliases' order, of the table, type and conditions the entry asks for, left and right as given |
| SqlJoinMeaning.RefusedUnanswered | stacks/golang/vexnor/sqlbuilder.go:880-958 | an entry is refused exactly when no join answers it |
| SqlJoinMeaning.LowerLetters | stacks/golang/vexnor/sqlbuilder.go:888-897 | join types are read in any letter case |
| Strings.SortKeys | stacks/golang/vexnor/sqlbuilder.go:857-864 | keys of an unordered map are joined in sorted order |
| Strings.LeqMeans | stacks/golang/vexnor/sqlbuilder.go:857-864 | texts are ordered by their first difference, a prefix first |
| OrderedMaps.OrderedMap.Set | stacks/golang/vexnor/orderedmap.go:28-33 | a new key goes to the end, an old one keeps its place; keys stay distinct |
| OrderedMaps.OrderedMap.UnmarshalJSON | stacks/golang/vexnor/orderedmap.go:48-95 | `null` empties the map; every member up to the first unreadable one appends its key; the error, if any, is that of the first thing that cannot be read |
| OrderedMaps.OrderedMap.MarshalJSON | stacks/golang/vexnor/orderedmap.go:98-122 | every listed key with its value, or the empty one, in key order |
| OrderedMaps.DecodedIsBuilt | stacks/golang/vexnor/orderedmap.go:28-95 | decoding gives what setting the members one by one gives exactly when no key is repeated |
| OrderedMaps.JsonRoundTrip | stacks/golang/vexnor/orderedmap.go:48-122 | writing a map and reading it back gives it back in order |
| SchemaGraph.SchemaGraph.constructor | packages/core/src/execution/schema-graph.ts:41-53 | the kept tables are those of the schema that the inclusion rule admits, of one identifier the last |
| SchemaGraph.IncludedMeans | packages/core/src/execution/schema-graph.ts:45-50 | with stable identities only, tables without a primary key and partitions are left out |
| SchemaGraph.SchemaGraph.GetFkGraph | packages/core/src/execution/schema-graph.ts:297-318 | the graph has all tables and exactly the declared keys between them, each with its reverse, and is computed once |
| FkPaths.Search | packages/core/src/execution/schema-graph.ts:103-131 | breadth-first search returns a shortest chain without repeated tables, or none exactly when none exists |
| SchemaGraph.SchemaGraph.JoinPath | packages/core/src/execution/schema-graph.ts:98-132 | a returned path leads from one table to the other with as few steps as possible and no table twice; each step pairs the columns of a declared foreign key, or of one read backwards; null means unreachable; it throws exactly when the chain found has an edge without columns |
| FkPaths.ShortestSymmetric | packages/core/src/execution/schema-graph.ts:306-314 | shortest paths are as long in one direction as in the other |
| FkPaths.ReachableSymmetric | packages/core/src/execution/schema-graph.ts:306-314 | a table reaches another exactly when the other reaches it |
| SchemaGraph.SchemaGraph.ShortestPathFromConnected | packages/core/src/execution/schema-graph.ts:285-295 | a nearest path from any connected table |
| SchemaGraph.NearestIsFresh | packages/core/src/execution/schema-graph.ts:146-160 | no intermediate table of a nearest path is connected already |
| SchemaGraph.SchemaGraph.Join | packages/core/src/execution/schema-graph.ts:138-201 | null exactly when a target is unreachable from the root; otherwise the steps form a tree over the root that connects every target, each along a declared foreign key; the join conditions compare that key's columns under their tables' names, with the type asked for; it throws only when some key names no columns |
| SchemaGraph.ColumnOffered | packages/core/src/execution/schema-graph.ts:187-199 | the columns of a join are exactly those of its tables, the root's by name, others with their table's |
| SchemaGraph.SchemaGraph.AttachStep | packages/core/src/execution/schema-graph.ts:150-158 | the check for a repeated step never acts |
| SchemaGraph.TreeTablesDistinct | packages/core/src/execution/schema-graph.ts:188 | the tables of a tree of steps are distinct, so the filter for repeated tables never acts |
| SchemaGraph.JoinByOnePerTable | packages/core/src/execution/schema-graph.ts:174-185 | with distinct table names the join object has one entry per step |
| SchemaGraph.JoinByEntry | packages/core/src/execution/schema-graph.ts:174-185 | and each entry is that of its own step |
| SchemaGraph.SchemaGraph.JoinBy | packages/core/src/execution/schema-graph.ts:207-220 | null exactly when a table is unknown, no target is named or one is unreachable; otherwise the result of joining the tables looked up, all of the graph |
| DuckDbParser.ParseDuckDBType | plugins/duckdb/src/schema/parse-duckdb-type.ts:3-188 | the parser with its moving index computes the grammar on every input, and so terminates on every input |
| DuckDbParser.DuckDBTypeParser.ParseTypeTree | plugins/duckdb/src/schema/parse-duckdb-type.ts:21-80 | a type and its list suffixes, starting anywhere |
| DuckDbParser.DuckDBTypeParser.ParseFieldList | plugins/duckdb/src/schema/parse-duckdb-type.ts:82-98 | a parenthesised list of named fields |
| DuckDbParser.DuckDBTypeParser.ParseScalarType | plugins/duckdb/src/schema/parse-duckdb-type.ts:100-141 | a scalar ends at the first delimiter outside quotes and parentheses |
| DuckDbRoundTrip.RoundTrip | plugins/duckdb/src/schema/parse-duckdb-type.ts:12-188 | parsing a printed type expression gives the tree it stands for, for all nestings and all non-empty field names, quoted or bare |
| DuckDbRoundTrip.TypeParses | plugins/duckdb/src/schema/parse-duckdb-type.ts:21-80 | parsing starts at a printed type and stops exactly behind it |
| DuckDbEnums.TreeRoundTrip | plugins/duckdb/src/schema/parse-duckdb-type.ts:12-245 | every tree over known scalars is what the parser makes of its canonical print |
| DuckDbEnums.CanonicalNameMeans | plugins/duckdb/src/schema/parse-duckdb-type.ts:190-245 | each scalar's canonical name means that scalar |
| DuckDbNames.NameMeans | plugins/duckdb/src/schema/parse-duckdb-type.ts:199-245 | each of the 44 known names parses to its type, every other name of words to the unknown type |
| DuckDbNames.DecimalMeans | plugins/duckdb/src/schema/parse-duckdb-type.ts:195-197 | decimals with arguments are texts |
| DuckDbNames.CaseDoesNotMatter | plugins/duckdb/src/schema/parse-duckdb-type.ts:190-197 | letter case makes no difference but in enums |
| DuckDbRejects.TrailingText | plugins/duckdb/src/schema/parse-duckdb-type.ts:12-19 | text behind a type is refused |
| DuckDbRejects.BrokenMap | plugins/duckdb/src/schema/parse-duckdb-type.ts:40-52 | a map without its comma or closing parenthesis is refused |
| DuckDbRejects.UnclosedField | plugins/duckdb/src/schema/parse-duckdb-type.ts:82-98 | so are fields without closing parenthesis |
| DuckDbRejects.MissingFieldType | plugins/duckdb/src/schema/parse-duckdb-type.ts:100-141 | a field without a type |
| DuckDbRejects.MissingName | plugins/duckdb/src/schema/parse-duckdb-type.ts:82-98 | a field without a name |
| DuckDbRejects.UnterminatedName | plugins/duckdb/src/schema/parse-duckdb-type.ts:143-165 | and a quoted name that is never closed |
| DuckDbEnums.EnumTextInjective | plugins/duckdb/src/schema/find-schema.ts:189-191 | distinct label lists print to distinct type texts |
| DuckDbEnums.EnumTextParses | plugins/duckdb/src/schema/parse-duckdb-type.ts:100-141 | a scalar started on an enum text before a delimiter consumes exactly that text |
| DuckDbEnums.EnumNamesByType | plugins/duckdb/src/schema/find-schema.ts:84-88 | the lookup from schema and type text to enum name; the last of several enums with one text wins |
| DuckDbEnums.UdtNamesItsEnum | plugins/duckdb/src/schema/find-schema.ts:84-95 | whatever its type text, a column gets the name of the last enum of its schema that prints to it, and none exactly when there is none or its name is empty |
| DuckDbEnums.UdtHasItsLabels | plugins/duckdb/src/schema/find-schema.ts:84-95 | for an enum type that enum has exactly the labels of the type |
| TimeToLiveLimiter.TimeToLiveRateLimiter.Init | packages/core/src/execution/time-to-live-rate-limiter.ts:134-148 | counts the call and the running execution, per query and per context |
| TimeToLiveLimiter.TimeToLiveRateLimiter.Check | packages/core/src/execution/time-to-live-rate-limiter.ts:154-179 | evicts idle entries, then accepts or names the exceeded limit |
| TimeToLiveLimiter.TimeToLiveRateLimiter.Sweep | packages/core/src/execution/time-to-live-rate-limiter.ts:246-254 | drops exactly the context entries that are idle and expired |
| TimeToLiveLimiter.TimeToLiveRateLimiter.End | packages/core/src/execution/time-to-live-rate-limiter.ts:198-221 | uncounts the execution and updates average and errors |
| LimiterRuns.SafeInEveryRun | packages/core/src/execution/time-to-live-rate-limiter.ts:134-221 | in every reachable state, counters equal live executions, executions past their check stay within both limits, totals count starts and errors, and average times completed calls is the summed duration |
| LimiterRuns.CheckMeans | packages/core/src/execution/time-to-live-rate-limiter.ts:154-179 | in every reachable state and at any time a check accepts exactly when the live executions of its query and of its context are within the limits, and otherwise names the limit, the query's first |
| LimiterRuns.SweepMeans | packages/core/src/execution/time-to-live-rate-limiter.ts:246-254 | a check drops a context's entry exactly when it has no live execution and none started or ended within the time to live |
| LimiterRuns.EvictionIsInvisible | packages/core/src/execution/time-to-live-rate-limiter.ts:154-254 | a limiter that evicts and one that never does give the same verdicts on every run |
| LimiterRuns.LiveIsCounted | packages/core/src/execution/time-to-live-rate-limiter.ts:205-216 | when an execution ends its counter is positive and the divisor is not zero |
| LimiterRuns.RollingAverage | packages/core/src/execution/time-to-live-rate-limiter.ts:205-207 | absorbing one more duration keeps the average exact |
| DeepMerge.DeepMerge | packages/core/src/lib/deep-merge.ts:11-21 | the result shows at every path what the last source with a word on it says: a leaf, an object, or nothing below a leaf; it is built of new objects only, and no source is changed |
| DeepMerge.MergeInto | packages/core/src/lib/deep-merge.ts:23-50 | the structure below the target reads as the recursive merge; only its objects change and only new ones join it; ends for every finite source |
| DeepMerge.MergeIntoInAnyOrder | packages/core/src/lib/deep-merge.ts:23-50 | the whole merge with the pending frames taken in any order whatever: the same tree, and it ends |
| DeepMerge.MergeFrame | packages/core/src/lib/deep-merge.ts:28-48 | one frame, its keys in any order |
| DeepMerge.MergeKey | packages/core/src/lib/deep-merge.ts:31-47 | one key: skipped, assigned, descended into or given a new object |
| DeepMerge.TakeFrame | packages/core/src/lib/deep-merge.ts:28-29 | whichever pending object is merged next, the state it starts from is sound |
| MergeTrees.MergeIdempotent | packages/core/src/lib/deep-merge.ts:11-50 | merging the same source again changes nothing |
| MergeTrees.MergeShows | packages/core/src/lib/deep-merge.ts:28-48 | a merged source has the last word on every path, and where it has none the base stays |
| MergeTrees.MergeAllShows | packages/core/src/lib/deep-merge.ts:2-21 | later sources override earlier ones path by path, objects are joined, refused and undefined keys count for nothing |
| MergeTrees.MergeAllKeys | packages/core/src/lib/deep-merge.ts:31-47 | a key is there exactly when it is not refused and some source holds it, and shows the last one's leaf or an object |
| Transactions.Connection.Transaction | plugins/postgres/src/postgres-transaction.ts:36-57 | all of a callback's effect or none, whatever fails around it; the pool's client is always given back; exactly the intended effect when nested names differ; the connection is left in a transaction exactly when its COMMIT or ROLLBACK is refused without ending it |
| Transactions.Connection.RunTransaction | plugins/mssql/src/mssql-transaction.ts:35-50 | the commands from BEGIN to COMMIT or ROLLBACK, the same in every dialect |
| Transactions.Connection.RunSavepoint | plugins/postgres/src/postgres-transaction.ts:69-93 | a failing savepoint has no effect when no savepoint inside reuses its name |
| Transactions.Connection.Run | plugins/sqlite3/src/sqlite3-transaction.ts:28-80 | callbacks of writes, throws, catches and nested savepoints issue their commands in order |
| Savepoints.ExecRefines | plugins/postgres/src/postgres-transaction.ts:69-93 | the commands do what is meant and leave the markers found below left-over ones of the body's own names |
| Savepoints.TransactionRefines | plugins/mssql/src/mssql-transaction.ts:35-88 | every dialect commits what an interpreter does that undoes throwing bodies |
| Savepoints.MarkersKept | plugins/postgres/src/postgres-transaction.ts:69-93 | no program, whatever names it uses, removes a marker set before it |
| Savepoints.MarkerFound | plugins/sqlite3/src/sqlite3-transaction.ts:56-80 | so a savepoint always finds its marker: its RELEASE or ROLLBACK TO never fails for want of one |
| Savepoints.ReusedNameAfterFailure | plugins/sqlite3/src/sqlite3-transaction.ts:56-80 | when a savepoint writes, runs an inner one that fails, and then fails, its body is undone exactly when the names differ or there was nothing to undo |
| Savepoints.ReusedNameAfterSuccess | plugins/mssql/src/mssql-transaction.ts:64-88 | when the inner one succeeds only SQL Server, which does not release, is affected |
| Savepoints.LostUndo | plugins/postgres/src/postgres-transaction.ts:69-93 | a concrete program whose write survives in every dialect though nothing was meant to stay |
| SchemaCatalog.CreateRelationships | packages/core/src/schema/schema-catalog.ts:340-371 | rows gathered in an insertion-ordered map give the groups of the specification |
| SchemaCatalog.AssertUnique | packages/core/src/schema/schema-catalog.ts:388-394 | the first value that occurs twice, if any |
| SchemaCatalog.NoDuplicateMeans | packages/core/src/schema/schema-catalog.ts:388-394 | none is reported exactly when all differ |
| SchemaCatalog.FirstDuplicateMeans | packages/core/src/schema/schema-catalog.ts:388-394 | the one reported is the first that was there before |
| CatalogRelationships.GroupingConserves | packages/core/src/schema/schema-catalog.ts:340-371 | flattened relationships hold the same multiset of constraint, target and column pair as the rows, exactly when rows of one group agree on constraint and target |
| CatalogRelationships.NulFreeIsConsistent | packages/core/src/schema/schema-catalog.ts:347 | which they do when constraint names hold no NUL |
| CatalogRelationships.GroupIsProper | packages/core/src/schema/schema-catalog.ts:361-370 | each relationship holds the pairs of its own rows, at least one, by ordinal |
| CatalogRelationships.GroupsDiffer | packages/core/src/schema/schema-catalog.ts:361-370 | no two relationships have the same constraint and target |
| CatalogCanonical.CatalogIsCanonical | packages/core/src/schema/schema-catalog.ts:141-257 | reordering tables and enums, and rows that carry ordinals, changes nothing in the whole catalog before hashing: both listings are refused or both give the same catalog |
| SchemaCatalog.TypeTreeKept | packages/core/src/schema/schema-catalog.ts:281-308 | the physical names of a catalog's type tree give back the plugin's tree, whatever the mapped names |
| CatalogCanonical.RelationshipsAreCanonical | packages/core/src/schema/schema-catalog.ts:340-371 | the same for one table's foreign keys |
| CatalogCanonical.PrimaryKeyIsCanonical | packages/core/src/schema/schema-catalog.ts:325-338 | the same for a primary key, its error included |
| CatalogCanonical.ColumnsAreCanonical | packages/core/src/schema/schema-catalog.ts:165-199 | the same for columns |
| CatalogCanonical.LabelsAreCanonical | packages/core/src/schema/schema-catalog.ts:149-152 | the same for enum labels |
| CatalogContents.ColumnsCarry | packages/core/src/schema/schema-catalog.ts:165-199 | every column row gives one column that carries what the row and the plugin say, by ordinal and then by name |
| CatalogContents.PrimaryKeyMeans | packages/core/src/schema/schema-catalog.ts:325-338 | a primary key needs one constraint; its columns come by ordinal and then by name |
| CatalogContents.LabelsRise | packages/core/src/schema/schema-catalog.ts:144-153 | so do an enum's labels |
| CatalogContents.CatalogHoldsTables | packages/core/src/schema/schema-catalog.ts:154-226 | every table has its object and every object its table, in the order of ids |
| CatalogContents.CatalogHoldsEnums | packages/core/src/schema/schema-catalog.ts:144-153 | the enums are those of the rows, in the order of ids |
| CatalogContents.CatalogHoldsSchemas | packages/core/src/schema/schema-catalog.ts:230-252 | the schemas are those of objects and enums, once each and sorted; the plugin's entry and its warning |
| CatalogContents.CatalogRefused | packages/core/src/schema/schema-catalog.ts:373-394 | a catalog is refused exactly for a repeated identity, a repeated column, or a primary key of two constraints |
| Ordering.SortIsCanonical | packages/core/src/schema/schema-catalog.ts:400-408 | sorting under a comparison that separates the elements forgets their order |
| CatalogJoins.AutomaticJoinMeans | packages/core/src/schema/schema-catalog.ts:228-239 | an object is flagged exactly when a foreign key of the input starts or ends there |
| GoRateLimiter.RateLimiterPlugin.Init | stacks/golang/vexnor/rate_limiter.go:66-92 | raises the counters of the query and of a non-empty context key |
| GoRateLimiter.RateLimiterPlugin.Check | stacks/golang/vexnor/rate_limiter.go:96-124 | the exceeded limit, if any |
| GoRateLimiter.RateLimiterPlugin.End | stacks/golang/vexnor/rate_limiter.go:130-159 | lowers the counters, deletes those that reach zero, then cleans up |
| GoRateLimiter.RateLimiterPlugin.CleanupExpired | stacks/golang/vexnor/rate_limiter.go:166-181 | removes exactly the expired entries without executions |
| GoLimiterRuns.CountersAreLive | stacks/golang/vexnor/rate_limiter.go:66-182 | in every run a key is in a map exactly when it has live executions, with their number, and those past their check stay within both limits |
| GoLimiterRuns.CheckMeans | stacks/golang/vexnor/rate_limiter.go:96-124 | a check passes exactly when the live executions of its query and key are within the limits, and otherwise names the limit, the query's first |
| GoLimiterRuns.CleanupRemovesNothing | stacks/golang/vexnor/rate_limiter.go:157-181 | the clean-up never removes anything in a reachable state |
| GoLimiterRuns.NothingIsLeaked | stacks/golang/vexnor/rate_limiter.go:130-159 | both maps are empty when all executions have ended |
| QueryPipeline.ProtocolInEveryRun | packages/core/src/execution/sql-query-pipeline.ts:194-295 | in every interleaving: init first, end exactly once and last, a query only after all hooks and checks accepted and right after its own before, attempts one by one within the limit, none after a denial |
| QueryPipeline.SlotsInEveryRun | packages/core/src/execution/sql-query-pipeline.ts:268-277 | the slot counter is the number of attempts in progress, never above the limit, zero at rest |
| QueryPipeline.RefusedWhenFull | packages/core/src/execution/sql-query-pipeline.ts:297-306 | an attempt is refused exactly when as many others as allowed are in progress |
| PipelineProtocol.CourseInEveryRun | packages/core/src/execution/sql-query-pipeline.ts:244-295 | in every interleaving each step of an execution follows the one before it as the course of hooks, checks, attempts and retries has it |
| PipelineProtocol.RetriesInEveryRun | packages/core/src/core/query/sql-retry.ts:4-29 | attempt n + 1 follows exactly when attempt n failed or was refused, was not the last allowed, and the policy wants another; otherwise the end follows |
| PipelineExecute.SqlQueryPipeline.Execute | packages/core/src/execution/sql-query-pipeline.ts:244-295 | `execute` run alone is a run of that machine from start to done, restores the slot counter, and succeeds exactly when its last attempt does |
| PipelineExecute.SqlQueryPipeline.RunAuthorize | packages/core/src/execution/sql-query-pipeline.ts:194-219 | hooks up to the first denial; a tagged query without hooks is refused |
| PipelineExecute.SqlQueryPipeline.RunCheckPlugins | packages/core/src/execution/sql-query-pipeline.ts:221-235 | check plugins up to the first rejection |
| PipelineExecute.SqlQueryPipeline.RunAttempt | packages/core/src/execution/sql-query-pipeline.ts:268-277 | a slot taken is given back however the query ends |
| PipelineExecute.SqlQueryPipeline.RunWithRetry | packages/core/src/core/query/sql-retry.ts:4-29 | attempts until success, the limit, or a decision against another |
| GoPipeline.QueryPipeline.Execute | stacks/golang/vexnor/pipeline.go:89-161 | the phases' calls in order: a refusal jumps to the end phase, a recovered panic of Init or Before is reported, and a panic nobody recovers, that of the report included, skips all that is left |
| GoPipeline.InitsAndEndsPair | stacks/golang/vexnor/pipeline.go:78-161 | a plugin is inited exactly when no report of an earlier Init's panic panics itself; every Init gets its End exactly when nothing panics unrecovered before the end phase (a report of an Init, the deciding hook or check, and, once the query is granted, a report of a Before or the query) nor in an End but the last |
| GoPipeline.CallMeans | stacks/golang/vexnor/pipeline.go:105-146 | the query runs exactly when every hook of a tagged query and every check lets it and no report of an Init or Before panics; by then every plugin has had its Init, check and Before and every hook was asked |
| GoPipeline.BeforeMeans | stacks/golang/vexnor/pipeline.go:105-140 | a Before happens only after every hook and check let the query through |
| GoPipeline.CallsInOrder | stacks/golang/vexnor/pipeline.go:89-161 | calls come phase by phase, in registration order within a phase, and none happens twice |
| GoPipeline.OutcomeMeans | stacks/golang/vexnor/pipeline.go:89-161 | the caller sees a panic exactly when one escapes, otherwise the refusal or the query's answer |
| GoPipeline.PairingFails | stacks/golang/vexnor/pipeline.go:86-102 | one plugin whose Init and OnError panic keeps the next from its Init and both from their Ends |
| SchemaSelection.ReconcileIsIdempotent | packages/core/src/schema/schema-selection.ts:131-162 | reconciling a reconciled scope again returns it unchanged, nothing added or removed |
| SchemaSelection.ResolveIsStable | packages/core/src/schema/schema-selection.ts:68-129 | so does reconciling a newly resolved scope |
| SchemaSelection.SelectionDivides | packages/core/src/schema/schema-selection.ts:145-158 | selected and deselected objects divide the catalog |
| SchemaSelection.ReconcileSelects | packages/core/src/schema/schema-selection.ts:141-145 | an object is selected exactly when it is in the catalog and was stored as selected; new ones never are |
| SchemaSelection.ReconcileRefuses | packages/core/src/schema/schema-selection.ts:131-148 | a stored selection is refused exactly for another format or catalog version, a repeated id, or when nothing of it is left |
| SchemaSelection.ReconcileReports | packages/core/src/schema/schema-selection.ts:139-162 | the result lists the catalog with kinds, and what is new and what is gone |
| SchemaSelection.ResolveIdentity | packages/core/src/schema/schema-selection.ts:233-248 | an identity resolves to an available id: itself, or the only one ending in the unqualified name |
| SchemaSelection.IdentityMeans | packages/core/src/schema/schema-selection.ts:233-248 | exactly: an available id, or else the unqualified name of exactly one object |
| SchemaSelection.IdentitiesMean | packages/core/src/schema/schema-selection.ts:215-231 | a list of identities is refused exactly for an entry twice, an object twice, or one that is no identity |
| SchemaSelection.DirectMeans | packages/core/src/schema/schema-selection.ts:192-213 | what is asked for less what is excluded, and when that is refused |
| SchemaSelection.ResolveNonInteractive | packages/core/src/schema/schema-selection.ts:192-213 | included ids without the excluded ones, or the error |
| SchemaSelection.InteractiveMeans | packages/core/src/schema/schema-selection.ts:80-101 | a review is shown the catalog with the stored choices and what is gone from it; its answer counts once removals, if any, are confirmed |
| SchemaSelection.ResolveRefuses | packages/core/src/schema/schema-selection.ts:68-129 | a new selection needs a valid stored one, if any, and a choice of at least one object |
| SchemaSelection.ResolveSelects | packages/core/src/schema/schema-selection.ts:68-129 | it then selects exactly what was chosen, and says what is new and gone since the stored one |
| SchemaSelection.ValidMeans | packages/core/src/schema/schema-selection.ts:251-264 | a stored selection is valid for this format, this catalog version, and distinct ids; which of them fails is said in that order |
| SchemaSelection.Duplicates | packages/core/src/schema/schema-selection.ts:266-274 | exactly the values that occur twice, once each, in the default order |
| RuntimeMappings.TableIsAllowed | packages/core/src/schema/runtime-schema-mappings.ts:128-141 | a runtime table is a selected catalog object, and each of its keys names columns and a selected object, which it is read as unless that object's schema has no name |
| RuntimeMappings.TableMirrors | packages/core/src/schema/runtime-schema-mappings.ts:94-168 | a runtime table has its object's mapped columns and keys and exactly the relationships to selected objects, each with its pairs side by side |
| RuntimeMappings.TablesMirror | packages/core/src/schema/runtime-schema-mappings.ts:62-89 | every selected object has its runtime table, in the catalog's order |
| RuntimeMappings.NamelessSchemaMisses | packages/core/src/execution/schema-graph.ts:305-308 | a key to an object in a schema without a name is read as one to the table's own schema |
| RuntimeMappings.CreateGraph | packages/core/src/schema/runtime-schema-mappings.ts:62-89 | the graph over the runtime tables holds selected catalog objects only |
| RuntimeMappings.PathSelected | packages/core/src/execution/schema-graph.ts:98-132 | both tables of every step of any join path over it are in the catalog and were selected |
| RuntimeMappings.JoinSelected | packages/core/src/execution/schema-graph.ts:207-220 | every table of any join over it, intermediate ones included, is in the catalog and was selected |
| RuntimeMappings.CreatedCatalogIsSound | packages/core/src/schema/schema-catalog.ts:141-257 | created catalogs have what the closure needs: distinct qualified ids and non-empty relationships |

## Left out

- Drivers, executors, HTTP, the CLI, file storage, logging and configuration: input and output only.
- Order-by, projection and window text in the Go builder: one text-only node whose text is a function of the parameters, and which T-SQL may refuse. The aggregate transform of `BuildWithTransform` only changes such text.
- SQL text is kept as a sequence of fragments; the builder's single string is their rendering.
- Upper- and lower-casing is ASCII only; trimming and locale comparison are given total functions, the latter a total order.
- JavaScript and Go strings are sequences of Dafny characters; JSON text is what a decoder reads of it, member by member. A Go map struct without its map, which only a literal can make, is not modelled.
- Positions inside DuckDB parser errors, and the precision of `Number()` for list lengths.
- The `limit` hook and `clearContextMetrics` of the TTL limiter, the metrics getters, and calls outside init, check and end.
- The clocks, the durations, the hooks' and plugins' answers are parameters of events; averages are computed over reals.
- The text formatters of the schema graph and its table descriptions. A select query is the root and the joined tables it is made of. `Join` builds the foreign-key graph before it looks at its targets, earlier than the source, which nothing can observe. The keys of steps are compared column by column, not as joined text.
- DuckDbEnums.UdtNamesItsEnum: schema names hold no NUL, which the source uses as separator.
- Names of schemas and constraints hold no NUL where the source joins them with NUL; `CatalogRelationships.GroupingConserves` says what else happens.
- Hashing of the catalog: the model stops at the hashed value. A warning about a column is its id, which determines the message.
- Runtime tables keep column names, keys and primary keys; column types, JSON schemas and CRUD flags are not modelled, nor that JavaScript lists keys that look like numbers first.
- Object key order in `deepMerge`: properties are a map, and the keys of a frame are merged in any order.
- The pipeline's plugin registration while executions run, `clear`, `from`, and errors' wrapping; plugin callbacks other than checks cannot fail, as the source catches their errors.
- Failing statements inside a transaction, and a COMMIT that takes effect but is reported as failed; PostgreSQL's aborted-transaction mode; isolation options.
- Savepoint programs of other shapes than `Nested` whose nested names coincide: they have no exact condition here.
- The Go limiter's mutex: each hook is one step.
- The Go pipeline's hook unregistration and its startup authorization check.
