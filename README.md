# SQL join planner: a verified model

The system turns a PostgreSQL schema (CREATE TABLE and ALTER TABLE ... ADD
CONSTRAINT statements) into a graph of tables and foreign keys. The user
picks a base table and a set of `table.column` / `table.*` ids. From these
the system writes a `SELECT ... FROM ... LEFT JOIN ... ON ...` query that
joins every selected table along foreign keys, and warns about the tables
it cannot reach.

This project models that pipeline in Dafny and proves what each stage
promises:

| file | module | models |
|---|---|---|
| `text.dfy` | `Text` | JavaScript string and array idioms the code relies on: ASCII `toLowerCase`, `split('.', 2)`, `split`/`join`, `[...new Set(xs)].sort()`, a stable comparator sort, template-literal numbers |
| `idents.dfy` | `Idents` | `stripSchema`, `unquote`, `normalize`, `needsQuote`, `quoteIdent` (pure) |
| `selections.dfy` | `Selections` | `toggleSelectionReducer` (pure) |
| `schema.dfy` | `Schema` | the records of `types.ts`: `ForeignKey`, `Table`, `SchemaGraph`, `Selection`, `JoinStep`, `Plan` |
| `builder.dfy` | `Builder` | `buildGraphFromDDL` over a closed statement datatype. The class `GraphBuilder` updates the table record in place, and every method is proved equal to a pure step function |
| `search.dfy` | `Search` | the two-way foreign-key adjacency and the breadth-first search of `plan`, as methods with loops proved against recursive specifications |
| `planner.dfy` | `Planner` | the rest of `plan` as methods with loops: targets, the union of parent paths keyed by edge, the ordering by connectivity, aliases, warnings, `expandSelections` |
| `joinplan.dfy` | `JoinPlan` | `plan` as a whole (`MakePlan`, specified by `PlanOf`), and what a plan promises about reachability, warnings, steps and aliases |
| `emitter.dfy` | `Emitter` | `emitSQL`: the SELECT list as a pure map, the JOIN lines as a loop |
| `pipeline.dfy` | `Pipeline` | `generateSql` and what the rendered query promises end to end |

Main results:
- Quoting an identifier reads back to its dot-separated segments (`Idents.QuoteIdentReadsBack`).
- The search reaches a table exactly when some foreign-key walk from the base leads to it (`JoinPlan.ReachedIff`).
- The path to a table has as many edges as its depth, and no walk is shorter (`Search.PathToWalk`, `Search.ShortestWalk`).
- Each turn of the search queues the tables it finds in ascending name order, and each table's parent is the earliest dequeued table with an edge to it (`Search.StepQueue`, `Search.FirstReacher`); in the diamond a-b, a-c, b-d, c-d the path to d runs through b (`Search.DiamondPath`).
- There is one warning per unreachable selected table, and no others (`Pipeline.GenerateWarnings`).
- Every join step touches a table already joined (`JoinPlan.PlanSteps`).
- Every step introduces a fresh, distinct alias (`Pipeline.JoinAliasesFresh`).
- The built graph holds exactly the tables the statements name (`Builder.BuildGraphKeys`); it is sorted and its counts are right (`Builder.BuildGraph`).

Conventions:
- A missing value (`null`, an absent schema, a missing name) is `None` or the empty string, following the code's truthiness tests.
- The order in which a JavaScript object enumerates its keys is the explicit `order` field of `SchemaGraph`.

## Model

| member | source | states |
|---|---|---|
| Text.Lower | src/lib/idents.ts:3 | lower-casing keeps the length and leaves no upper-case letter |
| Text.TablePart | src/lib/plan.ts:6 | the table part of an id is its text before the first dot, and is the whole id exactly when there is no dot |
| Text.ColumnPart | src/lib/plan.ts:6 | the column part is absent exactly when the id has no dot; otherwise it is the dot-free piece after the first dot |
| Text.Distinct | src/lib/buildGraph.ts:42-43 | a `Set` spread back into an array: the same elements, no duplicates, in order of first occurrence |
| Text.SortedSet | src/lib/selectionReducer.ts:12 | `[...new Set(xs)].sort()` is strictly ascending and holds exactly the elements of `xs` |
| Text.SortedSetCanonical | src/lib/selectionReducer.ts:12 | the sorted set depends only on which elements the list holds |
| Text.StrictlySortedUnique | src/lib/buildGraph.ts:132-133 | two strictly ascending lists with the same elements are equal |
| Text.SortByFacts | src/lib/buildGraph.ts:134-139 | the comparator sort returns a permutation, sorted by the key, that keeps the relative order of equal keys |
| Text.Split | src/lib/idents.ts:8 | `split` gives at least one piece, no piece holds the separator, and joining the pieces gives the input back |
| Text.SplitJoin | src/lib/idents.ts:8-12 | splitting undoes joining for pieces without the separator |
| Text.DecimalRoundTrip | src/lib/plan.ts:93-94 | a counter rendered in decimal parses back to itself |
| Text.DecimalInjective | src/lib/plan.ts:93-94 | different counters render as different alias suffixes |
| Text.KeyOrder | src/lib/buildGraph.ts:134-139 | comparing the four key strings one after the other is a strict total order |
| Idents.LeadingQuotes | src/lib/idents.ts:2 | `^"+` matches the longest run of quotes at the start |
| Idents.TrailingQuotes | src/lib/idents.ts:2 | `"+$` matches the longest run of quotes at the end |
| Idents.Unquote | src/lib/idents.ts:2 | the result neither begins nor ends with `"` and is no longer than the input |
| Idents.UnquoteWrapped | src/lib/idents.ts:2 | unquoting removes any runs of quotes around a core that does not begin or end with one, and gives that core |
| Idents.Normalize | src/lib/idents.ts:3 | the key has no upper-case letter, does not begin or end with `"`, and is no longer than the name |
| Idents.NormalizePublic | src/lib/idents.ts:1-3 | a leading `public.` in any letter case is stripped, once |
| Idents.OtherSchemaNotPublic | src/lib/idents.ts:1 | a schema other than `public` is never stripped |
| Idents.NormalizeOtherSchema | src/lib/idents.ts:1-3 | a name under another schema keeps its schema, lower-cased, before the dot |
| Idents.QuotedKey | src/lib/idents.ts:2-3 | a double-quoted name is keyed by its lower-cased contents |
| Idents.PublicQuotedKey | src/lib/idents.ts:1-3 | `public.` followed by a double-quoted name is keyed by the lower-cased contents |
| Idents.PublicCustomersKey | tests/idents.spec.ts:6 | `public."Customers"` normalises to `customers` |
| Idents.WeirdNameKey | tests/idents.spec.ts:7 | `"Weird.Name"` normalises to `weird.name`; the quoted dot is kept |
| Idents.NormalizeNotIdempotent | src/lib/idents.ts:1-3 | `normalize` is not idempotent: `"public.x"` gives `public.x`, which gives `x` |
| Idents.SimpleIsNormal | src/lib/idents.ts:5-6 | a name matching `^[a-z_][a-z0-9_]*$` has no quote, dot or upper case, and is its own key |
| Idents.ReadQuotedEscaped | src/lib/idents.ts:11 | a segment whose quotes are doubled, then closed by a quote, reads back to the segment itself |
| Idents.ReadSegmentQuoted | src/lib/idents.ts:11 | a quoted segment followed by a dot or the end reads back to the segment |
| Idents.ReadJoinedQuoted | src/lib/idents.ts:10-12 | quoted segments joined by dots read back to the segments, in order |
| Idents.QuoteIdentReadsBack | src/lib/idents.ts:7-13 | `quoteIdent(name)` read back as an SQL identifier gives the dot-separated segments of `name` |
| Idents.QuoteIdentSimple | src/lib/idents.ts:9-11 | an undotted name that needs no quoting is left unchanged |
| Idents.EscapeNoQuote | src/lib/idents.ts:11 | a segment without quotes is not changed by escaping |
| Idents.QuoteIdentTwoParts | src/lib/idents.ts:8-12 | a dotted name has every segment quoted, simple ones included |
| Idents.QuoteTwoSimple | src/lib/idents.ts:8-12 | two simple segments joined by a dot come out as `"a"."b"` |
| Idents.QuoteWeirdName | tests/idents.spec.ts:11 | `weird.name` is quoted as `"weird"."name"` |
| Idents.QuoteCustomers | tests/idents.spec.ts:10 | `customers` is left unquoted |
| Selections.ToggleSelection | src/lib/selectionReducer.ts:1-13 | the result is strictly ascending, and holds exactly: without the id, if it was selected; or with the new star and without the table's other ids; or with the new column and without the table's star |
| Selections.StarOfTable | src/lib/selectionReducer.ts:2-3 | `t.*` belongs to table `t` and is a star id |
| Selections.ToggleAddsNew | src/lib/selectionReducer.ts:6-9 | a newly toggled id is always selected afterwards |
| Selections.ToggleKeepsOtherTables | src/lib/selectionReducer.ts:8-9 | ids of other tables are never removed |
| Selections.ToggleInventsNothing | src/lib/selectionReducer.ts:6-12 | everything in the result was selected before or is the toggled id |
| Selections.ToggleTwice | src/lib/selectionReducer.ts:6-12 | when no id of the table was selected, toggling an id twice gives back the sorted, deduplicated selection |
| Selections.ToggleStarClearsTable | src/lib/selectionReducer.ts:8 | a new star over only that table's column ids leaves the star alone |
| Selections.ToggleRemoveOnly | src/lib/selectionReducer.ts:6 | toggling the only selected id leaves nothing selected |
| Selections.ToggleStarTwiceClears | src/lib/selectionReducer.ts:6-12 | a star toggled on and off over that table's columns clears them all |
| Selections.ToggleStarExample | tests/selectionReducer.spec.ts:4-7 | `['orders.order_id','orders.ship_name']` toggled with `orders.*` gives `['orders.*']` |
| Selections.ToggleColumnReplacesStar | src/lib/selectionReducer.ts:9 | a column of a table replaces that table's star |
| Selections.ToggleColumnExample | tests/selectionReducer.spec.ts:8-11 | `['orders.*']` toggled with `orders.order_id` gives `['orders.order_id']` |
| Selections.ToggleRemoveExample | tests/selectionReducer.spec.ts:12-15 | `['orders.order_id']` toggled with the same id gives `[]` |
| Selections.ToggleTwiceLosesColumns | src/lib/selectionReducer.ts:6-12 | toggling a star twice does not restore the columns it replaced |
| Builder.NormalizeAll | src/lib/buildGraph.ts:40 | every column name is normalised, in place and order |
| Builder.Ensure | src/lib/buildGraph.ts:10-28 | `ensureTable` adds the key `normalize(qualified)` once, at the end of the key order, as an empty table named by that key; an existing entry keeps its content and only has a missing `qualifiedName` filled; no other entry changes |
| Builder.EnsureKeepsValid | src/lib/buildGraph.ts:10-28 | every entry sits under its own name, and the key order lists each key once |
| Builder.Put | src/lib/buildGraph.ts:43 | replacing an entry keeps the keys and their order |
| Builder.OnlyConstraintsKeepValid | src/lib/buildGraph.ts:46-61 | changing only an entry's primary and foreign keys keeps the record well keyed |
| Builder.ApplyInline | src/lib/buildGraph.ts:46-61 | an inline constraint changes only the primary key and foreign keys of the table being created |
| Builder.InlineEffect | src/lib/buildGraph.ts:47-60 | an inline PRIMARY KEY replaces the key with its columns normalised and deduplicated; an inline FOREIGN KEY naming its target appends one foreign key owned by the table's name, with normalised columns and no constraint name; one without a target, or any other constraint, changes nothing |
| Builder.InlineFksFrom | src/lib/buildGraph.ts:51-60 | a foreign key is added by a constraint list exactly when some FOREIGN KEY of the list names its target and gives that key |
| Builder.ApplyInlines | src/lib/buildGraph.ts:46-62 | the inline constraints, in order, change only that table's primary key and foreign keys |
| Builder.InlinesAppend | src/lib/buildGraph.ts:46-61 | the inline constraints append the foreign keys they name to the table's, in constraint order |
| Builder.InlinesKeepKey | src/lib/buildGraph.ts:46-50 | without a PRIMARY KEY among the inline constraints, the table's key is kept |
| Builder.InlinesLastPrimaryKey | src/lib/buildGraph.ts:46-50 | the last PRIMARY KEY among the inline constraints gives the table's key |
| Builder.ApplyChange | src/lib/buildGraph.ts:75-124 | an ALTER change changes only the primary key and foreign keys of the altered table |
| Builder.ApplyChanges | src/lib/buildGraph.ts:75-125 | the changes, in order, change only that table's primary key and foreign keys |
| Builder.ApplyCreate | src/lib/buildGraph.ts:31-63 | a CREATE without a name is skipped; otherwise it adds at most its own key and leaves every other entry alone |
| Builder.CreateMergesColumns | src/lib/buildGraph.ts:38-43 | the columns after CREATE are exactly the old ones together with the new named ones, normalised |
| Builder.CreateConstraints | src/lib/buildGraph.ts:37-62 | after CREATE the entry keeps the ensured entry's names, its foreign keys are the ensured ones followed by those the inline constraints name, and its key is that of the last inline PRIMARY KEY, or the ensured one when there is none |
| Builder.InlinePrimaryKeyReplaces | src/lib/buildGraph.ts:47-50 | an inline PRIMARY KEY, on an existing table or a new one, makes the key exactly the normalised listed columns, once each, and leaves the foreign keys alone |
| Builder.InlineForeignKeyAppends | src/lib/buildGraph.ts:51-60 | an inline FOREIGN KEY naming its target appends exactly one foreign key, owned by the entry's name (its key in a well-keyed record), to the normalised reference, with the columns normalised in order and no constraint name; the primary key is unchanged |
| Builder.InlineForeignKeyWithoutTargetSkipped | src/lib/buildGraph.ts:55-56 | an inline FOREIGN KEY without a referenced table name is skipped |
| Builder.ApplyAlter | src/lib/buildGraph.ts:64-126 | an ALTER without a name is skipped; otherwise it ensures its table and leaves every other entry alone |
| Builder.StatementKeepsValid | src/lib/buildGraph.ts:31-127 | every statement keeps each table under its own name and the key order complete and duplicate-free |
| Builder.AllKeepValid | src/lib/buildGraph.ts:31-127 | the whole statement list keeps the record well keyed |
| Builder.ApplyAllKeys | src/lib/buildGraph.ts:31-127 | the statement fold adds exactly the normalised names of the tables that a named CREATE TABLE or ALTER TABLE mentions |
| Builder.FinalizeTableSorted | src/lib/buildGraph.ts:132-139 | columns and primary key become strictly ascending with the same elements; the foreign keys become a stable sorted permutation under the key (fromTable, toTable, fromCols, toCols) |
| Builder.FinalTables | src/lib/buildGraph.ts:131-139 | every table is finalised, under the same keys |
| Builder.FinalizeEntries | src/lib/buildGraph.ts:131-139 | the finalisation loop keeps the key set |
| Builder.FinalizeEntriesUnvisited | src/lib/buildGraph.ts:131-139 | a table the loop has not reached yet is unchanged |
| Builder.FinalizeEntriesStep | src/lib/buildGraph.ts:131-139 | one more turn of the loop finalises the raw table under the next key |
| Builder.FinalizeEntriesAll | src/lib/buildGraph.ts:131-139 | visiting every key once finalises every table |
| Builder.LoopFinalises | src/lib/buildGraph.ts:130-141 | after the loop every table is finalised, and the running count over the raw lists equals the count over the sorted ones |
| Builder.FkTotalStep | src/lib/buildGraph.ts:140 | each turn adds the table's number of foreign keys to `fkCount` |
| Builder.KeyCount | src/lib/buildGraph.ts:145 | a well-keyed record has as many keys as its key order has entries |
| Builder.FkTotalFinal | src/lib/buildGraph.ts:134-140 | sorting the foreign-key lists does not change the total |
| Builder.Finished | src/lib/buildGraph.ts:143-146 | the finished graph is well keyed |
| Builder.BuildGraph | src/lib/buildGraph.ts:6-148 | every table sits under its own name, with sorted duplicate-free columns and primary key and foreign keys sorted by the comparator; `tableCount` is the number of keys and `fkCount` is the total number of foreign keys |
| Builder.BuildGraphKeys | src/lib/buildGraph.ts:6-148 | the built graph's keys are exactly the normalised qualified names that the named CREATE TABLE and ALTER TABLE statements mention; a foreign key's reference adds none |
| Builder.BuildGraphIsFinished | src/lib/buildGraph.ts:6-148 | the build is the statement fold followed by the finalisation |
| Builder.PublicAndBareShareKey | src/lib/buildGraph.ts:10-12 | `public.n` and `n` share the key `n`, so no `public.` key arises |
| Builder.OneChange | src/lib/buildGraph.ts:70-76 | an ALTER with one change is that change applied to the ensured entry |
| Builder.NamedColumns | src/lib/buildGraph.ts:94-98 | the named columns, normalised, are exactly the normalised non-empty names |
| Builder.AlterPrimaryKeyReplaces | src/lib/buildGraph.ts:81-89 | ADD PRIMARY KEY replaces the key with the normalised, deduplicated named columns; the columns and foreign keys are unchanged |
| Builder.AlterForeignKeyAppends | src/lib/buildGraph.ts:92-123 | ADD FOREIGN KEY with a referenced table appends exactly one foreign key: from the owner's key, to the normalised reference, with the columns normalised in declared order and the constraint name when given |
| Builder.AlterForeignKeyWithoutTargetSkipped | src/lib/buildGraph.ts:105 | a foreign key without a referenced table name only ensures the owner |
| Builder.OtherChangesSkipped | src/lib/buildGraph.ts:76 | changes other than `add constraint` are skipped |
| Builder.OtherChangesIdle | src/lib/buildGraph.ts:76 | skipped changes leave the record as it was |
| Builder.CreateNew | src/lib/buildGraph.ts:31-43 | CREATE of a new name adds one entry holding its named columns, at the end of the key order |
| Builder.CreateNewKeyed | src/lib/buildGraph.ts:47-50 | an inline primary key on a new table becomes its primary key |
| Builder.MiniSchema | tests/buildGraph.mini.spec.ts:10-26 | two CREATEs and one ALTER ADD FOREIGN KEY give exactly two keys, the first table's primary key `[pk]`, exactly one foreign key on the second, and stats of two tables and one foreign key |
| Builder.MiniFixture | tests/buildGraph.mini.spec.ts:23-26 | with `public.C` and a bare `O` the keys are `C` and `O`, and the foreign key points at `C` |
| Builder.FinishedTwo | src/lib/buildGraph.ts:129-146 | finalising a record of two entries finalises both and counts their foreign keys |
| Builder.GraphBuilder.constructor | src/lib/buildGraph.ts:8 | the builder starts with no tables |
| Builder.GraphBuilder.EnsureTable | src/lib/buildGraph.ts:10-28 | returns the normalised key, and the record becomes `Ensure` of the old one |
| Builder.GraphBuilder.AddInlineConstraint | src/lib/buildGraph.ts:46-61 | the record becomes `ApplyInline` of the old one; a PRIMARY KEY sets the table's key to its columns normalised and deduplicated, and a FOREIGN KEY naming its target appends one foreign key owned by the table's name |
| Builder.GraphBuilder.AddCreateTable | src/lib/buildGraph.ts:31-63 | the record becomes `ApplyCreate` of the old one |
| Builder.GraphBuilder.AddChange | src/lib/buildGraph.ts:75-124 | the record becomes `ApplyChange` of the old one |
| Builder.GraphBuilder.AddAlterTable | src/lib/buildGraph.ts:64-126 | the record becomes `ApplyAlter` of the old one |
| Builder.GraphBuilder.Finish | src/lib/buildGraph.ts:129-146 | the in-place finalisation loop and the `fkCount` accumulator give `Finished` of the old record |
| Builder.BuildGraphFromStatements | src/lib/buildGraph.ts:6-148 | the builder run over the statements returns `BuildGraph` |
| Search.TablesAt | src/lib/plan.ts:28 | the tables listed are exactly those stored under the given keys |
| Search.TableEdgesIff | src/lib/plan.ts:30-36 | one table adds an edge to a node's list exactly when one of its foreign keys contributes it |
| Search.AllEdgesIff | src/lib/plan.ts:27-37 | an edge is in a node's list exactly when some table has a foreign key whose forward or reverse edge it is |
| Search.Adjacency | src/lib/plan.ts:27-37 | the adjacency list of every node is the push order of the forward and reverse edges |
| Search.AdjacencyFromKeyed | src/lib/plan.ts:32-35 | every edge in the list of `n` starts at `n` |
| Search.BuildAdjacency | src/lib/plan.ts:27-37 | the loop of pushes builds exactly that adjacency |
| Search.Explore | src/lib/plan.ts:45-56 | the search runs until the queue is empty |
| Search.VisitNeighbours | src/lib/plan.ts:49-55 | the inner loop gives every sorted neighbour without a depth the next depth and the current table as parent, and queues it |
| Search.Bfs | src/lib/plan.ts:41-56 | the search loop computes the depth and parent maps of `Explore` from the base |
| Search.NeighboursStable | src/lib/plan.ts:48 | sorting the neighbours by (to, from) keeps the edges to any one table in adjacency order |
| Search.ExploreInv | src/lib/plan.ts:43-56 | the search keeps each table queued at most once, in ascending depth, and ends rooted at the base with consistent parents and every table's neighbours closed |
| Search.BfsSearched | src/lib/plan.ts:41-56 | the base has depth 0 and no parent; every other table with a depth has a parent one level up, reached along the first edge of the parent's sorted list that leads to it |
| Search.SortedNeighbours | src/lib/plan.ts:48 | the sorted neighbours come in ascending order of the table they lead to, and lead to exactly the tables the adjacency list leads to |
| Search.DiscoverQueue | src/lib/plan.ts:49-55 | visiting neighbours in ascending order of their targets appends to the queue, strictly ascending by name, exactly the targets that had no depth yet |
| Search.StepQueue | src/lib/plan.ts:45-55 | one turn keeps the rest of the queue in front and appends, strictly ascending by name, exactly the tables the dequeued table has an edge to that had no depth yet |
| Search.DequeuedFifo | src/lib/plan.ts:45-46 | the queued tables are the next ones dequeued, in queue order |
| Search.DiscoverKeeps | src/lib/plan.ts:49-55 | the inner loop keeps the depths and parents already set, gives each table it adds the current table as parent and the next depth, and gives every neighbour a depth |
| Search.StepKeeps | src/lib/plan.ts:45-55 | one turn keeps the depths and parents already set, gives each table it adds the dequeued table as parent, and gives every table the dequeued one has an edge to a depth |
| Search.ExploreKeeps | src/lib/plan.ts:45-56 | a depth or parent, once set, is never changed by the rest of the search |
| Search.FirstReacherFrom | src/lib/plan.ts:45-56 | every table found from a state has as parent a dequeued table, dequeued no later than any dequeued table with an edge to it |
| Search.FirstReacher | src/lib/plan.ts:45-56 | each table's parent is the earliest dequeued table with an edge to it; with `StepQueue` and `DequeuedFifo` this is the tie-break among equal-depth parents |
| Search.ParentLeads | src/lib/plan.ts:52-53 | a table's parent in a finished search has an edge to it |
| Search.FirstTurn | src/lib/plan.ts:45-55 | when the base's neighbours are exactly b and c, b before c by name, the first turn queues b then c |
| Search.DiamondOrder | src/lib/plan.ts:45-55 | in that case the search dequeues the base, then b, then c |
| Search.DiamondParents | tests/plan.edgecases.spec.ts:14-21 | in that case, if b has an edge to d, b and c hang off the base and d hangs off b, whatever edges c has |
| Search.DiamondPath | tests/plan.edgecases.spec.ts:14-21 | in that case the path to d is the first edge from the base to b, then the first edge from b to d |
| Search.PathToWalk | src/lib/plan.ts:64-68 | the path rebuilt from a reached table is a walk from the base to it, as long as its depth, made of parent edges |
| Search.ShortestWalk | src/lib/plan.ts:41-56 | every table at the end of a walk from the base has a depth no greater than the walk's length |
| Search.ReconstructPath | src/lib/plan.ts:63-68 | the loop along parent links, reversed, gives the path from the base |
| Planner.TableParts | src/lib/plan.ts:38 | the table part of every id, in order |
| Planner.Targets | src/lib/plan.ts:38 | the targets are duplicate-free and are exactly the non-empty table parts other than the base |
| Planner.TargetsFromIds | src/lib/plan.ts:38 | a table is a target exactly when some selected id names it and it is neither empty nor the base |
| Planner.KeyEnds | src/lib/plan.ts:59 | for names without `>` or a vertical bar, equal edge keys mean equal edge ends |
| Planner.SetAllOk | src/lib/plan.ts:69 | setting a path's edges keeps the key list and the edge record in step |
| Planner.UnionCovers | src/lib/plan.ts:60-70 | the union holds an edge under the key of every edge on a path to a reached target, and nothing else |
| Planner.UnionHoldsPaths | src/lib/plan.ts:60-70 | with plain names, each edge on such a path is the one kept under its key |
| Planner.UnionPaths | src/lib/plan.ts:60-70 | the path loop builds exactly the union |
| Planner.Ends | src/lib/plan.ts:82 | both ends of every edge are visited once the edge is taken |
| Planner.Remove | src/lib/plan.ts:83 | deleting a key leaves exactly the other keys |
| Planner.Pass | src/lib/plan.ts:78-85 | one sweep splits the pending keys into taken and left, and only adds to the visited tables |
| Planner.Order | src/lib/plan.ts:73-87 | the ordering only takes pending keys |
| Planner.PassFacts | src/lib/plan.ts:78-85 | each edge taken by a sweep touches a table visited before it |
| Planner.OrderKeys | src/lib/plan.ts:73-87 | the ordering takes each key at most once |
| Planner.OrderChained | src/lib/plan.ts:73-87 | every ordered edge touches the base or an end of an earlier edge |
| Planner.OrderComplete | src/lib/plan.ts:73-87 | when every pending edge hangs off a tree rooted at the base, the ordering takes them all |
| Planner.OrderAllTouching | src/lib/plan.ts:78-85 | when every pending edge already touches the visited tables, one sweep takes them all in key order |
| Planner.RunPass | src/lib/plan.ts:78-85 | the inner loop appends the edges of the sweep, and returns its visited set, the keys it leaves, and whether it took anything |
| Planner.OrderEdges | src/lib/plan.ts:73-87 | the ordering loop terminates and returns the ordered edges |
| Planner.EndList | src/lib/plan.ts:92-95 | both ends of every edge, from-side before to-side, in edge order |
| Planner.AliasMapSnoc | src/lib/plan.ts:93-94 | a table seen for the first time gets the next `t<n>` |
| Planner.AliasesFacts | src/lib/plan.ts:90-95 | the base is `t0`; every end of every step has an alias; the aliased tables are exactly the base and the step ends; every alias is `t` and a position; no two tables share one |
| Planner.AliasMapFacts | src/lib/plan.ts:90-95 | each table gets `t` followed by its first position in the order of appearance |
| Planner.AliasMapInjective | src/lib/plan.ts:93-94 | different tables get different aliases |
| Planner.AssignAliases | src/lib/plan.ts:89-95 | the counter loop builds exactly that alias record |
| Planner.Warnings | src/lib/plan.ts:99-100 | one warning `No FK path from <base> to <t>; omitting its columns.` per target without a depth, in target order |
| Planner.NoPathWarningInjective | src/lib/plan.ts:100 | different tables give different warnings |
| Planner.WarningsExact | src/lib/plan.ts:99-100 | a warning is issued for exactly the targets without a depth, and none twice |
| Planner.UnreachedNoDup | src/lib/plan.ts:100 | the unreached targets are duplicate-free |
| Planner.WarnUnreached | src/lib/plan.ts:99-100 | the warning loop builds exactly those warnings |
| Planner.Group | src/lib/plan.ts:4-11 | the grouped tables are duplicate-free, have an entry each, and never the empty name |
| Planner.GroupTables | src/lib/plan.ts:5-9 | the grouped tables are exactly the non-empty table parts of the ids |
| Planner.GroupOrder | src/lib/plan.ts:8-9 | the grouped tables come in order of first mention |
| Planner.GroupKnows | src/lib/plan.ts:7-9 | every table named by some id has an entry |
| Planner.GroupStar | src/lib/plan.ts:10 | a table is starred exactly when some id is `T.*` |
| Planner.GroupCols | src/lib/plan.ts:10 | the columns of a table are exactly its mentioned column parts other than empty and `*` |
| Planner.ExpandMembers | src/lib/plan.ts:12-19 | the output holds `{T,'*'}` for a starred table and otherwise exactly its columns |
| Planner.ExpandGrouped | src/lib/plan.ts:13-18 | each table's selections stand together, in table order, its columns strictly ascending |
| Planner.SelectedIff | src/lib/plan.ts:3-20 | `{t,c}` is selected exactly when some id names it, with non-empty parts, and the table's star (when mentioned) replaces its columns |
| Planner.ExpandOrder | src/lib/plan.ts:3-20 | the expansion follows first mention of each table, with columns sorted within it |
| Planner.GroupIds | src/lib/plan.ts:4-11 | the grouping loop builds exactly the grouping |
| Planner.ExpandGroups | src/lib/plan.ts:12-19 | the output loop builds exactly the expansion |
| Planner.PushColumns | src/lib/plan.ts:16 | each sorted column is pushed in order |
| Planner.ExpandSelectionIds | src/lib/plan.ts:3-20 | `expandSelections` returns exactly `ExpandSelections` |
| JoinPlan.GraphAdjacency | src/lib/plan.ts:27-37 | the adjacency of the graph's tables, taken in key order; each list starts at its node |
| JoinPlan.Reach | src/lib/plan.ts:41-56 | the finished search from the base, with parent links back to it |
| JoinPlan.PathMap | src/lib/plan.ts:58-70 | the edge union is keyed consistently |
| JoinPlan.Steps | src/lib/plan.ts:97 | one join step per ordered edge, with its ends and its foreign key |
| JoinPlan.MakePlan | src/lib/plan.ts:22-103 | the planner, run step by step, returns `PlanOf`: no plan without a graph, a non-empty base or a selection |
| JoinPlan.ReachedIff | src/lib/plan.ts:41-56 | the search gives a table a depth exactly when some foreign-key walk from the base leads to it |
| JoinPlan.PlanWarnings | src/lib/plan.ts:99-100 | the warnings are duplicate-free, each a no-path warning, one exactly for each unreachable target |
| JoinPlan.UnionEdgesTree | src/lib/plan.ts:60-70 | every edge of the union is a parent edge of the search, stored under its own key, and in the adjacency |
| JoinPlan.PlanSteps | src/lib/plan.ts:73-97 | every step touches the base or an end of an earlier step, follows a parent edge, and no two steps share an edge key |
| JoinPlan.PlainParents | src/lib/plan.ts:59 | with plain names, every parent edge has plain ends |
| JoinPlan.UnionHangsAt | src/lib/plan.ts:60-70 | each union edge leads from a table one level up, whose own parent edge is in the union |
| JoinPlan.UnionHangs | src/lib/plan.ts:60-70 | the union is a tree hanging off the base |
| JoinPlan.PathsOrdered | src/lib/plan.ts:61-87 | with plain names, every edge on the path to a reached target is among the ordered steps |
| JoinPlan.ReachedAliased | src/lib/plan.ts:90-95 | with plain names, every reachable target gets an alias |
| JoinPlan.OnlyBase | tests/plan.edgecases.spec.ts:27-33 | selecting only the base gives no steps, no warnings and the single alias `t0`, even with a self-reference |
| JoinPlan.DirectPath | src/lib/plan.ts:64-68 | the path to a table at depth 1 is its parent edge |
| JoinPlan.UnionDirect | src/lib/plan.ts:61-70 | when all reached targets are direct neighbours, the union holds one edge per target, in target order |
| JoinPlan.DirectUnion | src/lib/plan.ts:61-70 | in that case, the union's keys are the base's edges to the reached targets, in order of first mention |
| JoinPlan.DirectTargets | src/lib/plan.ts:73-87 | in that case, the steps go from the base to the reached targets, in order of first mention |
| JoinPlan.OrderedNewTables | src/lib/plan.ts:73-87 | every ordered edge leads to a table other than the base, a different one each time |
| JoinPlan.StepsFromEdges | src/lib/plan.ts:97 | steps lead where their edges lead |
| JoinPlan.StepsJoinNewTables | src/lib/plan.ts:97 | every step joins a table other than the base, a different one each time |
| JoinPlan.StepEndsReached | src/lib/plan.ts:73-87 | both ends of every step are tables the search reached |
| JoinPlan.StepAliases | src/lib/plan.ts:90-95 | over steps that each lead to a new table, the base is aliased `t0` and each step's table gets an alias of its own, never `t0` |
| JoinPlan.NoEndNoAlias | src/lib/plan.ts:90-95 | a table that is not the base and no end of any step has no alias |
| JoinPlan.UnreachedUnaliased | src/lib/plan.ts:90-95 | a table the search did not reach has no alias |
| Emitter.UnaliasedItem | src/lib/sql.ts:5-10 | a column of a table without an alias renders as `undefined.` and the quoted column |
| Emitter.SelectParts | src/lib/sql.ts:9-11 | one select item per selection, in order: `alias.*` or `alias.` and the quoted column |
| Emitter.OnParts | src/lib/sql.ts:26-31 | as many equalities as the shorter of the two column lists, the i-th pairing column i of each |
| Emitter.JoinLines | src/lib/sql.ts:20-34 | one JOIN line per step, in step order |
| Emitter.EmitJoin | src/lib/sql.ts:21-33 | the loop pushing ON equalities builds exactly the step's JOIN line |
| Emitter.EmitSql | src/lib/sql.ts:4-37 | the lines `SELECT`, the select list, `FROM`, the base and the JOIN lines, joined by newlines and closed by `;` |
| Emitter.OnFlip | src/lib/sql.ts:24-29 | a reverse step renders the equalities a forward step over the swapped key would |
| Emitter.OnTrivial | src/lib/sql.ts:32 | the ON clause is the literal `1=1` exactly when the key has no column pair |
| Emitter.JoinNewlines | src/lib/sql.ts:36 | joining lines by newlines is the first line followed by each other line after a newline |
| Emitter.SqlEnds | src/lib/sql.ts:12-36 | the text opens with the `SELECT` line and ends with `;` |
| Pipeline.GenerateCases | src/lib/generateSql.ts:5-14 | without a schema, a non-empty base or a selection the output is the placeholder with no warnings; otherwise it is the rendered plan with the plan's warnings in order; the text ends with `;` exactly when a plan exists |
| Pipeline.GenerateWarnings | src/lib/generateSql.ts:13 | the warnings returned name, once each, exactly the selected tables other than the base that no foreign-key walk reaches |
| Pipeline.JoinAliasesFresh | src/lib/sql.ts:17-33 | the base is aliased `t0`, and every JOIN line introduces its table under a real alias that is neither `t0` nor one an earlier line introduced |
| Pipeline.UnreachedColumnsKept | src/lib/plan.ts:98 | a selected column of an unreachable table stays in the select list under no alias, and renders as `undefined.` and the quoted column |

## Left out

- The SQL parser (`parse` from pgsql-ast-parser) is a foreign library. Statements arrive as the closed `Builder.Statement` datatype. The probing of alternative field names in the parser's output is not modelled. An absent schema and a missing name are the empty string.
- `localeCompare` (neighbour sort, foreign-key sort) and the default `sort()` are both modelled as code-point order of strings (`Text.StrLess`: a `char` is a Unicode scalar value). Locale collation is not modelled. The default `sort()` compares UTF-16 code units, so table or column names holding characters above U+FFFF can sort differently from the code: JavaScript puts U+10000 before U+FFFF, the model puts U+FFFF first. This reaches `Text.SortedSet` (column lists, primary keys, the selection reducer, `expandSelections`), `Search.NeighbourKey` and `Builder.FkKey`.
- `toLowerCase` is modelled as ASCII lower-casing. Unicode case mapping is not modelled.
- JavaScript object keys are modelled as plain map keys plus an explicit insertion order. Two behaviours are not modelled: an integer-like table name is enumerated before the others, and a prototype name such as `constructor` reads as an inherited member.
- Edge keys are strings built from the table names. A table name containing `>` or `|` can make two different edges share a key, and the code then keeps only one of them. The model keeps that behaviour. The completeness results are proved only for names without those characters (`JoinPlan.PlainNames`). These are `UnionHoldsPaths`, `UnionHangs`, `PathsOrdered`, `ReachedAliased` and `DirectTargets`.
- A selected column of an unreachable table has no alias, so it is rendered as `undefined.` and the column. The model keeps this behaviour (`Pipeline.UnreachedColumnsKept`); it does not claim that every selected table has an alias.
- Aliases are numbered by first appearance in step order, from-side before to-side, as the code does (`Planner.AliasMapFacts`).
- No "Multiple equal-cost join paths" warning exists in the code, so none is modelled. One test expects it.
- `normalize` is not idempotent: `Idents.NormalizeNotIdempotent` proves the counterexample.
- A foreign key's reference does not create a table entry (`Builder.BuildGraphKeys`).
- Test fixtures read from files (Northwind, diamond, composite, `alter_fk_options`) are not modelled. The Northwind plans are not stated. The general properties behind them are stated: the neighbour tie-break (`Search.StepQueue`, `Search.DequeuedFifo`, `Search.FirstReacher`, with the diamond case as `Search.DiamondPath`), direct neighbours in mention order (`JoinPlan.DirectTargets`), and the mini fixture (`Builder.MiniFixture`).
- The planner's maps and sets (`adj`, `depth`, `parent`, `edgeMap`, `pending`, `tableAlias`) are local variables of type `map`/`seq`/`set`, reassigned by the methods' loops. There is no aliasing among them.
- `ensureTable` returns a table object that the statement loop then mutates. In the model the builder writes the updated table back into its record (`Builder.Put`), which has the same effect because no other reference to the table is kept.
- Builder.ApplyCreate: its contract states only which keys change. The columns of the entry it creates or updates are stated by `Builder.CreateMergesColumns` and `Builder.CreateNew`. Its primary key and foreign keys are stated by `Builder.CreateConstraints`, `Builder.InlinePrimaryKeyReplaces` and `Builder.InlineForeignKeyAppends`.
- Builder.ApplyInline: its contract states only that the primary key and the foreign keys of one entry may change. The effect of each kind of constraint is stated by `Builder.InlineEffect`.
- Builder.ApplyInlines: its contract states only that the primary key and the foreign keys of one entry may change. The effect of the list is stated by `Builder.InlinesAppend`, `Builder.InlinesKeepKey` and `Builder.InlinesLastPrimaryKey`.
- Builder.ApplyAlter: its contract states only which keys change. The content of the altered entry is stated by `Builder.AlterPrimaryKeyReplaces` and `Builder.AlterForeignKeyAppends`.
- `stats` is always present in `SchemaGraph`, since the builder always sets it.
- The React UI (`App.tsx`, `SchemaTree.tsx`, `IndeterminateCheckbox.tsx`), the zustand store with its simpler toggle, `parseDDL.ts`, the scripts and the build configuration are not part of this model.
