# PL/SQL statement analysis and Java generation helpers, modelled in Dafny

The repository turns PL/SQL stored procedures into an annotated graph and then
generates Java (Spring entities, JPA repositories, services and controllers)
from that graph. This project models its deterministic core:

- **Statement analysis pipeline** (`temp/analysis_async_refactor.py`).
  - The **StatementCollector** flattens a parse tree into an arena of statement nodes. It numbers them in post-order, links parents and children, registers procedures and sets completion flags and pending counters.
  - The **BatchPlanner** packs the analyzable nodes into token-budgeted analysis batches. A node with children always goes alone.
  - A node's **raw and compact code** is built here. Compact code replaces every child's line range by that child's summary. The two request **payloads** of a batch are built from these codes.
  - The **ApplyManager** buffers analysis results that arrive out of order. It applies them in batch-id order, completes the batch's nodes, builds the graph updates and keeps the procedure and table description buckets.
  - The **dependency gate** makes a worker wait for the children of a batch's nodes.
- **String and range helpers** (`util/utility_tool.py`, `util/string_utils.py`): case conversion, line numbering, table identifiers, the variable line-range index and range selection. The camel case, upper snake case and line numbering of `util/string_utils.py` (lines 31-38, 48-67 and 78-87) are the same code as in `util/utility_tool.py` and are modelled once, by the `UtilityTool` members; only its Pascal case differs and has its own members.
- **Token-budget batchers** of the entity generator (`convert/create_entity.py`) and the repository generator (`convert/create_repository.py`). The repository generator also groups the generated methods by entity and writes one repository file per entity.
- **Service line ranges** (`convert/add_service_line_range.py`): each generated Java block is found in the service file, skipping blank lines, and its line range is recorded.
- **Controller generation** (`convert/create_controller.py`). A registry keeps one controller manager per user and object. The manager gathers the generated methods and writes them into the controller skeleton.

State the source changes in place is modelled with classes:
StatementCollector, BatchPlanner, ApplyManager, EntityGenerator, RepositoryGenerator, the used-query-method table, ControllerManager and the controller registry. Their methods' contracts tie each new state to a specification function. The properties are proved about those functions. Pure helpers are functions, with lemmas stating what they promise.

Some conventions hold throughout:

- Statement nodes live in a sequence (the arena) at index `node_id - 1`. A node refers to its parent and children by id. Each asyncio `Event` is the boolean `completed`.
- Token counts, the procedure-name regular-expression search and every language-model answer are inputs to the model. They are given as parameters or fields.
- Strings are sequences of characters. "Upper-case" and "white space" mean the ASCII ones.
- The flush loops of `_flush_ready` take the batch-applying function as a parameter (`ApplySpec.Applier`): any function that accepts the batches whose nodes are in the arena and keeps the arena's length. The manager passes `_apply_batch` (`ApplySpec.BatchApplier`), so what is proved about the loops holds for it.

Where the code does something unexpected, the model follows the code.

- `_visit` visits a node's children with the key it inherited, before a procedure node computes its own key. So the statements inside a procedure do not receive that procedure's key: from the top-level call, only procedure nodes carry a key, and every node is completed during collection (`Collector.TopLevelVisit`).
- The forced flush of `_flush_ready` applies the leftover batches without advancing the awaited batch id.
- In `_process_dml_nodes` (convert/create_repository.py:146-157) the running total is reset to 0 after a flush, but line 157 overwrites the reset with the total from before the flush. With non-negative token counts, every batch after the first flush therefore holds a single node. RepositoryGenerator is modelled as written (`Repository.AsWrittenBatchesAreSingletons`; `Repository.CarriedTotalSplitsSmallNodes` gives four nodes that fit into two batches but go out in four). The packing with the reset in effect, as in the entity generator, is proved alongside (`Repository.IntendedBatchesWellPacked`).
- In `find_service_line_ranges`, the recorded end of a block is one less than its last matched line, so a one-line block at line `i` is recorded as `i~i-1` (`ServiceLineRange.OneLineBlockEnd`). The model keeps this.

## Model

| member | source | states |
|---|---|---|
| Statements.ProcedureTypesAreNotAnalyzed | temp/analysis_async_refactor.py:20-21 | every procedure type is one of the non-analysis types |
| Statements.DmlRelationship | temp/analysis_async_refactor.py:24-33 | a relationship exists exactly for the eight DML types, and it is one of FROM, WRITES or EXECUTE |
| Statements.BuildStatementNameInjective | temp/analysis_async_refactor.py:197-198 | two statement names `TYPE[start]` are equal only when type and start line are equal (for types without '[') |
| Statements.IntToStringChars | temp/analysis_async_refactor.py:197-198 | the decimal rendering of a start line begins with '-' exactly for negative numbers and is otherwise all digits |
| Statements.ProcedureNameFromMatch | temp/analysis_async_refactor.py:164-183 | without a match both parts are absent; with a match the name is present, and the schema is present exactly when the name has two or three dotted segments |
| Statements.ProcedureNameOfName | temp/analysis_async_refactor.py:176-183 | a single plain segment is read back as the bare name with no schema |
| Statements.ProcedureNameOfSchemaName | temp/analysis_async_refactor.py:176-180 | `schema.name` is read back as that schema and name |
| Statements.ProcedureNameOfSchemaPackageName | temp/analysis_async_refactor.py:176-178 | `schema.pkg.name` is read back as the schema and the package-qualified name `pkg.name` |
| Statements.OriginalNodeLinesAreNumbered | temp/analysis_async_refactor.py:186-194 | from a non-negative start line, every line get_original_node_code produces starts with a line number |
| Statements.NumberedHasLineNumber | temp/analysis_async_refactor.py:186-194 | a line that the helper numbers carries a line number afterwards |
| Statements.RawCodeSplitsIntoLines | temp/analysis_async_refactor.py:78-79 | splitting the raw code at line breaks gives back one `n: text` line per source line, in order |
| Statements.SortByStart | temp/analysis_async_refactor.py:89 | the children sorted by start line: sorted, and a permutation of the input |
| Statements.SummaryLines | temp/analysis_async_refactor.py:99-112 | a missing or empty summary stands as the one line `start: ... code ...`; a one-line summary as `start: ` followed by the stripped summary |
| Statements.NumberedSummaryLines | temp/analysis_async_refactor.py:104-110 | a multi-line summary gives no more lines than it has, blank ones dropped, and a non-blank first line is numbered with the child's start line |
| Statements.SkipThroughShape | temp/analysis_async_refactor.py:115-116 | the skip loop drops a prefix of lines that all end by the child's end line, and what is left starts after it |
| Statements.CopyLinesBefore | temp/analysis_async_refactor.py:93-96 | the first inner loop copies exactly the run of parent lines before the child's start, numbered |
| Statements.SkipCoveredLines | temp/analysis_async_refactor.py:115-116 | the skip loop stops at the first parent line past the child's end line |
| Statements.EmitChild | temp/analysis_async_refactor.py:91-116 | one round of the child loop emits the lines before the child, then its summary lines, then skips its range |
| Statements.CopyRemainingLines | temp/analysis_async_refactor.py:119-122 | the last loop copies every remaining parent line, numbered |
| Statements.CompactLines | temp/analysis_async_refactor.py:89-122 | the lines the loops produce are the rendering of the compact pieces for the sorted children |
| Statements.GetCompactCode | temp/analysis_async_refactor.py:81-124 | the method returns the compact code: the node's own code without children, otherwise the joined compact lines |
| Statements.EveryChildReplacedOnce | temp/analysis_async_refactor.py:89-116 | every child is replaced exactly once, in ascending start-line order |
| Statements.CopiedLinesAreOutsideChildren | temp/analysis_async_refactor.py:89-122 | for increasing parent lines and disjoint sorted children, the lines copied are exactly the parent lines outside every child range, in order |
| Statements.CreateBatch | temp/analysis_async_refactor.py:353-367 | a batch keeps its id and nodes, has one range per node, lists the ranges of exactly its DML nodes in order, and its progress line is the largest end line |
| Statements.DmlPayloadNotEmpty | temp/analysis_async_refactor.py:149-153 | a batch holding a DML node with at least one line gets a present, non-empty DML payload |
| Statements.InvokedCallsOfPlannedBatch | temp/analysis_async_refactor.py:377-407 | the general analysis call is always made for a batch, and the table call exactly when the batch holds a DML node |
| Collector.LineEntriesIncrease | temp/analysis_async_refactor.py:251-254 | line numbers strictly increase, as get_compact_code needs |
| Collector.ProcKeyDeterminesStart | temp/analysis_async_refactor.py:223-225 | two procedure keys are equal only when their start lines are, so a procedure key names one start line |
| Collector.StatementCollector.Collect | temp/analysis_async_refactor.py:218-221 | the arena is the parse tree in post-order with ids in order, and each node's child ids are the ids of its parse-tree children, in order; every node is completed, only procedure nodes carry a key, and no pending counter moves |
| Collector.StatementCollector.Visit | temp/analysis_async_refactor.py:227-305 | a visit appends the subtree in post-order, links every new node to exactly the ids of its parse-tree children, returns the new root id with no parent, gives every other new node a parent, and extends the arena and procedure table as the collector's facts say |
| Collector.StatementCollector.VisitChildren | temp/analysis_async_refactor.py:245-248 | the children's subtrees are appended in order, each with the inherited scope and linked like its parse tree, and the ids returned are the ids of the children's roots |
| Collector.RootIdsPointAtChildren | temp/analysis_async_refactor.py:245-248 | the j-th child id returned points into the appended block, at the node that is the j-th parse-tree child |
| Collector.StatementCollector.AddNode | temp/analysis_async_refactor.py:250-305 | the node is appended with the next id; the existing nodes change only in their parent links |
| Collector.StatementCollector.BuildNode | temp/analysis_async_refactor.py:250-294 | the new node has the next id, the tree node's lines and type, no parent, the child ids given, and is not yet complete |
| Collector.StatementCollector.RegisterProcedure | temp/analysis_async_refactor.py:257-271 | the key is built from the name candidate and start line; the table gains that key only when it is not registered already (the first registration wins) |
| Collector.StatementCollector.LinkParents | temp/analysis_async_refactor.py:295-297 | exactly the listed children point to the parent; everything else is unchanged |
| Collector.StatementCollector.CountOrComplete | temp/analysis_async_refactor.py:299-302 | an analyzable node with a registered, non-empty key takes one pending slot of its procedure; any other node is completed at once |
| Collector.PendingSameKeys | temp/analysis_async_refactor.py:299-300 | pending counts depend only on the completion flags and keys |
| Collector.TopLevelVisit | temp/analysis_async_refactor.py:218-221 | from the top, every node is complete, non-procedure nodes carry no key and every pending counter is unchanged |
| Planner.BatchPlanner.Plan | temp/analysis_async_refactor.py:314-351 | the batches' nodes concatenated are exactly the analyzable input nodes in order, and every batch is the one plan closes (ids 1..N, built by _create_batch) |
| Planner.BatchPlanner.Place | temp/analysis_async_refactor.py:321-345 | one loop step keeps the planning state: a skipped node changes nothing, otherwise the node is gathered or batched |
| Planner.BatchPlanner.PlaceParent | temp/analysis_async_refactor.py:325-335 | a parent flushes the gathered leaves first and then forms a batch of its own |
| Planner.BatchPlanner.PlaceLeaf | temp/analysis_async_refactor.py:337-345 | a leaf flushes the gathered leaves when it would take their sum over the limit, then joins the gathered leaves |
| Planner.BatchPlanner.Close | temp/analysis_async_refactor.py:353-367 | the gathered nodes become a batch with the next id |
| Planner.BatchPlanner.Default | temp/analysis_async_refactor.py:311-312 | the default limit is MAX_BATCH_TOKEN |
| Planner.PlannedBatch | temp/analysis_async_refactor.py:314-367 | the i-th batch has id i + 1, holds a parent only alone, stays within the limit when it holds several nodes, and could not have taken the leaf that starts the next batch |
| Planner.OversizedNodeAlone | temp/analysis_async_refactor.py:337-345 | a node whose own token count exceeds the limit sits alone in its batch |
| Planner.AppendLeaf | temp/analysis_async_refactor.py:337-345 | gathering a leaf keeps the loop invariant when the sum stays within the limit or nothing was gathered |
| Gate.LeafBatchReady | temp/analysis_async_refactor.py:1143-1151 | a batch without children never waits |
| Gate.ChildrenPlannedEarlier | temp/analysis_async_refactor.py:1143-1151 | every analyzable child of a node in batch j was planned into a batch before j |
| Gate.ParentAlone | temp/analysis_async_refactor.py:325-335 | a batch node with children is its batch's only node |
| Gate.GateOpens | temp/analysis_async_refactor.py:1143-1151 | once every node of the earlier batches is complete, batch j passes the gate, so applying batches in id order never deadlocks |
| Buckets.KeyOf | temp/analysis_async_refactor.py:763-764 | the key of a table is the upper-cased schema (or "") and name |
| Buckets.RecordTableEffect | temp/analysis_async_refactor.py:761-772 | the table's bucket exists afterwards under the upper-cased key; the stripped description is added exactly when it is not blank; no other bucket changes |
| Buckets.RecordTableIgnoresCase | temp/analysis_async_refactor.py:761-772 | recording is insensitive to the case of schema and table name |
| Buckets.RecordTableIdempotent | temp/analysis_async_refactor.py:761-772 | recording a description twice equals recording it once |
| Buckets.RecordColumnBlank | temp/analysis_async_refactor.py:774-778 | a blank column description leaves the store unchanged |
| Buckets.RecordColumnEffect | temp/analysis_async_refactor.py:774-786 | a non-blank description is added to the column's summaries under the upper-cased name, which keeps its first spelling: the summaries become the earlier ones plus the stripped description; nothing else changes |
| Buckets.RecordColumnFirstSpelling | temp/analysis_async_refactor.py:781-786 | two spellings differing only in case share one entry, which keeps the first spelling |
| Buckets.RecordColumnIdempotent | temp/analysis_async_refactor.py:774-786 | recording a column description twice equals recording it once |
| ApplySpec.NodeSummary | temp/analysis_async_refactor.py:509-511 | the node's summary is the summary string, or absent when it is empty or not a string |
| ApplyProps.CallQueryOkIff | temp/analysis_async_refactor.py:506-573 | a call name is accepted exactly when it has at most one '.' |
| ApplyProps.CallQueryExternal | temp/analysis_async_refactor.py:506-573 | `package.procedure` becomes an external call to the upper-cased package and procedure |
| ApplyProps.MarkCompletedEffect | temp/analysis_async_refactor.py:496-500 | completing the batch nodes completes each of them and changes nothing else |
| ApplyProps.NodeStepEffect | temp/analysis_async_refactor.py:487-494 | one pair of the zip rewrites only its node, and fails with the ValueError exactly on a malformed item |
| ApplyProps.NodesPhaseEffect | temp/analysis_async_refactor.py:484-494 | the node loop rewrites only its nodes, leaves the table buckets and send queue alone, and fails exactly when an item is malformed |
| ApplyProps.ApplyBatchEffect | temp/analysis_async_refactor.py:476-504 | applying a batch touches only its nodes; without an error every batch node ends completed (zip truncation included) and at most one message, carrying the progress line, is sent; an empty query list sends nothing |
| ApplyProps.FlushOrderedEffect | temp/analysis_async_refactor.py:466-469 | the ordered loop applies consecutive ids from the awaited one, each of which was pending, removes exactly those, and stops at the first id not pending |
| ApplyProps.FlushForcedEffect | temp/analysis_async_refactor.py:471-474 | the forced loop keeps the awaited id, removes only pending ids, smallest first, and leaves nothing pending unless an error stops it |
| ApplyProps.ForcedFlushDrains | temp/analysis_async_refactor.py:457-460 | a forced flush without an error leaves no batch pending |
| ApplyProps.UpdateSummaryStoreEffect | temp/analysis_async_refactor.py:698-711 | the summary is stored under the node's key, the pending count drops by one but never below zero, and the summary task is requested exactly when the count reaches zero |
| ApplyProps.LinkQueriesForm | temp/analysis_async_refactor.py:647-665 | the DB-link loop emits one query per link with a non-blank name, each a DB link from the entry's node |
| ApplyProps.FkQueriesForm | temp/analysis_async_refactor.py:667-694 | the foreign-key loop emits two queries per complete relation, a table-level foreign key followed by the column-level one between the same two tables |
| ApplyProps.AppliedIdsConsecutive | temp/analysis_async_refactor.py:466-469 | the ordered loop applies consecutive ids in ascending order, starting from the awaited one |
| ApplyProps.OrderedAdvance | temp/analysis_async_refactor.py:466-469 | without an error the ordered loop ends up awaiting the id after the last one it applied |
| ApplyProps.SubmitKeepsInOrder | temp/analysis_async_refactor.py:451-469 | submitting a result with a new id keeps the in-order invariant: ids 1 to next-1 submitted and applied in order, next never submitted, every other submitted id pending |
| ApplyProps.SubmitRunInOrder | temp/analysis_async_refactor.py:413-469 | from a new manager, results with distinct ids submitted in any order without an error are applied as 1, 2, ..., k in that order, where 1 to k were all submitted and k+1 was not, and every other submitted id stays pending |
| ApplySpec.OrderedKeepsArena | temp/analysis_async_refactor.py:466-469 | the ordered loop keeps the number of statement nodes |
| Apply.ApplyManager.constructor | temp/analysis_async_refactor.py:413-449 | a new manager awaits batch 1 with nothing pending, one empty summary bucket per procedure and no table bucket |
| Apply.ApplyManager.Submit | temp/analysis_async_refactor.py:451-455 | the result is stored under its batch id, replacing an earlier one, and the ordered flush follows |
| Apply.ApplyManager.Finalize | temp/analysis_async_refactor.py:457-460 | finalize starts with a forced flush |
| Apply.ApplyManager.FlushReady | temp/analysis_async_refactor.py:464-474 | the new state and error are those of the flush specification |
| Apply.ApplyManager.DrainReady | temp/analysis_async_refactor.py:466-469 | the loop agrees with the ordered flush |
| Apply.ApplyManager.DrainOne | temp/analysis_async_refactor.py:467-469 | one round pops and applies the awaited result; on success the ordered flush is unchanged from the new state, on an error it ends there |
| Apply.ApplyManager.ApplyRemaining | temp/analysis_async_refactor.py:471-474 | the loop agrees with the forced flush |
| Apply.ApplyManager.PopAndApply | temp/analysis_async_refactor.py:467-468 | the id is removed from the pending results and its result applied |
| Apply.ApplyManager.ApplyBatch | temp/analysis_async_refactor.py:476-504 | the method agrees with the batch specification ApplySpec.ApplyBatch |
| Apply.ApplyManager.ApplyNodes | temp/analysis_async_refactor.py:484-494 | the zip loop agrees with the node phase |
| Apply.ApplyManager.ApplyNode | temp/analysis_async_refactor.py:487-494 | one pair agrees with the node step |
| Apply.ApplyManager.FinishBatch | temp/analysis_async_refactor.py:496-504 | the rest of the batch agrees with the finishing step |
| Apply.ApplyManager.MarkBatchCompleted | temp/analysis_async_refactor.py:496-500 | every batch node is completed and nothing else changes |
| Apply.ApplyManager.BuildNodeQueries | temp/analysis_async_refactor.py:506-573 | the node's summary is set and it is completed; the queries are the node MERGE, one per variable and one per call, or the ValueError for a malformed call |
| Apply.ApplyManager.UpdateSummaryStore | temp/analysis_async_refactor.py:698-711 | the method agrees with the summary store specification |
| Apply.ApplyManager.BuildTableQueries | temp/analysis_async_refactor.py:575-696 | the table, column, DB-link and foreign-key queries and the bucket updates are those of the entry loop specification |
| Apply.ApplyManager.EntryQueries | temp/analysis_async_refactor.py:585-694 | one table entry agrees with the entry step: the table MERGE, then its columns, its DB links and its foreign keys |
| Apply.ApplyManager.ColumnQueries | temp/analysis_async_refactor.py:622-645 | the column loop agrees with the column steps: each named column is recorded and gets a MERGE with its type (or ""), its description and its nullability (true unless given false) |
| Apply.ApplyManager.AddLinkQueries | temp/analysis_async_refactor.py:647-665 | the DB-link loop appends exactly the queries of the DB-link specification, in order |
| Apply.ApplyManager.LinkItemQuery | temp/analysis_async_refactor.py:648-665 | one DB link agrees with its specification: a blank name is skipped, otherwise the upper-cased name is parsed and the mode defaults to `r`, lower-cased |
| Apply.ApplyManager.AddFkQueries | temp/analysis_async_refactor.py:667-694 | the foreign-key loop appends exactly the queries of the foreign-key specification, in order |
| Apply.ApplyManager.FkItemQueries | temp/analysis_async_refactor.py:668-694 | one relation agrees with its specification: skipped unless both tables and both columns are non-blank, otherwise the table-level and then the column-level foreign key |
| Apply.ApplyManager.RecordTableSummary | temp/analysis_async_refactor.py:761-772 | the method agrees with Buckets.RecordTable |
| Apply.ApplyManager.RecordColumnSummary | temp/analysis_async_refactor.py:774-786 | the method agrees with Buckets.RecordColumn |
| Apply.ApplyManager.SendQueries | temp/analysis_async_refactor.py:742-753 | nothing is sent for no queries, otherwise exactly one message with the queries and the progress line |
| Apply.Smallest | temp/analysis_async_refactor.py:472 | the least of the pending ids |
| UtilityTool.CamelOfSnakeWords | util/utility_tool.py:109-121 | lower-case snake words joined with `_` turn into the first word followed by the others capitalized, the underscores gone |
| UtilityTool.PascalCase | util/utility_tool.py:87-106 | "" stays "", and without '_' only the first character is upper-cased |
| UtilityTool.PascalCaseDropsUnderscores | util/utility_tool.py:98-102 | with an underscore in the input, none is left in the Pascal case |
| UtilityTool.PascalCaseIsUpperFirstOfCamelCase | util/utility_tool.py:98-121 | with an underscore, the Pascal case is the camel case with its first character upper-cased |
| UtilityTool.UpperSnakeCase | util/utility_tool.py:128-152 | the loop builds the upper snake case of the input |
| UtilityTool.UpperSnakeShape | util/utility_tool.py:139-152 | the output is one character longer per upper-case letter after the first, and holds no lower-case letter |
| UtilityTool.CamelThenUpperSnake | util/utility_tool.py:109-152 | a snake-case identifier turned into camel case and back into upper snake case is the identifier upper-cased |
| UtilityTool.AddLineNumbers | util/utility_tool.py:159-173 | the k-th line gets the prefix `k: `, the list keeps the input's length, and the string is the list concatenated |
| UtilityTool.ParseTableIdentifier | util/utility_tool.py:183-199 | "" gives ("", "", None); a present link is non-empty |
| UtilityTool.ParsedPartsAreClean | util/utility_tool.py:187-199 | the schema holds neither '.' nor '@', the table no '@', and both have no surrounding white space |
| UtilityTool.ParseTableIdentifierRoundTrip | util/utility_tool.py:183-199 | parsing `SCHEMA.TABLE@LINK` built from clean parts gives back the schema, table and link |
| UtilityTool.BuildVariableIndex | util/utility_tool.py:243-264 | the index holds, under each start line and range key, exactly the `type: name` texts of the named variables' range properties, in order |
| UtilityTool.IndexProperties | util/utility_tool.py:253-264 | the inner loop adds one variable's range properties |
| UtilityTool.AddItemsContents | util/utility_tool.py:250-264 | each entry lists exactly the texts of its items, in order, with tokens unset |
| UtilityTool.ScanVariable | util/utility_tool.py:314-324 | the property scan stops at the first range key inside the interval and fails on a malformed key |
| UtilityTool.ScanFindsInside | util/utility_tool.py:314-324 | the scan finds a key exactly when some well-formed key lies inside the interval |
| UtilityTool.CollectVariablesInRange | util/utility_tool.py:301-332 | a variable name is included exactly when one of its `s_e` keys lies inside the interval, with one entry per name |
| UtilityTool.SelectedNamesMembers | util/utility_tool.py:314-328 | a name is collected exactly when some variable with that name is selected |
| UtilityTool.Upsert | util/utility_tool.py:324-326 | an existing name is replaced where it stands and a new one appended, keeping names distinct |
| UtilityTool.QueryMethodTable.constructor | util/utility_tool.py:334-361 | a new table is empty |
| UtilityTool.Inside | util/utility_tool.py:350-356 | exactly the entries whose range lies inside the interval |
| UtilityTool.ExtractUsedQueryMethods | util/utility_tool.py:334-361 | the caller's table gains exactly the entries inside the interval, keeps the rest, and is returned |
| StringUtils.PascalCase | util/string_utils.py:12-21 | without '_' the input comes back unchanged; with '_' the result holds no '_' |
| StringUtils.PascalCaseVariantsDiffer | util/string_utils.py:12-21 | the two Pascal-case helpers disagree exactly on a non-empty input without '_' starting with a lower-case letter |
| Packing.BatchesSpec | convert/create_entity.py:99-128 | every item lands in exactly one batch, in order; batches are non-empty; a batch of two or more stays under the limit; a batch is closed only when the next item would reach the limit; no items gives no batch |
| Packing.CarriedBatches | convert/create_repository.py:146-157 | with the total carried over a flush and no negative cost, every batch after the first holds one item |
| Packing.PackLoopStep | convert/create_entity.py:119-124 | one item of the loop either closes the gathered batch and starts the next, or joins it; either way the closed batches followed by the rest of the loop are the whole answer |
| Entity.PrimaryKeysAppend | convert/create_entity.py:109-114 | the key list keeps column order, and a column contributes its name exactly when it is a key column |
| Entity.PrimaryKeysEmpty | convert/create_entity.py:109-114 | the key list is empty exactly when no column is a key column |
| Entity.TableInfoOf | convert/create_entity.py:104-114 | missing columns become an empty list and a missing schema ""; `primary_keys` is present exactly when some column is a key column |
| Entity.EntityGenerator.Generate | convert/create_entity.py:69-75 | no rows means no batch and no results; otherwise the batches are the greedy batches under 3000 tokens and the results restart empty |
| Entity.EntityGenerator.ProcessTables | convert/create_entity.py:90-128 | the loop hands over the greedy batches of the table descriptions |
| Entity.EntityGenerator.FlushBatch | convert/create_entity.py:141-144 | the results grow by one entry per converted entity, in order |
| Entity.ProcessTablesBatches | convert/create_entity.py:99-128 | every table lands in exactly one non-empty batch, in order; two or more tables stay under 3000 tokens; a single table may exceed it |
| Repository.ItemsStep | convert/create_repository.py:136-157 | a node without token or start line is skipped; any other contributes its code (the summarized code when non-empty, else the node code) at cost token plus variable tokens, ahead of the items of the rest |
| Repository.MergeVars | convert/create_repository.py:155-156 | each key's list is extended in order by the new variables |
| Repository.AsWrittenBatchesAreSingletons | convert/create_repository.py:146-161 | as written, every usable node lands in exactly one batch, in order, and every batch after the first holds one node |
| Repository.CarriedTotalSplitsSmallNodes | convert/create_repository.py:146-157 | costs 1500, 600, 10 and 10 go out in four batches as written, though the last three fit in one under the limit |
| Repository.IntendedBatchesWellPacked | convert/create_repository.py:146-161 | with the total reset at each flush, the batches partition the usable nodes in order, stay under 2000 tokens when they hold several nodes, and close only when the next node would reach the limit |
| Repository.RecordRangesEffect | convert/create_repository.py:181-182 | every range key of the method maps to its code, and every other key keeps its entry |
| Repository.AddMethodsGroups | convert/create_repository.py:174-178 | each entity's list grows by exactly the codes of the methods whose table maps to it, in order; an entity joins the order once |
| Repository.UsedByLastMethod | convert/create_repository.py:179-182 | a range key maps to the code of the last method covering it; other keys keep their entries |
| Repository.AbsorbEffect | convert/create_repository.py:163-186 | the methods are grouped by entity and the sequence methods are added to the set |
| Repository.RepositoryGenerator.constructor | convert/create_repository.py:36-50 | a new generator keeps its project name and has nothing aggregated |
| Repository.RepositoryGenerator.Generate | convert/create_repository.py:100-111 | the state is reset, the batches are flushed in order and the files are those of the aggregated entities |
| Repository.RepositoryGenerator.ProcessDmlNodes | convert/create_repository.py:124-161 | the batches are the as-written batches, and the state is that after flushing each in order |
| Repository.GatheringStep | convert/create_repository.py:146-157 | one usable node either flushes the gathered batch and starts the next with the carried total, or joins the gathered batch; either way the closed batches and the rest of the loop still make up the as-written batches |
| Repository.RepositoryGenerator.FlushNext | convert/create_repository.py:149-150 | flushing the next converted batch moves the state on from the batches flushed before it |
| Repository.RepositoryGenerator.FlushBatch | convert/create_repository.py:163-186 | the methods are added one by one and the sequence methods joined to the set |
| Repository.RepositoryGenerator.AddOneMethod | convert/create_repository.py:174-182 | the code is appended to its entity's list and recorded under each of its ranges |
| Repository.RepositoryGenerator.RecordMethodRanges | convert/create_repository.py:181-182 | the code is recorded under the key of each range |
| Repository.RepositoryGenerator.SaveRepositoryFiles | convert/create_repository.py:188-221 | nothing aggregated gives no file; otherwise one file per entity in insertion order |
| Repository.FilesNamed | convert/create_repository.py:199-219 | there is one file per entity, named `{entity}Repository`, and no two files share a name |
| Repository.FilesEmpty | convert/create_repository.py:195-196 | nothing aggregated gives no file |
| Repository.MergeOneLineMethods | convert/create_repository.py:204-207 | one-line methods are merged as those lines indented by four spaces, separated by blank lines |
| ServiceLineRange.NonBlank | convert/add_service_line_range.py:39 | the Java lines are non-empty and never more than the lines given |
| ServiceLineRange.SkipBlank | convert/add_service_line_range.py:54-55 | the blank-line skip passes only blank lines and stops at a non-blank line or the end |
| ServiceLineRange.MatchFromIffBlock | convert/add_service_line_range.py:48-62 | the block match succeeds exactly when the file holds the Java lines in order with only blank lines between them |
| ServiceLineRange.LocateFromFirst | convert/add_service_line_range.py:43-45 | the recorded start is a matching start, and no earlier line starts a match |
| ServiceLineRange.LocateSpec | convert/add_service_line_range.py:43-73 | a found range starts at the first line where the block matches, and the non-blank lines from there to the last matched line are the Java lines |
| ServiceLineRange.OneLineBlockEnd | convert/add_service_line_range.py:49-70 | a one-line block is recorded as `start~start-1`, since the end is one less than the last matched line |
| ServiceLineRange.NodeUpdateSpec | convert/add_service_line_range.py:35-73 | no update exactly when the code is empty or the block is found nowhere; an update carries the node's lines and a range whose non-blank lines are the Java lines |
| ServiceLineRange.NodeUpdateErr | convert/add_service_line_range.py:39-40 | non-empty code that is only white space gives ExtractJavaLineError |
| ServiceLineRange.UpdatesSpec | convert/add_service_line_range.py:29-83 | the whole search fails exactly when some node's code is non-empty white space, and then with ExtractJavaLineError; otherwise there is at most one update per node |
| ServiceLineRange.MatchBlock | convert/add_service_line_range.py:48-62 | the nested loops agree with the block match on the stripped file lines |
| ServiceLineRange.FindBlock | convert/add_service_line_range.py:43-73 | the scan agrees with the first-match search |
| ServiceLineRange.NodeRange | convert/add_service_line_range.py:30-73 | one node agrees with the per-node update |
| ServiceLineRange.FindServiceLineRanges | convert/add_service_line_range.py:16-83 | the method returns the updates of all nodes, in order, or the error |
| Controller.ControllerManager.constructor | convert/create_controller.py:21-27 | a new manager keeps its arguments and has no method |
| Controller.ControllerManager.AddMethod | convert/create_controller.py:45-48 | only non-blank code is appended, in order; every kept method is non-blank |
| Controller.ControllerManager.SaveControllerFile | convert/create_controller.py:50-63 | the file is `<class>.java` holding the skeleton filled with the methods joined by blank lines |
| Controller.FillOnePlaceholder | convert/create_controller.py:53-57 | a skeleton with one placeholder gets the stripped, indented methods in its place |
| Controller.FillNoPlaceholder | convert/create_controller.py:53-57 | a skeleton without a placeholder is saved unchanged |
| Controller.ControllerRegistry.constructor | convert/create_controller.py:19 | the registry starts empty |
| Controller.ControllerRegistry.GetInstance | convert/create_controller.py:29-36 | a present key returns its manager and changes nothing, ignoring the new arguments; an absent key gets a new manager with the arguments and no method |
| Controller.ControllerRegistry.ClearInstance | convert/create_controller.py:38-43 | the key is removed; an absent key changes nothing |
| Controller.ControllerRegistry.StartControllerProcessing | convert/create_controller.py:219-245 | the key's manager exists afterwards; its methods grow by the generated method only for a type other than FUNCTION and non-blank code; other managers are unchanged |
| Controller.ControllerRegistry.FinalizeController | convert/create_controller.py:258-289 | a present key's file is saved and then the key removed; an absent key saves nothing and changes nothing |
| Controller.GenerateAllJoin | convert/create_controller.py:100-131 | folding generate from "" gives "" or a blank line followed by the non-FUNCTION methods joined by blank lines |
| Controller.PathsAgree | convert/create_controller.py:135-178 | generate_controller_class on the folded methods writes the same file as a manager that gathered them, when no method is blank |

## Left out

- Concurrency: asyncio tasks, semaphores, locks, `to_thread` and event waits. ApplyManager is a sequential class, the worker's wait is the readiness predicate `Gate.Ready`, and an Event is a boolean.
- Language-model calls (general and table analysis, procedure and table summaries, variable analysis, entity, repository and controller conversion). Their outputs are parameters.
- Token counting with tiktoken. Token counts are parameters.
- The regular expressions themselves: the procedure-name pattern, LINE_NUMBER_PATTERN and the noise-removal patterns. Only what follows the match is modelled.
- Cypher text and escaping. A query is a datatype naming what it writes: the node, variable, call and table MERGEs, the columns with their type, description and nullability, the DB links, and the table-level and column-level foreign keys.
- Neo4j, the send and receive queues, and the acknowledgement wait of `_send_queries`. Sending is appending a message to a list.
- File and environment I/O: reading the service file, `save_file`, `build_java_base_path`, `get_java_node` and the Neo4j reads of the generators. The lines, nodes and rows they yield are parameters. A saved file is a name and content.
- Logging, including the warning of finalize_controller for a missing manager.
- `_finalize_procedure_summary`, `_finalize_remaining_procedures` and `_finalize_table_summaries`. They send language-model summaries; the model records which procedures had their summary task requested.
- `Analyzer.run` and its workers, beyond the dependency gate.
- `splitlines`: files and code are given as line sequences.
- The variable handling of RepositoryGenerator.generate: the split into global and local variables and `extract_used_variable_nodes`. The variables found for a node and their token count are inputs.
- The return values of the generators' `generate` beyond what the model computes: the global variables and the returned tuple's other parts.
- Python's capitalize, upper and isupper beyond ASCII letters.
- Python's `isdigit` and `int` beyond the ASCII digits 0-9.
- ServiceLineRange.FindServiceLineRanges: the error message is the kind ExtractJavaLineError, without the file name and exception text.
- UtilityTool.ExtractUsedQueryMethods: a range key is a pair of integers, so a key that is not of the form `start~end` (for which the source raises UtilProcessingError) cannot occur, and the table is a map, so the insertion order of the dictionary is not kept.
- ApplySpec.Nullable: a column's `nullable` is absent or a boolean. An explicit null, or another falsy value, which `column.get('nullable', True)` also reads as false, is not modelled.
