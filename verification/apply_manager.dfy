/** ApplyManager (temp/analysis_async_refactor.py): applies analysed
    batches strictly in batch-id order, turns each into graph updates, sends
    them, and keeps the procedure and table summary buckets. Every method is
    proved against the functions of ApplySpec. */
module Apply {

  import opened Wrappers
  import opened Text
  import opened Statements
  import opened UtilityTool
  import opened Buckets
  import opened ApplySpec

  class ApplyManager {
    var arena: seq<StatementNode>
    var procedures: map<string, ProcedureInfo>
    var summaryStore: map<string, map<string, Value>>
    var tableStore: TableStore
    var sent: seq<Message>
    var finalizeRequests: seq<string>
    var pending: map<nat, BatchResult>
    var nextBatchId: nat

    function Snapshot(): State
      reads this
    {
      State(arena, procedures, summaryStore, tableStore, sent, finalizeRequests)
    }

    function Model(): Manager
      reads this
    {
      Manager(Snapshot(), pending, nextBatchId)
    }

    ghost predicate Valid()
      reads this
    {
      Consistent(Model())
    }

    /** A manager over the collected nodes and procedures: one empty summary
        bucket per procedure, nothing pending, waiting for batch 1. */
    constructor(arena: seq<StatementNode>, procedures: map<string, ProcedureInfo>)
      ensures Valid()
      ensures Model() == Manager(State(arena, procedures, map k | k in procedures :: map[], map[], [], []), map[], 1)
    {
      this.arena := arena;
      this.procedures := procedures;
      summaryStore := map k | k in procedures :: map[];
      tableStore := map[];
      sent := [];
      finalizeRequests := [];
      pending := map[];
      nextBatchId := 1;
    }

    /** submit: stores the result under its batch id (replacing any earlier
        one) and applies whatever has become ready. */
    method Submit(result: BatchResult) returns (failure: Option<string>)
      requires Valid() && InArena(result.batch.nodes, |arena|)
      modifies this
      ensures Valid()
      ensures (Model(), failure) == Flush(old(Model()).(pending := old(pending)[result.batch.batchId := result]), false, BatchApplier)
    {
      pending := pending[result.batch.batchId := result];
      failure := FlushReady(false);
    }

    /** The flush at the start of finalize: everything still pending is
        applied. */
    method Finalize() returns (failure: Option<string>)
      requires Valid()
      modifies this
      ensures Valid()
      ensures (Model(), failure) == Flush(old(Model()), true, BatchApplier)
    {
      failure := FlushReady(true);
    }

    /** _flush_ready(force). */
    method FlushReady(force: bool) returns (failure: Option<string>)
      requires Valid()
      modifies this
      ensures Valid()
      ensures (Model(), failure) == Flush(old(Model()), force, BatchApplier)
    {
      failure := DrainReady();
      if failure.None? && force && pending != map[] {
        failure := ApplyRemaining();
      }
    }

    /** The loop `while next in pending`: pop, apply, advance. */
    method DrainReady() returns (failure: Option<string>)
      requires Valid()
      modifies this
      ensures Valid()
      ensures (Model(), failure) == FlushOrdered(old(Model()), BatchApplier)
    {
      failure := None;
      while nextBatchId in pending
        invariant Valid() && failure.None?
        invariant FlushOrdered(Model(), BatchApplier) == FlushOrdered(old(Model()), BatchApplier)
        decreases pending.Keys
      {
        failure := DrainOne();
        if failure.Some? {
          return;
        }
      }
    }

    /** One round of `while next in pending`: pop and apply the awaited
        result, and on success wait for the next id. */
    method DrainOne() returns (failure: Option<string>)
      requires Valid() && nextBatchId in pending
      modifies this
      ensures Valid() && pending.Keys < old(pending.Keys)
      ensures failure.Some? ==> (Model(), failure) == FlushOrdered(old(Model()), BatchApplier)
      ensures failure.None? ==> FlushOrdered(Model(), BatchApplier) == FlushOrdered(old(Model()), BatchApplier)
    {
      FlushOrderedStep(Model(), BatchApplier);
      failure := PopAndApply(nextBatchId);
      if failure.None? {
        nextBatchId := nextBatchId + 1;
      }
    }

    /** The forced loop over `sorted(pending)`: pop and apply the least id
        until none is left. */
    method ApplyRemaining() returns (failure: Option<string>)
      requires Valid()
      modifies this
      ensures Valid()
      ensures (Model(), failure) == FlushForced(old(Model()), BatchApplier)
    {
      failure := None;
      while pending.Keys != {}
        invariant Valid() && failure.None?
        invariant FlushForced(Model(), BatchApplier) == FlushForced(old(Model()), BatchApplier)
        decreases |pending.Keys|
      {
        var id := Smallest(pending.Keys);
        FlushForcedStep(Model(), BatchApplier);
        failure := PopAndApply(id);
        if failure.Some? {
          return;
        }
      }
    }

    /** `result = self._pending.pop(id)` followed by `_apply_batch(result)`. */
    method PopAndApply(id: nat) returns (failure: Option<string>)
      requires Valid() && id in pending
      modifies this
      ensures Valid()
      ensures (Model(), failure) == Pop(old(Model()), id, BatchApplier)
      ensures pending.Keys < old(pending.Keys)
    {
      var result := pending[id];
      pending := pending - {id};
      failure := ApplyBatch(result);
    }

    /** _apply_batch. */
    method ApplyBatch(result: BatchResult) returns (failure: Option<string>)
      requires InArena(result.batch.nodes, |arena|)
      modifies this
      ensures pending == old(pending) && nextBatchId == old(nextBatchId)
      ensures var p := ApplySpec.ApplyBatch(old(Snapshot()), result);
              Snapshot() == p.state && failure == p.failure
    {
      var m := ZipLength(result);
      var nodes := result.batch.nodes[..m];
      assert InArena(nodes, |arena|) by {
        assert forall i :: 0 <= i < m ==> nodes[i] == result.batch.nodes[i];
      }
      var queries;
      queries, failure := ApplyNodes(nodes, result.analysis[..m]);
      if failure.None? {
        FinishBatch(result, queries);
      }
    }

    /** The rest of _apply_batch once every pair of the zip is done. */
    method FinishBatch(result: BatchResult, queries: seq<Query>)
      requires InArena(result.batch.nodes, |arena|)
      modifies this`arena, this`tableStore, this`sent
      ensures Snapshot() == Finish(old(Snapshot()), queries, result).state
    {
      MarkBatchCompleted(result.batch.nodes);
      var tableQueries := BuildTableQueries(result.batch.nodes, result.tables);
      SendQueries(queries + tableQueries, result.batch.progressLine);
    }

    /** The loop over the zip of nodes and items in _apply_batch. */
    method ApplyNodes(nodes: seq<StatementNode>, items: seq<Option<NodeAnalysis>>) returns (queries: seq<Query>, failure: Option<string>)
      requires |nodes| == |items| && InArena(nodes, |arena|)
      modifies this`arena, this`summaryStore, this`procedures, this`finalizeRequests
      ensures var p := NodesPhase(old(Snapshot()), nodes, items);
              Snapshot() == p.state && queries == p.queries && failure == p.failure
    {
      ghost var s0 := Snapshot();
      queries := [];
      var i := 0;
      failure := None;
      while i < |nodes|
        invariant 0 <= i <= |nodes| && |arena| == |s0.arena|
        invariant InArena(nodes[i..], |arena|)
        invariant NodesPhase(s0, nodes, items) == Prefixed(queries, NodesPhase(Snapshot(), nodes[i..], items[i..]))
        invariant failure.None?
      {
        NodesPhaseNext(s0, nodes, items, i, queries, Snapshot());
        var q;
        q, failure := ApplyNode(nodes[i], items[i]);
        if failure.Some? {
          return;
        }
        queries := queries + q;
        i := i + 1;
      }
      assert queries + [] == queries;
    }

    /** One pair of the zip in _apply_batch. */
    method ApplyNode(node: StatementNode, item: Option<NodeAnalysis>) returns (queries: seq<Query>, failure: Option<string>)
      requires 1 <= node.nodeId <= |arena|
      modifies this`arena, this`summaryStore, this`procedures, this`finalizeRequests
      ensures var p := NodeStep(old(Snapshot()), node, item);
              Snapshot() == p.state && queries == p.queries && failure == p.failure
    {
      if item.None? {
        arena := arena[node.nodeId - 1 := arena[node.nodeId - 1].(completed := true)];
        return [], None;
      }
      var a := item.value;
      var built := BuildNodeQueries(node, a);
      if built.Err? {
        return [], Some(built.message);
      }
      UpdateSummaryStore(node, a);
      return built.value, None;
    }

    /** The second loop of _apply_batch: every node of the batch not yet
        completed is completed. */
    method MarkBatchCompleted(nodes: seq<StatementNode>)
      requires InArena(nodes, |arena|)
      modifies this`arena
      ensures arena == MarkCompleted(old(arena), nodes)
    {
      var j := 0;
      while j < |nodes|
        invariant 0 <= j <= |nodes|
        invariant InArena(nodes[..j], |old(arena)|)
        invariant arena == MarkCompleted(old(arena), nodes[..j])
      {
        assert nodes[..j + 1][..j] == nodes[..j];
        var id := nodes[j].nodeId;
        if !arena[id - 1].completed {
          arena := arena[id - 1 := arena[id - 1].(completed := true)];
        } else {
          assert arena[id - 1].(completed := true) == arena[id - 1];
          assert arena[id - 1 := arena[id - 1]] == arena;
        }
        j := j + 1;
      }
      assert nodes[..j] == nodes;
    }

    /** _build_node_queries: sets the node's summary and completes it, then
        emits the node MERGE, the variable uses and the calls. */
    method BuildNodeQueries(node: StatementNode, a: NodeAnalysis) returns (r: Result<seq<Query>>)
      requires 1 <= node.nodeId <= |arena|
      modifies this`arena
      ensures arena == Summarized(old(arena), node.nodeId, NodeSummary(a.summary))
      ensures r == NodeQueries(node, a)
    {
      var text := if a.summary.Some? && a.summary.value.Str? then a.summary.value.text else "";
      var id := node.nodeId;
      var head := [NodeMerge(node.nodeType, node.startLine, text)];
      arena := arena[id - 1 := arena[id - 1].(summary := if text == [] then None else Some(text), completed := true)];
      var variables := VariableUses(node, a.variables);
      var calls := CallLinks(node, a.calls);
      if calls.Err? {
        return Err(UnpackError);
      }
      r := Ok(head + variables + calls.value);
    }

    /** The loop over `variables` in _build_node_queries. */
    static method VariableUses(node: StatementNode, vars: seq<string>) returns (queries: seq<Query>)
      ensures queries == VariableQueries(node, vars)
    {
      queries := [];
      var k := 0;
      while k < |vars|
        invariant 0 <= k <= |vars|
        invariant queries == VariableQueries(node, vars[..k])
      {
        assert vars[..k + 1][..k] == vars[..k];
        queries := queries + [VariableUse(vars[k], node.startLine, node.endLine)];
        k := k + 1;
      }
      assert vars[..k] == vars;
    }

    /** The loop over `calls` in _build_node_queries; a call name that does
        not split into exactly two parts raises. */
    static method CallLinks(node: StatementNode, calls: seq<string>) returns (r: Result<seq<Query>>)
      ensures r == CallQueries(node, calls)
    {
      var queries: seq<Query> := [];
      var k := 0;
      while k < |calls|
        invariant 0 <= k <= |calls|
        invariant CallQueries(node, calls[..k]) == Ok(queries)
      {
        assert calls[..k + 1][..k] == calls[..k];
        var call := calls[k];
        if '.' in call {
          var parts := Split(Upper(call), '.');
          if |parts| != 2 {
            assert !CallQuery(node, calls[k]).Ok?;
            return Err(UnpackError);
          }
          queries := queries + [ExternalCall(node.nodeType, node.startLine, parts[0], parts[1])];
        } else {
          queries := queries + [InternalCall(node.nodeType, node.startLine, call)];
        }
        k := k + 1;
      }
      assert calls[..k] == calls;
      r := Ok(queries);
    }

    /** _update_summary_store. */
    method UpdateSummaryStore(node: StatementNode, a: NodeAnalysis)
      modifies this`summaryStore, this`procedures, this`finalizeRequests
      ensures Snapshot() == ApplySpec.UpdateSummaryStore(old(Snapshot()), node, a)
    {
      if node.procedureKey.None? || node.procedureKey.value == [] || node.procedureKey.value !in procedures {
        return;
      }
      if a.summary.None? {
        return;
      }
      var key := node.procedureKey.value;
      var bucket := if key in summaryStore then summaryStore[key] else map[];
      summaryStore := summaryStore[key := bucket[StoreKey(node) := a.summary.value]];
      var info := procedures[key];
      if info.pendingNodes > 0 {
        info := info.(pendingNodes := info.pendingNodes - 1);
      }
      procedures := procedures[key := info];
      if info.pendingNodes == 0 {
        finalizeRequests := finalizeRequests + [key];
      }
    }

    /** _build_table_queries. */
    method BuildTableQueries(nodes: seq<StatementNode>, entries: seq<TableEntry>) returns (queries: seq<Query>)
      modifies this`tableStore
      ensures Tables(tableStore, queries) == TablesPhase(Tables(old(tableStore), []), nodes, entries)
    {
      var nodeMap := NodeMap(nodes);
      queries := [];
      var k := 0;
      while k < |entries|
        invariant 0 <= k <= |entries|
        invariant Tables(tableStore, queries) == TablesPhase(Tables(old(tableStore), []), nodes, entries[..k])
      {
        assert entries[..k + 1][..k] == entries[..k];
        queries := EntryQueries(nodeMap, nodes, entries[k], queries);
        k := k + 1;
      }
      assert entries[..k] == entries;
    }

    /** The body of the loop over `tables`, for one entry. */
    method EntryQueries(nodeMap: map<(int, int), StatementNode>, nodes: seq<StatementNode>, e: TableEntry, queries0: seq<Query>)
      returns (queries: seq<Query>)
      requires LinesMap(nodeMap, nodes)
      modifies this`tableStore
      ensures Tables(tableStore, queries) == EntryStep(Tables(old(tableStore), queries0), nodes, e)
    {
      queries := queries0;
      if e.startLine.None? || e.endLine.None? || (e.startLine.value, e.endLine.value) !in nodeMap {
        return;
      }
      var node := nodeMap[(e.startLine.value, e.endLine.value)];
      var table := Upper(Strip(Or(e.table, "")));
      if table == [] {
        return;
      }
      var (schema, name, link) := ParseTableIdentifier(table);
      var relationship := DmlRelationship(Upper(Or(e.dmlType, "")));
      var key := RecordTableSummary(schema, name, e.tableDescription);
      queries := queries + [TableMerge(node.nodeType, node.startLine, schema, name, link, relationship)];
      queries := ColumnQueries(key, schema, name, e.columns, queries);
      var links := AddLinkQueries(node, e.dbLinks, []);
      var linksAndKeys := AddFkQueries(e.fkRelations, links);
      assert links == LinkQueries(node, e.dbLinks);
      queries := queries + linksAndKeys;
    }

    /** The loop over an entry's `columns`. */
    method ColumnQueries(key: TableKey, schema: string, table: string, columns: seq<ColumnItem>, queries0: seq<Query>)
      returns (queries: seq<Query>)
      modifies this`tableStore
      ensures Tables(tableStore, queries) == ColumnsPhase(Tables(old(tableStore), queries0), key, schema, table, columns)
    {
      queries := queries0;
      var c := 0;
      while c < |columns|
        invariant 0 <= c <= |columns|
        invariant Tables(tableStore, queries) == ColumnsPhase(Tables(old(tableStore), queries0), key, schema, table, columns[..c])
      {
        assert columns[..c + 1][..c] == columns[..c];
        var columnName := Strip(Or(columns[c].name, ""));
        if columnName != [] {
          var description := Strip(Or(columns[c].description, Or(columns[c].comment, "")));
          RecordColumnSummary(key, columnName, description);
          var nullable := columns[c].nullable.None? || columns[c].nullable.value;
          queries := queries + [ColumnMerge(schema, table, columnName, Or(columns[c].dtype, ""), description, nullable)];
        }
        c := c + 1;
      }
      assert columns[..c] == columns;
    }

    /** The loop over an entry's `dbLinks`. */
    static method AddLinkQueries(node: StatementNode, links: seq<LinkItem>, queries0: seq<Query>) returns (queries: seq<Query>)
      ensures queries == queries0 + LinkQueries(node, links)
    {
      queries := queries0;
      var j := 0;
      while j < |links|
        invariant 0 <= j <= |links|
        invariant queries == queries0 + LinkQueries(node, links[..j])
      {
        var q := LinkItemQuery(node, links[j]);
        LinkRound(node, links, j, queries0, queries, q);
        queries := queries + q;
        j := j + 1;
      }
      assert links[..j] == links;
    }

    /** The body of the `dbLinks` loop, for one item. */
    static method LinkItemQuery(node: StatementNode, item: LinkItem) returns (q: seq<Query>)
      ensures q == LinkQuery(node, item)
    {
      q := [];
      var linkName := Upper(Strip(Or(item.name, "")));
      if linkName != [] {
        var mode := Lower(Or(item.mode, "r"));
        var (schema, table, link) := ParseTableIdentifier(linkName);
        q := [DbLinkTo(node.nodeType, node.startLine, schema, table, link, mode)];
      }
    }

    /** The loop over an entry's `fkRelations`. */
    static method AddFkQueries(rels: seq<FkItem>, queries0: seq<Query>) returns (queries: seq<Query>)
      ensures queries == queries0 + FkQueries(rels)
    {
      queries := queries0;
      var j := 0;
      while j < |rels|
        invariant 0 <= j <= |rels|
        invariant queries == queries0 + FkQueries(rels[..j])
      {
        var q := FkItemQueries(rels[j]);
        FkRound(rels, j, queries0, queries, q);
        queries := queries + q;
        j := j + 1;
      }
      assert rels[..j] == rels;
    }

    /** The body of the `fkRelations` loop, for one item. */
    static method FkItemQueries(item: FkItem) returns (q: seq<Query>)
      ensures q == FkQuery(item)
    {
      q := [];
      var sourceTable := Upper(Strip(Or(item.sourceTable, "")));
      var targetTable := Upper(Strip(Or(item.targetTable, "")));
      var sourceColumn := Strip(Or(item.sourceColumn, ""));
      var targetColumn := Strip(Or(item.targetColumn, ""));
      if sourceTable != [] && targetTable != [] && sourceColumn != [] && targetColumn != [] {
        var (ss, sn, _) := ParseTableIdentifier(sourceTable);
        var (ts, tn, _) := ParseTableIdentifier(targetTable);
        q := [FkToTable(ss, sn, ts, tn), FkToColumn(ss, sn, sourceColumn, ts, tn, targetColumn)];
      }
    }

    /** The `node_map` of _build_table_queries: lines to the last batch node
        with those lines. */
    static method NodeMap(nodes: seq<StatementNode>) returns (nodeMap: map<(int, int), StatementNode>)
      ensures LinesMap(nodeMap, nodes)
    {
      nodeMap := map[];
      var k := 0;
      while k < |nodes|
        invariant 0 <= k <= |nodes|
        invariant forall start, end :: (start, end) in nodeMap <==> NodeAt(nodes[..k], start, end).Some?
        invariant forall start, end :: (start, end) in nodeMap ==> nodeMap[(start, end)] == NodeAt(nodes[..k], start, end).value
      {
        assert nodes[..k + 1][..k] == nodes[..k];
        nodeMap := nodeMap[(nodes[k].startLine, nodes[k].endLine) := nodes[k]];
        k := k + 1;
      }
      assert nodes[..k] == nodes;
    }

    /** _record_table_summary. */
    method RecordTableSummary(schema: string, name: string, description: Option<string>) returns (key: TableKey)
      modifies this`tableStore
      ensures tableStore == RecordTable(old(tableStore), schema, name, description)
      ensures key == KeyOf(schema, name)
    {
      key := TableKey(Upper(schema), Upper(name));
      var text := Strip(Or(description, ""));
      ghost var expected := AddTableSummary(tableStore, key, text);
      var bucket := TableBucket({}, map[]);
      if key in tableStore {
        bucket := tableStore[key];
      }
      if text != [] {
        bucket := bucket.(summaries := bucket.summaries + {text});
      }
      tableStore := tableStore[key := bucket];
      assert tableStore == expected;
    }

    /** _record_column_summary. */
    method RecordColumnSummary(key: TableKey, columnName: string, description: string)
      modifies this`tableStore
      ensures tableStore == RecordColumn(old(tableStore), key, columnName, description)
    {
      var text := Strip(description);
      if text == [] {
        return;
      }
      var bucket := if key in tableStore then tableStore[key] else TableBucket({}, map[]);
      var canonical := Upper(columnName);
      var entry := if canonical in bucket.columns then bucket.columns[canonical] else ColumnBucket(columnName, {});
      entry := entry.(summaries := entry.summaries + {text});
      tableStore := tableStore[key := bucket.(columns := bucket.columns[canonical := entry])];
    }

    /** _send_queries: one message for a non-empty list. */
    method SendQueries(queries: seq<Query>, progressLine: int)
      modifies this`sent
      ensures sent == Send(old(sent), queries, progressLine)
    {
      if queries == [] {
        return;
      }
      sent := sent + [Message(queries, progressLine)];
    }
  }

  /** `nodeMap` sends lines to the last node of `nodes` with those lines. */
  ghost predicate LinesMap(nodeMap: map<(int, int), StatementNode>, nodes: seq<StatementNode>) {
    && (forall start, end :: (start, end) in nodeMap <==> NodeAt(nodes, start, end).Some?)
    && (forall start, end :: (start, end) in nodeMap ==> nodeMap[(start, end)] == NodeAt(nodes, start, end).value)
  }

  /** Picks the least pending id. */
  method Smallest(keys: set<nat>) returns (m: nat)
    requires keys != {}
    ensures m == Least(keys)
  {
    assert Least(keys) in keys && forall k :: k in keys ==> Least(keys) <= k;
    m :| m in keys && forall k :: k in keys ==> m <= k;
    assert m <= Least(keys) && Least(keys) <= m;
  }

  /** One round of the `dbLinks` loop keeps its invariant. */
  lemma LinkRound(node: StatementNode, links: seq<LinkItem>, j: nat, queries0: seq<Query>, queries: seq<Query>, q: seq<Query>)
    requires j < |links|
    requires queries == queries0 + LinkQueries(node, links[..j])
    requires q == LinkQuery(node, links[j])
    ensures queries + q == queries0 + LinkQueries(node, links[..j + 1])
  {
    LinkQueriesSnoc(node, links, j);
    AppendAssoc(queries0, LinkQueries(node, links[..j]), q);
  }

  /** One round of the `fkRelations` loop keeps its invariant. */
  lemma FkRound(rels: seq<FkItem>, j: nat, queries0: seq<Query>, queries: seq<Query>, q: seq<Query>)
    requires j < |rels|
    requires queries == queries0 + FkQueries(rels[..j])
    requires q == FkQuery(rels[j])
    ensures queries + q == queries0 + FkQueries(rels[..j + 1])
  {
    FkQueriesSnoc(rels, j);
    AppendAssoc(queries0, FkQueries(rels[..j]), q);
  }
}
