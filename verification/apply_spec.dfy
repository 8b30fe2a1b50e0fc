/** What ApplyManager (temp/analysis_async_refactor.py) does with one
    analysed batch, as functions on a snapshot of its state: which graph
    updates it emits, how it rewrites the nodes it was given, how it feeds
    the per-procedure summary buckets and the table description buckets,
    and in which order pending batches are applied. The class in
    apply_manager.dfy runs these steps imperatively and is proved against
    them. */
module ApplySpec {

  import opened Wrappers
  import opened Text
  import opened Statements
  import opened UtilityTool
  import opened Buckets

  // ===== LLM results, as far as ApplyManager reads them =====

  /** A JSON value under the key `summary`: a string or anything else. */
  datatype Value = Str(text: string) | Other(repr: string)

  /** One truthy item of `analysis`: its summary (None when the key is
      missing or null) and its variables and calls lists. */
  datatype NodeAnalysis = NodeAnalysis(summary: Option<Value>, variables: seq<string>, calls: seq<string>)

  /** One item of an entry's `columns`; `nullable` is the truth value of
      its `nullable` key, None when the key is missing. */
  datatype ColumnItem = ColumnItem(name: Option<string>, description: Option<string>, comment: Option<string>,
                                   dtype: Option<string>, nullable: Option<bool>)

  /** One item of an entry's `dbLinks`. */
  datatype LinkItem = LinkItem(name: Option<string>, mode: Option<string>)

  /** One item of an entry's `fkRelations`. */
  datatype FkItem = FkItem(sourceTable: Option<string>, targetTable: Option<string>,
                           sourceColumn: Option<string>, targetColumn: Option<string>)

  datatype TableEntry = TableEntry(
    startLine: Option<int>,
    endLine: Option<int>,
    table: Option<string>,
    dmlType: Option<string>,
    tableDescription: Option<string>,
    columns: seq<ColumnItem>,
    dbLinks: seq<LinkItem>,
    fkRelations: seq<FkItem>)

  /** BatchResult. `analysis` is the general result's `analysis` list (empty
      when the result is falsy or has no such key), with None for a falsy
      item; `tables` is the table result's `tables` list (empty when the
      result is falsy). */
  datatype BatchResult = BatchResult(batch: AnalysisBatch, analysis: seq<Option<NodeAnalysis>>, tables: seq<TableEntry>)

  // ===== graph updates =====

  /** One Cypher statement, identified by what it writes. Nodes are matched
      by type and start line, tables by schema and name. */
  datatype Query =
    | NodeMerge(nodeType: string, startLine: int, summary: string)
    | VariableUse(variable: string, startLine: int, endLine: int)
    | InternalCall(nodeType: string, startLine: int, callee: string)
    | ExternalCall(nodeType: string, startLine: int, package: string, procedure: string)
    | TableMerge(nodeType: string, startLine: int, schema: string, table: string, dbLink: Option<string>, relationship: Option<string>)
    | ColumnMerge(schema: string, table: string, column: string, dtype: string, description: string, nullable: bool)
    | DbLinkTo(nodeType: string, startLine: int, schema: string, table: string, link: Option<string>, mode: string)
    | FkToTable(sourceSchema: string, sourceTable: string, targetSchema: string, targetTable: string)
    | FkToColumn(sourceSchema: string, sourceTable: string, sourceColumn: string,
                 targetSchema: string, targetTable: string, targetColumn: string)

  /** One `analysis_code` message on the send queue. */
  datatype Message = Message(queries: seq<Query>, lineNumber: int)

  // ===== the manager's state =====

  /** `arena` holds the statement nodes (index `nodeId - 1`), whose
      `summary` and `completed` the manager rewrites; `finalizeRequests`
      records, in order, the procedures whose summary task was started. */
  datatype State = State(
    arena: seq<StatementNode>,
    procedures: map<string, ProcedureInfo>,
    summaryStore: map<string, map<string, Value>>,
    tableStore: TableStore,
    sent: seq<Message>,
    finalizeRequests: seq<string>)

  predicate InArena(nodes: seq<StatementNode>, n: nat) {
    forall i :: 0 <= i < |nodes| ==> 1 <= nodes[i].nodeId <= n
  }

  function Completed(arena: seq<StatementNode>, id: nat): (r: seq<StatementNode>)
    requires 1 <= id <= |arena|
    ensures |r| == |arena|
  {
    arena[id - 1 := arena[id - 1].(completed := true)]
  }

  function Summarized(arena: seq<StatementNode>, id: nat, summary: Option<string>): (r: seq<StatementNode>)
    requires 1 <= id <= |arena|
    ensures |r| == |arena|
  {
    arena[id - 1 := arena[id - 1].(summary := summary, completed := true)]
  }

  /** The completion flag of every node of `nodes` set, in order. */
  function MarkCompleted(arena: seq<StatementNode>, nodes: seq<StatementNode>): (r: seq<StatementNode>)
    requires InArena(nodes, |arena|)
    ensures |r| == |arena|
  {
    if nodes == [] then arena
    else Completed(MarkCompleted(arena, nodes[..|nodes| - 1]), nodes[|nodes| - 1].nodeId)
  }

  // ===== _build_node_queries =====

  /** The summary text: the value when it is a string, otherwise empty. */
  function SummaryString(v: Option<Value>): string {
    if v.Some? && v.value.Str? then v.value.text else ""
  }

  /** What the node's `summary` becomes: the summary text, None when empty. */
  function NodeSummary(v: Option<Value>): (r: Option<string>)
    ensures r.Some? <==> v.Some? && v.value.Str? && v.value.text != []
    ensures r.Some? ==> r.value == v.value.text
  {
    var t := SummaryString(v);
    if t == [] then None else Some(t)
  }

  function VariableQueries(node: StatementNode, vars: seq<string>): (r: seq<Query>)
    ensures |r| == |vars|
    ensures forall i :: 0 <= i < |vars| ==> r[i] == VariableUse(vars[i], node.startLine, node.endLine)
  {
    if vars == [] then []
    else VariableQueries(node, vars[..|vars| - 1]) + [VariableUse(vars[|vars| - 1], node.startLine, node.endLine)]
  }

  /** The ValueError a call name with more than one '.' raises. */
  const UnpackError := "ValueError: too many values to unpack"

  /** One call: a name with a '.' is upper-cased and must split into
      exactly a package and a procedure (more parts raise ValueError); a name
      without one is an internal call. */
  function CallQuery(node: StatementNode, call: string): (r: Result<Query>)
  {
    if '.' !in call then Ok(InternalCall(node.nodeType, node.startLine, call))
    else
      var parts := Split(Upper(call), '.');
      if |parts| == 2 then Ok(ExternalCall(node.nodeType, node.startLine, parts[0], parts[1]))
      else Err(UnpackError)
  }

  /** The call queries, in order; the first malformed call aborts. */
  function CallQueries(node: StatementNode, calls: seq<string>): (r: Result<seq<Query>>)
    ensures r.Ok? ==> |r.value| == |calls|
    ensures r.Ok? <==> forall i :: 0 <= i < |calls| ==> CallQuery(node, calls[i]).Ok?
    ensures r.Ok? ==> forall i :: 0 <= i < |calls| ==> r.value[i] == CallQuery(node, calls[i]).value
    ensures r.Err? ==> r.message == UnpackError
  {
    if calls == [] then Ok([])
    else
      var n := |calls| - 1;
      var front := CallQueries(node, calls[..n]);
      assert forall i :: 0 <= i < n ==> calls[..n][i] == calls[i];
      if front.Err? then front
      else match CallQuery(node, calls[n])
        case Err(m) => Err(m)
        case Ok(q) => Ok(front.value + [q])
  }

  /** _build_node_queries: the node MERGE, one query per variable, one per
      call. */
  function NodeQueries(node: StatementNode, a: NodeAnalysis): (r: Result<seq<Query>>)
  {
    var calls := CallQueries(node, a.calls);
    if calls.Err? then Err(UnpackError)
    else Ok([NodeMerge(node.nodeType, node.startLine, SummaryString(a.summary))] + VariableQueries(node, a.variables) + calls.value)
  }

  // ===== _update_summary_store =====

  /** The key of a node's entry in its procedure's summary bucket. */
  function StoreKey(node: StatementNode): string {
    node.nodeType + "_" + IntToString(node.startLine) + "_" + IntToString(node.endLine)
  }

  /** Procedure key of a node that takes part in the summary store. */
  predicate Tracked(s: State, node: StatementNode) {
    node.procedureKey.Some? && node.procedureKey.value != [] && node.procedureKey.value in s.procedures
  }

  /** _update_summary_store: stores the summary value under the node's key,
      counts the node down in its procedure (never below zero) and starts
      the procedure's summary task whenever the count is then zero. */
  function UpdateSummaryStore(s: State, node: StatementNode, a: NodeAnalysis): (r: State)
    ensures r.arena == s.arena && r.tableStore == s.tableStore && r.sent == s.sent
  {
    if !Tracked(s, node) || a.summary.None? then s
    else
      var key := node.procedureKey.value;
      var bucket := if key in s.summaryStore then s.summaryStore[key] else map[];
      var info := s.procedures[key];
      var left := if info.pendingNodes > 0 then info.pendingNodes - 1 else 0;
      s.(summaryStore := s.summaryStore[key := bucket[StoreKey(node) := a.summary.value]],
         procedures := s.procedures[key := info.(pendingNodes := left)],
         finalizeRequests := if left == 0 then s.finalizeRequests + [key] else s.finalizeRequests)
  }

  // ===== _apply_batch, node by node =====

  /** The outcome of the node loop: the state, the queries gathered and the
      error that stopped it, if any. */
  datatype Phase = Phase(state: State, queries: seq<Query>, failure: Option<string>)

  /** One `(node, analysis)` pair of the zip: a falsy item only completes
      the node; otherwise the node's summary is set and it is completed, its
      queries are built and the summary store is updated. */
  function NodeStep(s: State, node: StatementNode, item: Option<NodeAnalysis>): (r: Phase)
    requires 1 <= node.nodeId <= |s.arena|
    ensures |r.state.arena| == |s.arena|
  {
    if item.None? then Phase(s.(arena := Completed(s.arena, node.nodeId)), [], None)
    else
      var a := item.value;
      var s1 := s.(arena := Summarized(s.arena, node.nodeId, NodeSummary(a.summary)));
      var qs := NodeQueries(node, a);
      if qs.Err? then Phase(s1, [], Some(qs.message))
      else Phase(UpdateSummaryStore(s1, node, a), qs.value, None)
  }

  /** A phase whose queries come after `queries`. */
  function Prefixed(queries: seq<Query>, p: Phase): (r: Phase)
  {
    Phase(p.state, queries + p.queries, p.failure)
  }

  /** The node loop over equally long `nodes` and `items`, stopping at the
      first error. */
  function NodesPhase(s: State, nodes: seq<StatementNode>, items: seq<Option<NodeAnalysis>>): (r: Phase)
    requires |nodes| == |items| && InArena(nodes, |s.arena|)
    ensures |r.state.arena| == |s.arena|
    decreases |nodes|
  {
    if nodes == [] then Phase(s, [], None)
    else
      var q := NodeStep(s, nodes[0], items[0]);
      if q.failure.Some? then q
      else
        assert InArena(nodes[1..], |q.state.arena|) by {
          assert forall i :: 0 <= i < |nodes| - 1 ==> nodes[1..][i] == nodes[i + 1];
        }
        var rest := NodesPhase(q.state, nodes[1..], items[1..]);
        Phase(rest.state, q.queries + rest.queries, rest.failure)
  }

  /** One step of the node loop: the first pair's phase, and then either
      its failure or the rest of the loop after its queries. */
  lemma {:induction false} NodesPhaseCons(s: State, nodes: seq<StatementNode>, items: seq<Option<NodeAnalysis>>)
    requires |nodes| == |items| && nodes != [] && InArena(nodes, |s.arena|)
    ensures var q := NodeStep(s, nodes[0], items[0]);
            && (q.failure.Some? ==> NodesPhase(s, nodes, items) == q)
            && (q.failure.None? ==> InArena(nodes[1..], |q.state.arena|))
            && (q.failure.None? ==>
                  NodesPhase(s, nodes, items) == Prefixed(q.queries, NodesPhase(q.state, nodes[1..], items[1..])))
  {
    assert forall i :: 0 <= i < |nodes| - 1 ==> nodes[1..][i] == nodes[i + 1];
  }

  /** The node loop after `i` pairs, `queries` gathered so far, one more
      pair: either the loop stops with that pair's failure, or it goes on
      with that pair's queries appended. */
  lemma {:induction false} NodesPhaseNext(s0: State, nodes: seq<StatementNode>, items: seq<Option<NodeAnalysis>>,
                                          i: nat, queries: seq<Query>, s: State)
    requires |nodes| == |items| && i < |nodes| && InArena(nodes[i..], |s.arena|)
    requires InArena(nodes, |s0.arena|)
    requires NodesPhase(s0, nodes, items) == Prefixed(queries, NodesPhase(s, nodes[i..], items[i..]))
    ensures var q := NodeStep(s, nodes[i], items[i]);
            && (q.failure.Some? ==> NodesPhase(s0, nodes, items) == Phase(q.state, queries, q.failure))
            && (q.failure.None? ==> InArena(nodes[i + 1..], |q.state.arena|))
            && (q.failure.None? ==>
                  NodesPhase(s0, nodes, items) == Prefixed(queries + q.queries, NodesPhase(q.state, nodes[i + 1..], items[i + 1..])))
  {
    assert nodes[i..][0] == nodes[i] && nodes[i..][1..] == nodes[i + 1..];
    assert items[i..][0] == items[i] && items[i..][1..] == items[i + 1..];
    NodesPhaseCons(s, nodes[i..], items[i..]);
    var q := NodeStep(s, nodes[i], items[i]);
    if q.failure.Some? {
      assert q.queries == [];
      assert queries + [] == queries;
    } else {
      var rest := NodesPhase(q.state, nodes[i + 1..], items[i + 1..]);
      assert queries + (q.queries + rest.queries) == (queries + q.queries) + rest.queries;
    }
  }

  // ===== _build_table_queries =====

  /** `node_map.get((start, end))`: the last batch node with those lines. */
  function NodeAt(nodes: seq<StatementNode>, start: int, end: int): (r: Option<StatementNode>)
    ensures r.Some? ==> r.value in nodes && r.value.startLine == start && r.value.endLine == end
    ensures r.None? <==> forall i :: 0 <= i < |nodes| ==> !(nodes[i].startLine == start && nodes[i].endLine == end)
  {
    if nodes == [] then None
    else
      var n := |nodes| - 1;
      assert forall i :: 0 <= i < n ==> nodes[..n][i] == nodes[i];
      if nodes[n].startLine == start && nodes[n].endLine == end then Some(nodes[n])
      else NodeAt(nodes[..n], start, end)
  }

  /** The table buckets and the queries built so far. */
  datatype Tables = Tables(store: TableStore, queries: seq<Query>)

  /** A column's nullable flag: true when the key is missing. */
  function Nullable(c: ColumnItem): bool {
    c.nullable.None? || c.nullable.value
  }

  /** One column of an entry: a blank name is skipped; otherwise its
      description (or, failing that, its comment) is recorded and the
      column MERGE is emitted with its type and nullable flag. */
  function ColumnStep(t: Tables, key: TableKey, schema: string, table: string, c: ColumnItem): Tables {
    var name := Strip(Or(c.name, ""));
    if name == [] then t
    else
      var desc := Strip(Or(c.description, Or(c.comment, "")));
      Tables(RecordColumn(t.store, key, name, desc),
             t.queries + [ColumnMerge(schema, table, name, Or(c.dtype, ""), desc, Nullable(c))])
  }

  function ColumnsPhase(t: Tables, key: TableKey, schema: string, table: string, cols: seq<ColumnItem>): Tables {
    if cols == [] then t
    else ColumnStep(ColumnsPhase(t, key, schema, table, cols[..|cols| - 1]), key, schema, table, cols[|cols| - 1])
  }

  /** One item of `dbLinks`: a blank name is skipped; otherwise the remote
      table named by it is linked from the node, with the mode lower-cased
      and 'r' when missing or empty. */
  function LinkQuery(node: StatementNode, l: LinkItem): seq<Query> {
    var name := Upper(Strip(Or(l.name, "")));
    if name == [] then []
    else
      var (schema, table, link) := ParseTableIdentifier(name);
      [DbLinkTo(node.nodeType, node.startLine, schema, table, link, Lower(Or(l.mode, "r")))]
  }

  function LinkQueries(node: StatementNode, links: seq<LinkItem>): seq<Query> {
    if links == [] then [] else LinkQueries(node, links[..|links| - 1]) + LinkQuery(node, links[|links| - 1])
  }

  lemma {:induction false} LinkQueriesSnoc(node: StatementNode, links: seq<LinkItem>, j: nat)
    requires j < |links|
    ensures LinkQueries(node, links[..j + 1]) == LinkQueries(node, links[..j]) + LinkQuery(node, links[j])
  {
    assert links[..j + 1][..j] == links[..j];
  }

  /** One item of `fkRelations`: skipped unless both tables and both
      columns are non-blank; otherwise the table-level and the column-level
      foreign key. */
  function FkQuery(f: FkItem): seq<Query> {
    var sourceTable := Upper(Strip(Or(f.sourceTable, "")));
    var targetTable := Upper(Strip(Or(f.targetTable, "")));
    var sourceColumn := Strip(Or(f.sourceColumn, ""));
    var targetColumn := Strip(Or(f.targetColumn, ""));
    if sourceTable == [] || targetTable == [] || sourceColumn == [] || targetColumn == [] then []
    else
      var (ss, sn, _) := ParseTableIdentifier(sourceTable);
      var (ts, tn, _) := ParseTableIdentifier(targetTable);
      [FkToTable(ss, sn, ts, tn), FkToColumn(ss, sn, sourceColumn, ts, tn, targetColumn)]
  }

  function FkQueries(rels: seq<FkItem>): seq<Query> {
    if rels == [] then [] else FkQueries(rels[..|rels| - 1]) + FkQuery(rels[|rels| - 1])
  }

  lemma {:induction false} FkQueriesSnoc(rels: seq<FkItem>, j: nat)
    requires j < |rels|
    ensures FkQueries(rels[..j + 1]) == FkQueries(rels[..j]) + FkQuery(rels[j])
  {
    assert rels[..j + 1][..j] == rels[..j];
  }

  /** One entry of `tables`: skipped without both lines, without a batch
      node at those lines or with a blank table name; otherwise the table's
      description is recorded, the table MERGE is emitted, and the columns,
      the DB links and the foreign keys follow. */
  function EntryStep(t: Tables, nodes: seq<StatementNode>, e: TableEntry): Tables {
    if e.startLine.None? || e.endLine.None? then t
    else
      var node := NodeAt(nodes, e.startLine.value, e.endLine.value);
      var table := Upper(Strip(Or(e.table, "")));
      if node.None? || table == [] then t
      else
        var (schema, name, link) := ParseTableIdentifier(table);
        var relationship := DmlRelationship(Upper(Or(e.dmlType, "")));
        var t1 := Tables(RecordTable(t.store, schema, name, e.tableDescription),
                         t.queries + [TableMerge(node.value.nodeType, node.value.startLine, schema, name, link, relationship)]);
        var t2 := ColumnsPhase(t1, KeyOf(schema, name), schema, name, e.columns);
        Tables(t2.store, t2.queries + (LinkQueries(node.value, e.dbLinks) + FkQueries(e.fkRelations)))
  }

  function TablesPhase(t: Tables, nodes: seq<StatementNode>, entries: seq<TableEntry>): Tables {
    if entries == [] then t
    else EntryStep(TablesPhase(t, nodes, entries[..|entries| - 1]), nodes, entries[|entries| - 1])
  }

  // ===== _send_queries and _apply_batch =====

  /** _send_queries: nothing for no queries, otherwise one message carrying
      them and the batch's progress line. */
  function Send(sent: seq<Message>, queries: seq<Query>, line: int): seq<Message> {
    if queries == [] then sent else sent + [Message(queries, line)]
  }

  /** How many `(node, item)` pairs `zip` makes. */
  function ZipLength(r: BatchResult): (n: nat)
    ensures n <= |r.batch.nodes| && n <= |r.analysis|
    ensures n == |r.batch.nodes| || n == |r.analysis|
  {
    if |r.batch.nodes| <= |r.analysis| then |r.batch.nodes| else |r.analysis|
  }

  /** What _apply_batch does after a node loop without error: every node of
      the batch is completed, the table entries are turned into queries and
      all the queries go out in one message. */
  function Finish(s: State, queries: seq<Query>, r: BatchResult): (o: Phase)
    requires InArena(r.batch.nodes, |s.arena|)
    ensures |o.state.arena| == |s.arena|
  {
    var t := TablesPhase(Tables(s.tableStore, []), r.batch.nodes, r.tables);
    var all := queries + t.queries;
    Phase(s.(arena := MarkCompleted(s.arena, r.batch.nodes), tableStore := t.store,
             sent := Send(s.sent, all, r.batch.progressLine)),
          all, None)
  }

  /** _apply_batch: the node loop over the zip of nodes and items; on an
      error nothing more happens, otherwise the batch is finished. */
  function ApplyBatch(s: State, r: BatchResult): (o: Phase)
    requires InArena(r.batch.nodes, |s.arena|)
    ensures |o.state.arena| == |s.arena|
  {
    var m := ZipLength(r);
    var nodes := r.batch.nodes[..m];
    assert InArena(nodes, |s.arena|) by {
      assert forall i :: 0 <= i < m ==> nodes[i] == r.batch.nodes[i];
    }
    var p := NodesPhase(s, nodes, r.analysis[..m]);
    if p.failure.Some? then p else Finish(p.state, p.queries, r)
  }

  // ===== _flush_ready =====

  /** What the flush loops need of the function that applies a batch: it
      accepts every batch that refers to nodes of the arena and keeps the
      arena's length. */
  ghost predicate KeepsArena(apply: (State, BatchResult) --> Phase) {
    forall s: State, r: BatchResult {:trigger apply.requires(s, r)} {:trigger apply(s, r)} :: InArena(r.batch.nodes, |s.arena|) ==>
      apply.requires(s, r) && |apply(s, r).state.arena| == |s.arena|
  }

  /** The functions the flush loops can apply batches with. The loops and
      their properties are stated for any of them, and the manager uses
      BatchApplier. */
  type Applier = apply: (State, BatchResult) --> Phase | KeepsArena(apply) witness ApplyBatch

  /** _apply_batch, as the flush loops use it. */
  const BatchApplier: Applier := ApplyBatch

  /** The manager's state together with its pending results and the next
      batch id it waits for. */
  datatype Manager = Manager(state: State, pending: map<nat, BatchResult>, next: nat)

  /** Every pending batch refers to nodes of the arena. */
  predicate Consistent(m: Manager) {
    forall id :: id in m.pending ==> InArena(m.pending[id].batch.nodes, |m.state.arena|)
  }

  /** Pops `id` and applies its result with `apply`. */
  function Pop(m: Manager, id: nat, apply: Applier): (r: (Manager, Option<string>))
    requires Consistent(m) && id in m.pending
    ensures Consistent(r.0) && r.0.pending == m.pending - {id} && r.0.next == m.next
    ensures |r.0.state.arena| == |m.state.arena|
  {
    var p := apply(m.state, m.pending[id]);
    (Manager(p.state, m.pending - {id}, m.next), p.failure)
  }

  /** The ordered loop of _flush_ready: while the awaited id is pending, its
      result is popped and applied and the awaited id moves on; an error
      stops the loop with the id not advanced. */
  function FlushOrdered(m: Manager, apply: Applier): (r: (Manager, Option<string>))
    requires Consistent(m)
    ensures Consistent(r.0)
    decreases |m.pending.Keys|
  {
    if m.next !in m.pending then (m, None)
    else
      var (m1, failure) := Pop(m, m.next, apply);
      assert m1.pending.Keys < m.pending.Keys;
      if failure.Some? then (m1, failure)
      else FlushOrdered(m1.(next := m.next + 1), apply)
  }

  /** One round of the ordered loop: the awaited id is popped and applied,
      and on success the loop goes on from the next id. */
  lemma {:induction false} FlushOrderedStep(m: Manager, apply: Applier)
    requires Consistent(m) && m.next in m.pending
    ensures var r := Pop(m, m.next, apply);
            FlushOrdered(m, apply) == if r.1.Some? then r else FlushOrdered(r.0.(next := m.next + 1), apply)
  {
  }

  /** The ordered loop leaves the arena's length as it was. */
  lemma {:induction false} OrderedKeepsArena(m: Manager, apply: Applier)
    requires Consistent(m)
    ensures |FlushOrdered(m, apply).0.state.arena| == |m.state.arena|
    decreases |m.pending.Keys|
  {
    if m.next in m.pending {
      var p := Pop(m, m.next, apply);
      assert p.0.pending.Keys < m.pending.Keys;
      FlushOrderedStep(m, apply);
      if p.1.None? {
        OrderedKeepsArena(p.0.(next := m.next + 1), apply);
      }
    }
  }

  /** One round of the forced loop: the least pending id is popped and
      applied, and on success the loop goes on. */
  lemma {:induction false} FlushForcedStep(m: Manager, apply: Applier)
    requires Consistent(m) && m.pending.Keys != {}
    ensures var r := Pop(m, Least(m.pending.Keys), apply);
            FlushForced(m, apply) == if r.1.Some? then r else FlushForced(r.0, apply)
  {
  }

  /** The least element of a non-empty set. */
  ghost function Least(keys: set<nat>): (m: nat)
    requires keys != {}
    ensures m in keys && forall k :: k in keys ==> m <= k
    decreases |keys|
  {
    var x :| x in keys;
    if keys == {x} then x
    else
      var m := Least(keys - {x});
      assert forall k :: k in keys && k != x ==> k in keys - {x};
      if x < m then x else m
  }

  /** The forced loop of _flush_ready, over `sorted(pending)`: the least
      pending id is popped and applied until none is left or one fails; the
      awaited id stays where it was. */
  ghost function FlushForced(m: Manager, apply: Applier): (r: (Manager, Option<string>))
    requires Consistent(m)
    ensures Consistent(r.0)
    ensures |r.0.state.arena| == |m.state.arena|
    decreases |m.pending.Keys|
  {
    if m.pending.Keys == {} then (m, None)
    else
      var p := Pop(m, Least(m.pending.Keys), apply);
      assert p.0.pending.Keys < m.pending.Keys;
      if p.1.Some? then p
      else FlushForced(p.0, apply)
  }

  /** _flush_ready(force). */
  ghost function Flush(m: Manager, force: bool, apply: Applier): (r: (Manager, Option<string>))
    requires Consistent(m)
    ensures Consistent(r.0)
  {
    var (m1, failure) := FlushOrdered(m, apply);
    if failure.Some? || !force || m1.pending.Keys == {} then (m1, failure)
    else FlushForced(m1, apply)
  }

  // ===== a run of submissions =====

  /** The batch ids the ordered loop applies, in the order it applies them
      (the failing one included). */
  function AppliedIds(m: Manager, apply: Applier): (r: seq<nat>)
    requires Consistent(m)
    ensures r == [] <==> m.next !in m.pending
    decreases |m.pending.Keys|
  {
    if m.next !in m.pending then []
    else
      var p := Pop(m, m.next, apply);
      assert p.0.pending.Keys < m.pending.Keys;
      [m.next] + if p.1.Some? then [] else AppliedIds(p.0.(next := m.next + 1), apply)
  }

  /** The ids `lo`, `lo + 1`, ..., `hi - 1`. */
  function IdsFrom(lo: nat, hi: nat): (r: seq<nat>)
    requires lo <= hi
    ensures |r| == hi - lo
    decreases hi - lo
  {
    if lo == hi then [] else [lo] + IdsFrom(lo + 1, hi)
  }

  /** The batch ids of a sequence of results. */
  function BatchIds(rs: seq<BatchResult>): (ids: set<nat>)
    ensures forall i :: 0 <= i < |rs| ==> rs[i].batch.batchId in ids
  {
    set i | 0 <= i < |rs| :: rs[i].batch.batchId
  }

  /** The results `rs` submitted one after another (`submit` each time):
      the manager reached, the first error if one stopped the run, and the
      batch ids applied in order. */
  ghost function SubmitRun(m: Manager, rs: seq<BatchResult>, apply: Applier): (r: (Manager, Option<string>, seq<nat>))
    requires Consistent(m)
    requires forall i :: 0 <= i < |rs| ==> InArena(rs[i].batch.nodes, |m.state.arena|)
    ensures Consistent(r.0) && |r.0.state.arena| == |m.state.arena|
    decreases |rs|
  {
    if rs == [] then (m, None, [])
    else
      var (m1, failure, applied) := SubmitRun(m, rs[..|rs| - 1], apply);
      if failure.Some? then (m1, failure, applied)
      else
        var result := rs[|rs| - 1];
        var m2 := m1.(pending := m1.pending[result.batch.batchId := result]);
        OrderedKeepsArena(m2, apply);
        var (m3, failure3) := Flush(m2, false, apply);
        (m3, failure3, applied + AppliedIds(m2, apply))
  }
}
