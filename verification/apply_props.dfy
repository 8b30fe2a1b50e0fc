/** Properties of ApplyManager's batch application and flushing, stated on
    the functions of ApplySpec that the ApplyManager class is proved
    against. */
module ApplyProps {

  import opened Wrappers
  import opened Text
  import opened Statements
  import opened Buckets
  import opened ApplySpec

  // ===== call names =====

  /** A call name is accepted exactly when it holds at most one '.'. */
  lemma {:induction false} CallQueryOkIff(node: StatementNode, call: string)
    ensures CallQuery(node, call).Ok? <==> multiset(call)['.'] <= 1
  {
    if '.' in call {
      SplitCount(Upper(call), '.');
      UpperKeepsCount(call, '.');
      assert multiset(call)['.'] >= 1;
    } else {
      assert '.' !in multiset(call);
    }
  }

  /** `package.procedure` becomes an external call to the upper-cased
      package and procedure. */
  lemma {:induction false} CallQueryExternal(node: StatementNode, package: string, procedure: string)
    requires '.' !in package && '.' !in procedure
    ensures CallQuery(node, package + "." + procedure)
            == Ok(ExternalCall(node.nodeType, node.startLine, Upper(package), Upper(procedure)))
  {
    var call := package + "." + procedure;
    assert '.' in call by { assert call[|package|] == '.'; }
    UpperAppend(package, ".");
    UpperAppend(package + ".", procedure);
    assert Upper(".") == ".";
    var up, uq := Upper(package), Upper(procedure);
    assert '.' !in up by {
      forall i | 0 <= i < |up| ensures up[i] != '.' { assert package[i] != '.'; }
    }
    assert '.' !in uq by {
      forall i | 0 <= i < |uq| ensures uq[i] != '.' { assert procedure[i] != '.'; }
    }
    assert Join([up, uq], ".") == up + "." + uq;
    SplitJoin([up, uq], '.');
  }

  /** An analysis item whose calls include a name with several dots. */
  predicate Malformed(a: NodeAnalysis) {
    exists j :: 0 <= j < |a.calls| && multiset(a.calls[j])['.'] > 1
  }

  lemma {:induction false} NodeQueriesFail(node: StatementNode, a: NodeAnalysis)
    ensures NodeQueries(node, a).Err? <==> Malformed(a)
    ensures NodeQueries(node, a).Err? ==> NodeQueries(node, a).message == UnpackError
  {
    forall j | 0 <= j < |a.calls| ensures CallQuery(node, a.calls[j]).Ok? <==> multiset(a.calls[j])['.'] <= 1 {
      CallQueryOkIff(node, a.calls[j]);
    }
  }

  // ===== what applying a batch does to the nodes =====

  /** The ids of `nodes`. */
  function Ids(nodes: seq<StatementNode>): (r: set<nat>)
    ensures forall i :: 0 <= i < |nodes| ==> nodes[i].nodeId in r
  {
    set i | 0 <= i < |nodes| :: nodes[i].nodeId
  }

  /** The ids of a sequence split in two. */
  lemma {:induction false} IdsSplit(nodes: seq<StatementNode>, n: nat)
    requires n <= |nodes|
    ensures Ids(nodes) == Ids(nodes[..n]) + Ids(nodes[n..])
  {
    forall x | x in Ids(nodes) ensures x in Ids(nodes[..n]) + Ids(nodes[n..]) {
      var i :| 0 <= i < |nodes| && nodes[i].nodeId == x;
      if i < n { assert nodes[..n][i] == nodes[i]; } else { assert nodes[n..][i - n] == nodes[i]; }
    }
    forall x | x in Ids(nodes[..n]) ensures x in Ids(nodes) {
      var i :| 0 <= i < n && nodes[..n][i].nodeId == x;
      assert nodes[..n][i] == nodes[i];
    }
    forall x | x in Ids(nodes[n..]) ensures x in Ids(nodes) {
      var i :| 0 <= i < |nodes| - n && nodes[n..][i].nodeId == x;
      assert nodes[n..][i] == nodes[i + n];
    }
  }

  lemma {:induction false} IdsOne(x: StatementNode)
    ensures Ids([x]) == {x.nodeId}
  {
    assert [x][0] == x;
  }

  /** A node with its summary and completion flag cleared: what applying a
      batch must leave alone. */
  function Shape(n: StatementNode): StatementNode {
    n.(summary := None, completed := false)
  }

  /** `after` differs from `before` at most in the summary and completion
      flag of nodes whose id is in `ids`, and no completed node is
      un-completed. */
  predicate Rewrites(before: seq<StatementNode>, after: seq<StatementNode>, ids: set<nat>) {
    && |after| == |before|
    && forall k :: 0 <= k < |before| ==>
         && Shape(after[k]) == Shape(before[k])
         && (before[k].completed ==> after[k].completed)
         && (k + 1 !in ids ==> after[k] == before[k])
  }

  lemma {:induction false} RewritesTrans(a: seq<StatementNode>, b: seq<StatementNode>, c: seq<StatementNode>, i: set<nat>, j: set<nat>)
    requires Rewrites(a, b, i) && Rewrites(b, c, j)
    ensures Rewrites(a, c, i + j)
  {
  }

  /** A rewrite never clears a completion flag. */
  lemma {:induction false} RewritesKeepCompleted(a: seq<StatementNode>, b: seq<StatementNode>, ids: set<nat>, k: nat)
    requires Rewrites(a, b, ids) && k < |a| && a[k].completed
    ensures b[k].completed
  {
  }

  /** Replacing one node by a node of the same shape that is at least as
      completed. */
  lemma {:induction false} RewritesOne(arena: seq<StatementNode>, id: nat, x: StatementNode)
    requires 1 <= id <= |arena|
    requires Shape(x) == Shape(arena[id - 1]) && (arena[id - 1].completed ==> x.completed)
    ensures Rewrites(arena, arena[id - 1 := x], {id})
  {
  }

  lemma {:induction false} CompletedRewrites(arena: seq<StatementNode>, id: nat)
    requires 1 <= id <= |arena|
    ensures Rewrites(arena, Completed(arena, id), {id})
    ensures Completed(arena, id)[id - 1].completed
  {
    var n := arena[id - 1];
    assert Shape(n.(completed := true)) == Shape(n);
    RewritesOne(arena, id, n.(completed := true));
  }

  lemma {:induction false} SummarizedRewrites(arena: seq<StatementNode>, id: nat, summary: Option<string>)
    requires 1 <= id <= |arena|
    ensures Rewrites(arena, Summarized(arena, id, summary), {id})
  {
    var n := arena[id - 1];
    assert Shape(n.(summary := summary, completed := true)) == Shape(n);
    RewritesOne(arena, id, n.(summary := summary, completed := true));
  }

  /** Setting the completion flags changes only nodes of `nodes`. */
  lemma {:induction false} MarkCompletedRewrites(arena: seq<StatementNode>, nodes: seq<StatementNode>)
    requires InArena(nodes, |arena|)
    ensures Rewrites(arena, MarkCompleted(arena, nodes), Ids(nodes))
  {
    if nodes != [] {
      var n := |nodes| - 1;
      var front := nodes[..n];
      assert InArena(front, |arena|) by {
        assert forall i :: 0 <= i < n ==> front[i] == nodes[i];
      }
      MarkCompletedRewrites(arena, front);
      var mid := MarkCompleted(arena, front);
      CompletedRewrites(mid, nodes[n].nodeId);
      RewritesTrans(arena, mid, Completed(mid, nodes[n].nodeId), Ids(front), {nodes[n].nodeId});
      IdsSplit(nodes, n);
      assert nodes[n..] == [nodes[n]];
      IdsOne(nodes[n]);
    }
  }

  /** Setting the completion flags completes every node of `nodes`. */
  lemma {:induction false} MarkCompletedAll(arena: seq<StatementNode>, nodes: seq<StatementNode>)
    requires InArena(nodes, |arena|)
    ensures var r := MarkCompleted(arena, nodes);
            forall i :: 0 <= i < |nodes| ==> r[nodes[i].nodeId - 1].completed
  {
    if nodes != [] {
      var n := |nodes| - 1;
      var front := nodes[..n];
      assert InArena(front, |arena|) by {
        assert forall i :: 0 <= i < n ==> front[i] == nodes[i];
      }
      MarkCompletedAll(arena, front);
      var mid := MarkCompleted(arena, front);
      var r := Completed(mid, nodes[n].nodeId);
      CompletedRewrites(mid, nodes[n].nodeId);
      forall i | 0 <= i < |nodes| ensures r[nodes[i].nodeId - 1].completed {
        if i < n {
          assert front[i] == nodes[i];
          RewritesKeepCompleted(mid, r, {nodes[n].nodeId}, nodes[i].nodeId - 1);
        }
      }
    }
  }

  /** Setting the completion flags completes every node of `nodes` and
      changes nothing else. */
  lemma {:induction false} MarkCompletedEffect(arena: seq<StatementNode>, nodes: seq<StatementNode>)
    requires InArena(nodes, |arena|)
    ensures var r := MarkCompleted(arena, nodes);
            && Rewrites(arena, r, Ids(nodes))
            && forall i :: 0 <= i < |nodes| ==> r[nodes[i].nodeId - 1].completed
  {
    MarkCompletedRewrites(arena, nodes);
    MarkCompletedAll(arena, nodes);
  }

  /** One step of the node loop rewrites only its node and fails, with the
      ValueError, exactly on a malformed item. */
  lemma {:induction false} NodeStepEffect(s: State, node: StatementNode, item: Option<NodeAnalysis>)
    requires 1 <= node.nodeId <= |s.arena|
    ensures var q := NodeStep(s, node, item);
            && Rewrites(s.arena, q.state.arena, {node.nodeId})
            && q.state.tableStore == s.tableStore && q.state.sent == s.sent
            && (q.failure.Some? <==> item.Some? && Malformed(item.value))
            && (q.failure.Some? ==> q.failure.value == UnpackError)
  {
    if item.None? {
      CompletedRewrites(s.arena, node.nodeId);
    } else {
      SummarizedRewrites(s.arena, node.nodeId, NodeSummary(item.value.summary));
      NodeQueriesFail(node, item.value);
    }
  }

  /** The node loop rewrites only the loop's nodes, never touches the table
      buckets or the send queue, and fails, with the ValueError, exactly
      when one of its items is malformed. */
  lemma {:induction false} NodesPhaseEffect(s: State, nodes: seq<StatementNode>, items: seq<Option<NodeAnalysis>>)
    requires |nodes| == |items| && InArena(nodes, |s.arena|)
    ensures var p := NodesPhase(s, nodes, items);
            && Rewrites(s.arena, p.state.arena, Ids(nodes))
            && p.state.tableStore == s.tableStore && p.state.sent == s.sent
            && (p.failure.Some? <==> exists i :: 0 <= i < |items| && items[i].Some? && Malformed(items[i].value))
            && (p.failure.Some? ==> p.failure.value == UnpackError)
    decreases |nodes|
  {
    if nodes != [] {
      var q := NodeStep(s, nodes[0], items[0]);
      NodeStepEffect(s, nodes[0], items[0]);
      if q.failure.None? {
        assert InArena(nodes[1..], |q.state.arena|) by {
          assert forall i :: 0 <= i < |nodes| - 1 ==> nodes[1..][i] == nodes[i + 1];
        }
        NodesPhaseEffect(q.state, nodes[1..], items[1..]);
        var rest := NodesPhase(q.state, nodes[1..], items[1..]);
        RewritesTrans(s.arena, q.state.arena, rest.state.arena, {nodes[0].nodeId}, Ids(nodes[1..]));
        IdsSplit(nodes, 1);
        assert nodes[..1] == [nodes[0]];
        IdsOne(nodes[0]);
        assert (exists i :: 0 <= i < |items| && items[i].Some? && Malformed(items[i].value))
               <==> (exists i :: 0 <= i < |items| - 1 && items[1..][i].Some? && Malformed(items[1..][i].value)) by {
          forall i | 1 <= i < |items| ensures items[i] == items[1..][i - 1] { }
        }
      } else {
        IdsSplit(nodes, 1);
        assert nodes[..1] == [nodes[0]];
        IdsOne(nodes[0]);
      }
    }
  }

  /** _apply_batch touches only the batch's nodes. Without an error every
      node of the batch ends up completed and the queries go out in at most
      one message carrying the batch's progress line; with one, the
      ValueError of a malformed call, neither the table buckets nor the send
      queue change. */
  lemma {:induction false} ApplyBatchEffect(s: State, r: BatchResult)
    requires InArena(r.batch.nodes, |s.arena|)
    ensures var o := ApplyBatch(s, r);
            && Rewrites(s.arena, o.state.arena, Ids(r.batch.nodes))
            && (o.failure.Some? <==> exists i :: 0 <= i < ZipLength(r) && r.analysis[i].Some? && Malformed(r.analysis[i].value))
            && (o.failure.Some? ==> o.failure.value == UnpackError && o.state.sent == s.sent && o.state.tableStore == s.tableStore)
            && (o.failure.None? ==> forall i :: 0 <= i < |r.batch.nodes| ==> o.state.arena[r.batch.nodes[i].nodeId - 1].completed)
            && (o.failure.None? && o.queries == [] ==> o.state.sent == s.sent)
            && (o.failure.None? && o.queries != [] ==> o.state.sent == s.sent + [Message(o.queries, r.batch.progressLine)])
  {
    var m := ZipLength(r);
    var nodes := r.batch.nodes[..m];
    var items := r.analysis[..m];
    assert forall i :: 0 <= i < m ==> nodes[i] == r.batch.nodes[i] && items[i] == r.analysis[i];
    assert InArena(nodes, |s.arena|);
    NodesPhaseEffect(s, nodes, items);
    var p := NodesPhase(s, nodes, items);
    IdsSplit(r.batch.nodes, m);
    if p.failure.None? {
      MarkCompletedEffect(p.state.arena, r.batch.nodes);
      RewritesTrans(s.arena, p.state.arena, MarkCompleted(p.state.arena, r.batch.nodes), Ids(nodes), Ids(r.batch.nodes));
      assert Ids(nodes) + Ids(r.batch.nodes) == Ids(r.batch.nodes);
    }
  }

  // ===== flushing =====

  /** What an ordered loop started from `m` and ending in `m1` with
      failure `f` has done: it applied consecutive batch ids from the
      awaited one on, each of which was pending, and removed exactly those;
      when it stops without an error the id it awaits is not pending, and
      when an error stops it the failing id is removed but still awaited. */
  ghost predicate OrderedOutcome(m: Manager, m1: Manager, f: Option<string>)
  {
    var end := if f.None? then m1.next else m1.next + 1;
    && m.next <= m1.next
    && (forall id :: m.next <= id < end ==> id in m.pending)
    && (forall id :: id in m1.pending <==> id in m.pending && !(m.next <= id < end))
    && (f.None? ==> m1.next !in m1.pending)
  }

  /** The ordered loop's outcome, stated by OrderedOutcome. */
  lemma {:induction false} FlushOrderedEffect(m: Manager, apply: Applier)
    requires Consistent(m)
    ensures OrderedOutcome(m, FlushOrdered(m, apply).0, FlushOrdered(m, apply).1)
    decreases |m.pending.Keys|
  {
    if m.next in m.pending {
      var p := Pop(m, m.next, apply);
      assert p.0.pending.Keys < m.pending.Keys;
      FlushOrderedStep(m, apply);
      if p.1.None? {
        var m2 := p.0.(next := m.next + 1);
        FlushOrderedEffect(m2, apply);
        OutcomeAfterPop(m, m2, FlushOrdered(m2, apply).0, FlushOrdered(m2, apply).1);
      } else {
        OutcomeOfFailure(m, p.0, p.1);
      }
    }
  }

  /** An outcome from the manager after a successful pop, with the awaited
      id moved on, is an outcome from the manager before it. */
  lemma {:induction false} OutcomeAfterPop(m: Manager, m2: Manager, m1: Manager, f: Option<string>)
    requires m.next in m.pending && m2.next == m.next + 1 && m2.pending == m.pending - {m.next}
    requires OrderedOutcome(m2, m1, f)
    ensures OrderedOutcome(m, m1, f)
  {
    var end := if f.None? then m1.next else m1.next + 1;
    forall id | m.next <= id < end ensures id in m.pending {
      if id != m.next { assert id in m2.pending; }
    }
    forall id ensures id in m1.pending <==> id in m.pending && !(m.next <= id < end) {
      assert id in m1.pending <==> id in m2.pending && !(m.next + 1 <= id < end);
    }
  }

  /** A pop that fails ends the loop with exactly the awaited id removed. */
  lemma {:induction false} OutcomeOfFailure(m: Manager, m1: Manager, f: Option<string>)
    requires m.next in m.pending && m1.next == m.next && m1.pending == m.pending - {m.next}
    requires f.Some?
    ensures OrderedOutcome(m, m1, f)
  {
  }

  /** A round of the ordered loop that does not end the flush with an
      error: the loop goes on from the manager `m2` with the awaited result
      popped and applied and the next id awaited, and the log goes on from
      the awaited id. */
  lemma {:induction false} OrderedSuccess(m: Manager, apply: Applier) returns (m2: Manager)
    requires Consistent(m) && m.next in m.pending && FlushOrdered(m, apply).1.None?
    ensures Consistent(m2) && |m2.pending.Keys| < |m.pending.Keys| && m2.next == m.next + 1
    ensures FlushOrdered(m2, apply) == FlushOrdered(m, apply)
    ensures AppliedIds(m, apply) == [m.next] + AppliedIds(m2, apply)
  {
    var p := Pop(m, m.next, apply);
    assert p.0.pending.Keys < m.pending.Keys;
    FlushOrderedStep(m, apply);
    m2 := p.0.(next := m.next + 1);
  }

  /** The ordered loop does nothing when the awaited id is not pending. */
  lemma {:induction false} OrderedStops(m: Manager, apply: Applier)
    requires Consistent(m) && m.next !in m.pending
    ensures FlushOrdered(m, apply) == (m, None) && AppliedIds(m, apply) == []
  {
  }

  lemma {:induction false} IdsFromAppend(lo: nat, mid: nat, hi: nat)
    requires lo <= mid <= hi
    ensures IdsFrom(lo, mid) + IdsFrom(mid, hi) == IdsFrom(lo, hi)
    decreases mid - lo
  {
    if lo < mid {
      IdsFromAppend(lo + 1, mid, hi);
      AppendAssoc([lo], IdsFrom(lo + 1, mid), IdsFrom(mid, hi));
    }
  }

  /** The ordered loop applies consecutive ids, in ascending order, from
      the awaited one on. */
  lemma {:induction false} AppliedIdsConsecutive(m: Manager, apply: Applier)
    requires Consistent(m)
    ensures AppliedIds(m, apply) == IdsFrom(m.next, m.next + |AppliedIds(m, apply)|)
    decreases |m.pending.Keys|
  {
    if m.next in m.pending {
      var p := Pop(m, m.next, apply);
      assert p.0.pending.Keys < m.pending.Keys;
      if p.1.None? {
        var m2 := p.0.(next := m.next + 1);
        AppliedIdsConsecutive(m2, apply);
        IdsFromCons(m.next, AppliedIds(m2, apply));
      } else {
        IdsFromCons(m.next, []);
      }
    }
  }

  /** An id put in front of the consecutive ids after it. */
  lemma {:induction false} IdsFromCons(lo: nat, rest: seq<nat>)
    requires rest == IdsFrom(lo + 1, lo + 1 + |rest|)
    ensures [lo] + rest == IdsFrom(lo, lo + 1 + |rest|)
  {
  }

  /** Without an error, the ordered loop ends up awaiting the id after the
      last one it applied. */
  lemma {:induction false} OrderedAdvance(m: Manager, apply: Applier)
    requires Consistent(m) && FlushOrdered(m, apply).1.None?
    ensures FlushOrdered(m, apply).0.next == m.next + |AppliedIds(m, apply)|
    decreases |m.pending.Keys|
  {
    if m.next in m.pending {
      var m2 := OrderedSuccess(m, apply);
      OrderedAdvance(m2, apply);
    } else {
      OrderedStops(m, apply);
    }
  }

  /** The forced loop keeps the awaited id, only removes pending ids,
      removes them smallest first (every id it applied is below every id
      left) and, unless an error stops it, leaves nothing pending. */
  lemma {:induction false} FlushForcedEffect(m: Manager, apply: Applier)
    requires Consistent(m)
    ensures var (m1, f) := FlushForced(m, apply);
            && m1.next == m.next
            && (forall id :: id in m1.pending ==> id in m.pending)
            && (forall a, b :: a in m.pending && a !in m1.pending && b in m1.pending ==> a < b)
            && (f.None? ==> m1.pending == map[])
    decreases |m.pending.Keys|
  {
    if m.pending.Keys != {} {
      var x := Least(m.pending.Keys);
      var (m1, failure) := Pop(m, x, apply);
      assert m1.pending.Keys < m.pending.Keys;
      if failure.None? {
        FlushForcedEffect(m1, apply);
        var r := FlushForced(m1, apply).0;
        assert FlushForced(m, apply).0 == r;
        forall a, b | a in m.pending && a !in r.pending && b in r.pending ensures a < b {
          if a != x {
            assert a in m1.pending;
          } else {
            assert b in m1.pending && b != x;
          }
        }
      }
    }
  }

  /** finalize: a flush with `force` that meets no error leaves no batch
      pending. */
  lemma {:induction false} ForcedFlushDrains(m: Manager, apply: Applier)
    requires Consistent(m)
    ensures Flush(m, true, apply).1.None? ==> Flush(m, true, apply).0.pending == map[]
  {
    FlushOrderedEffect(m, apply);
    var (m1, f) := FlushOrdered(m, apply);
    if f.None? && m1.pending.Keys != {} {
      FlushForcedEffect(m1, apply);
    }
  }

  // ===== the summary store =====

  /** _update_summary_store on a node of a known procedure with a summary:
      the value is stored under the node's key in its procedure's bucket,
      the procedure's pending count drops by one without going below zero,
      and the procedure's summary task is requested exactly when the count
      is then zero; other procedures keep their count. */
  lemma {:induction false} UpdateSummaryStoreEffect(s: State, node: StatementNode, a: NodeAnalysis)
    requires Tracked(s, node) && a.summary.Some?
    ensures var r := UpdateSummaryStore(s, node, a);
            var key := node.procedureKey.value;
            var before := s.procedures[key].pendingNodes;
            && r.procedures.Keys == s.procedures.Keys
            && r.summaryStore[key][StoreKey(node)] == a.summary.value
            && r.procedures[key].pendingNodes + 1 >= before
            && r.procedures[key].pendingNodes <= before
            && (before > 0 ==> r.procedures[key].pendingNodes < before)
            && (r.procedures[key].pendingNodes == 0 <==> r.finalizeRequests == s.finalizeRequests + [key])
            && (r.procedures[key].pendingNodes != 0 ==> r.finalizeRequests == s.finalizeRequests)
            && (forall p :: p in s.procedures && p != key ==> r.procedures[p] == s.procedures[p])
  {
    var r := UpdateSummaryStore(s, node, a);
    var key := node.procedureKey.value;
    assert |r.finalizeRequests| == |s.finalizeRequests| + (if r.procedures[key].pendingNodes == 0 then 1 else 0);
  }

  // ===== DB links and foreign keys =====

  /** The number of `dbLinks` items whose name is not blank. */
  function NamedLinks(links: seq<LinkItem>): nat {
    if links == [] then 0
    else NamedLinks(links[..|links| - 1]) + (if Strip(Or(links[|links| - 1].name, "")) == [] then 0 else 1)
  }

  /** The `dbLinks` loop emits one DB-link query per item with a name, and
      every one of them hangs off the entry's node. */
  lemma {:induction false} LinkQueriesForm(node: StatementNode, links: seq<LinkItem>)
    ensures var r := LinkQueries(node, links);
            && |r| == NamedLinks(links)
            && forall k :: 0 <= k < |r| ==>
                 r[k].DbLinkTo? && r[k].nodeType == node.nodeType && r[k].startLine == node.startLine
    decreases |links|
  {
    if links != [] {
      var init := links[..|links| - 1];
      var l := links[|links| - 1];
      LinkQueriesForm(node, init);
      assert LinkQueries(node, links) == LinkQueries(node, init) + LinkQuery(node, l);
      var r0 := LinkQueries(node, init);
      var r := LinkQueries(node, links);
      forall k | 0 <= k < |r|
        ensures r[k].DbLinkTo? && r[k].nodeType == node.nodeType && r[k].startLine == node.startLine
      {
        if k < |r0| { assert r[k] == r0[k]; }
      }
    }
  }

  /** A relation with both tables and both columns given. */
  predicate Complete(f: FkItem) {
    && Strip(Or(f.sourceTable, "")) != []
    && Strip(Or(f.targetTable, "")) != []
    && Strip(Or(f.sourceColumn, "")) != []
    && Strip(Or(f.targetColumn, "")) != []
  }

  /** The number of complete `fkRelations` items. */
  function CompleteRelations(rels: seq<FkItem>): nat {
    if rels == [] then 0
    else CompleteRelations(rels[..|rels| - 1]) + (if Complete(rels[|rels| - 1]) then 1 else 0)
  }

  /** The table-level foreign key at `k` is followed by the column-level
      one between the same two tables. */
  predicate FkPairAt(r: seq<Query>, k: nat)
    requires k + 1 < |r|
  {
    && r[k].FkToTable? && r[k + 1].FkToColumn?
    && r[k + 1].sourceSchema == r[k].sourceSchema && r[k + 1].sourceTable == r[k].sourceTable
    && r[k + 1].targetSchema == r[k].targetSchema && r[k + 1].targetTable == r[k].targetTable
  }

  /** The first `n` pairs of `r` are foreign-key pairs. */
  predicate FkPairs(r: seq<Query>, n: nat) {
    2 * n <= |r| && forall i :: 0 <= i < n ==> FkPairAt(r, 2 * i)
  }

  /** Appending one relation's queries keeps the earlier pairs and, for a
      complete relation, adds one more. */
  lemma {:induction false} FkPairsAppend(r0: seq<Query>, q: seq<Query>, n: nat)
    requires FkPairs(r0, n) && |r0| == 2 * n
    requires q == [] || (|q| == 2 && FkPairAt(q, 0))
    ensures FkPairs(r0 + q, n + |q| / 2)
  {
    var r := r0 + q;
    forall i | 0 <= i < n + |q| / 2 ensures FkPairAt(r, 2 * i) {
      if i < n {
        assert FkPairAt(r0, 2 * i);
        assert r[2 * i] == r0[2 * i] && r[2 * i + 1] == r0[2 * i + 1];
      } else {
        assert r[2 * i] == q[0] && r[2 * i + 1] == q[1];
      }
    }
  }

  /** One relation gives a foreign-key pair when complete, else nothing. */
  lemma {:induction false} FkQueryForm(f: FkItem)
    ensures Complete(f) ==> |FkQuery(f)| == 2 && FkPairAt(FkQuery(f), 0)
    ensures !Complete(f) ==> FkQuery(f) == []
  {
  }

  /** The `fkRelations` loop emits two queries per complete relation: the
      table-level foreign key, then the column-level one between the same
      tables. */
  lemma {:induction false} FkQueriesForm(rels: seq<FkItem>)
    ensures var r := FkQueries(rels);
            && |r| == 2 * CompleteRelations(rels)
            && FkPairs(r, CompleteRelations(rels))
    decreases |rels|
  {
    if rels != [] {
      var init := rels[..|rels| - 1];
      var f := rels[|rels| - 1];
      FkQueriesForm(init);
      FkQueryForm(f);
      assert FkQueries(rels) == FkQueries(init) + FkQuery(f);
      FkPairsAppend(FkQueries(init), FkQuery(f), CompleteRelations(init));
    }
  }

  // ===== a run of submissions =====

  /** What a run of submissions keeps: ids 1 to `next - 1` were submitted
      and applied in that order, `next` was never submitted, and every other
      submitted id is still pending. */
  ghost predicate InOrder(m: Manager, ids: set<nat>, applied: seq<nat>) {
    && m.next >= 1
    && applied == IdsFrom(1, m.next)
    && (forall id :: 1 <= id < m.next ==> id in ids)
    && m.next !in ids
    && (forall id :: id in m.pending <==> id in ids && !(1 <= id < m.next))
  }

  /** Submitting a result whose id is new keeps InOrder, unless applying
      fails. */
  lemma {:induction false} SubmitKeepsInOrder(m: Manager, ids: set<nat>, applied: seq<nat>, result: BatchResult, apply: Applier)
    requires Consistent(m) && InArena(result.batch.nodes, |m.state.arena|)
    requires InOrder(m, ids, applied) && result.batch.batchId !in ids
    requires var m2 := m.(pending := m.pending[result.batch.batchId := result]);
             Consistent(m2) && Flush(m2, false, apply).1.None?
    ensures var m2 := m.(pending := m.pending[result.batch.batchId := result]);
            InOrder(Flush(m2, false, apply).0, ids + {result.batch.batchId}, applied + AppliedIds(m2, apply))
  {
    var j := result.batch.batchId;
    var m2 := m.(pending := m.pending[j := result]);
    var ids2 := ids + {j};
    assert Flush(m2, false, apply) == FlushOrdered(m2, apply);
    var m3 := FlushOrdered(m2, apply).0;
    FlushOrderedEffect(m2, apply);
    AppliedIdsConsecutive(m2, apply);
    OrderedAdvance(m2, apply);
    IdsFromAppend(1, m.next, m3.next);
    assert !(1 <= j < m.next);
    forall id ensures id in m2.pending <==> id in ids2 && !(1 <= id < m.next) {
    }
    forall id | 1 <= id < m3.next ensures id in ids2 {
      if id >= m.next { assert id in m2.pending; }
    }
    assert m3.next !in ids2;
  }

  /** The last of distinct batch ids is new. */
  lemma {:induction false} BatchIdsSnoc(rs: seq<BatchResult>)
    requires rs != []
    requires forall i, k :: 0 <= i < k < |rs| ==> rs[i].batch.batchId != rs[k].batch.batchId
    ensures var last := rs[|rs| - 1].batch.batchId;
            BatchIds(rs) == BatchIds(rs[..|rs| - 1]) + {last} && last !in BatchIds(rs[..|rs| - 1])
  {
    var init := rs[..|rs| - 1];
    var last := rs[|rs| - 1].batch.batchId;
    forall id | id in BatchIds(rs) ensures id in BatchIds(init) + {last} {
      var i :| 0 <= i < |rs| && rs[i].batch.batchId == id;
      if i < |rs| - 1 { assert init[i] == rs[i]; }
    }
  }

  /** One more submission after an error-free run. */
  lemma {:induction false} SubmitRunStep(m: Manager, rs: seq<BatchResult>, apply: Applier)
    requires Consistent(m) && rs != []
    requires forall i :: 0 <= i < |rs| ==> InArena(rs[i].batch.nodes, |m.state.arena|)
    requires SubmitRun(m, rs[..|rs| - 1], apply).1.None?
    ensures var (m1, _, applied) := SubmitRun(m, rs[..|rs| - 1], apply);
            var result := rs[|rs| - 1];
            var m2 := m1.(pending := m1.pending[result.batch.batchId := result]);
            && Consistent(m2)
            && SubmitRun(m, rs, apply) == (Flush(m2, false, apply).0, Flush(m2, false, apply).1, applied + AppliedIds(m2, apply))
  {
  }

  /** Results with distinct batch ids, submitted in any order to a manager
      fresh from the constructor (nothing pending, waiting for batch 1),
      without an error: the ids applied are 1, 2, ..., k in that order,
      where 1 to k were all submitted and k + 1 was not, and every other
      submitted id is still pending. */
  lemma {:induction false} SubmitRunInOrder(s: State, rs: seq<BatchResult>, apply: Applier)
    requires forall i :: 0 <= i < |rs| ==> InArena(rs[i].batch.nodes, |s.arena|)
    requires forall i, k :: 0 <= i < k < |rs| ==> rs[i].batch.batchId != rs[k].batch.batchId
    requires SubmitRun(Manager(s, map[], 1), rs, apply).1.None?
    ensures var (m, _, applied) := SubmitRun(Manager(s, map[], 1), rs, apply);
            && m.next >= 1
            && applied == IdsFrom(1, m.next)
            && (forall id :: 1 <= id < m.next ==> id in BatchIds(rs))
            && m.next !in BatchIds(rs)
            && (forall id :: id in m.pending <==> id in BatchIds(rs) && !(1 <= id < m.next))
    decreases |rs|
  {
    var m0 := Manager(s, map[], 1);
    if rs == [] {
      assert InOrder(m0, BatchIds(rs), []);
    } else {
      var init := rs[..|rs| - 1];
      var result := rs[|rs| - 1];
      SubmitRunInOrder(s, init, apply);
      var (m1, failure, applied) := SubmitRun(m0, init, apply);
      assert InOrder(m1, BatchIds(init), applied);
      BatchIdsSnoc(rs);
      SubmitRunStep(m0, rs, apply);
      SubmitKeepsInOrder(m1, BatchIds(init), applied, result, apply);
    }
  }
}
