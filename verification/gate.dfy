/** The dependency gate of Analyzer.run (_wait_for_dependencies in
    temp/analysis_async_refactor.py): before a batch is sent to the model,
    the worker waits for the completion flag of every analyzable child of
    its nodes. Here the gate is a readiness predicate over the arena, and
    the lemmas show that the batches plan produces never wait on
    themselves or on later batches: once the batches before a batch are
    applied, its gate is open. */
module Gate {

  import opened Statements
  import opened Planner
  import Collector

  /** A child id the gate waits on: an analyzable node of the arena whose
      completion flag is not yet set. */
  predicate Waits(arena: seq<StatementNode>, id: nat) {
    1 <= id <= |arena| && arena[id - 1].analyzable && !arena[id - 1].completed
  }

  /** _wait_for_dependencies returns at once: no node of the batch has a
      child the gate waits on. */
  predicate Ready(batch: AnalysisBatch, arena: seq<StatementNode>) {
    forall k, m :: 0 <= k < |batch.nodes| && 0 <= m < |batch.nodes[k].children| ==>
      !Waits(arena, batch.nodes[k].children[m])
  }

  /** The arena as the collector leaves it: ids follow positions, children
      come before their parent, and a node has children exactly when its
      child list is non-empty. */
  ghost predicate Collected(arena: seq<StatementNode>) {
    && Collector.IdsInOrder(arena)
    && Collector.ChildrenLinked(arena)
    && forall k :: 0 <= k < |arena| ==> arena[k].hasChildren == (arena[k].children != [])
  }

  /** A batch without children is always ready. */
  lemma {:induction false} LeafBatchReady(batch: AnalysisBatch, arena: seq<StatementNode>)
    requires LeafBatch(batch)
    requires forall k :: 0 <= k < |batch.nodes| ==> batch.nodes[k].hasChildren == (batch.nodes[k].children != [])
    ensures Ready(batch, arena)
  {
  }

  /** Every analyzable node is an arena entry, and they appear in
      increasing id order. */
  lemma {:induction false} AnalyzableFromArena(arena: seq<StatementNode>)
    requires Collector.IdsInOrder(arena)
    ensures forall x :: 0 <= x < |Analyzable(arena)| ==>
              1 <= Analyzable(arena)[x].nodeId <= |arena| && Analyzable(arena)[x] == arena[Analyzable(arena)[x].nodeId - 1]
    ensures forall x, y :: 0 <= x < y < |Analyzable(arena)| ==> Analyzable(arena)[x].nodeId < Analyzable(arena)[y].nodeId
    decreases |arena|
  {
    if arena != [] {
      var front := arena[..|arena| - 1];
      assert Collector.IdsInOrder(front) by {
        forall k | 0 <= k < |front| ensures front[k].nodeId == k + 1 {
          assert front[k] == arena[k];
        }
      }
      AnalyzableFromArena(front);
      var a := Analyzable(front);
      forall x | 0 <= x < |a| ensures 1 <= a[x].nodeId <= |front| && a[x] == arena[a[x].nodeId - 1] {
        assert a[x] == front[a[x].nodeId - 1];
      }
    }
  }

  /** Every analyzable arena entry is among the analyzable nodes. */
  lemma {:induction false} AnalyzableHas(arena: seq<StatementNode>, p: nat)
    requires p < |arena| && arena[p].analyzable
    ensures arena[p] in Analyzable(arena)
    decreases |arena|
  {
    if p < |arena| - 1 {
      var front := arena[..|arena| - 1];
      assert front[p] == arena[p];
      AnalyzableHas(front, p);
    }
  }

  /** The nodes of the first j batches come first among all batch nodes. */
  lemma {:induction false} FlattenPrefix(bs: seq<AnalysisBatch>, j: nat)
    requires j <= |bs|
    ensures |Flatten(bs[..j])| <= |Flatten(bs)|
    ensures Flatten(bs)[..|Flatten(bs[..j])|] == Flatten(bs[..j])
    decreases |bs| - j
  {
    if j < |bs| {
      FlattenPrefix(bs, j + 1);
      assert bs[..j + 1][..j] == bs[..j];
      var f := Flatten(bs[..j + 1]);
      assert f == Flatten(bs[..j]) + bs[j].nodes;
      assert f[..|Flatten(bs[..j])|] == Flatten(bs[..j]);
    } else {
      assert bs[..j] == bs;
    }
  }

  /** Every position of the concatenated node lists falls in some batch. */
  lemma {:induction false} FlattenMember(bs: seq<AnalysisBatch>, t: nat)
    requires t < |Flatten(bs)|
    ensures exists i, q :: 0 <= i < |bs| && 0 <= q < |bs[i].nodes| && bs[i].nodes[q] == Flatten(bs)[t]
    decreases |bs|
  {
    var front := bs[..|bs| - 1];
    if t < |Flatten(front)| {
      FlattenMember(front, t);
      var i, q :| 0 <= i < |front| && 0 <= q < |front[i].nodes| && front[i].nodes[q] == Flatten(front)[t];
      assert bs[i] == front[i];
    } else {
      var q := t - |Flatten(front)|;
      assert bs[|bs| - 1].nodes[q] == Flatten(bs)[t];
    }
  }

  /** The k-th node of batch j sits, among all batch nodes, right after
      the nodes of the batches before j. */
  lemma {:induction false} BatchNodePosition(bs: seq<AnalysisBatch>, j: nat, k: nat)
    requires j < |bs| && k < |bs[j].nodes|
    ensures |Flatten(bs[..j])| + k < |Flatten(bs)|
    ensures Flatten(bs)[|Flatten(bs[..j])| + k] == bs[j].nodes[k]
  {
    FlattenPrefix(bs, j + 1);
    assert bs[..j + 1][..j] == bs[..j];
    assert Flatten(bs[..j + 1]) == Flatten(bs[..j]) + bs[j].nodes;
    assert Flatten(bs[..j + 1])[|Flatten(bs[..j])| + k] == bs[j].nodes[k];
  }

  /** Batch nodes are arena entries: the node at its own id. */
  lemma {:induction false} BatchNodeInArena(arena: seq<StatementNode>, bs: seq<AnalysisBatch>, j: nat, k: nat)
    requires Collector.IdsInOrder(arena) && Flatten(bs) == Analyzable(arena)
    requires j < |bs| && k < |bs[j].nodes|
    ensures 1 <= bs[j].nodes[k].nodeId <= |arena|
    ensures bs[j].nodes[k] == arena[bs[j].nodes[k].nodeId - 1]
  {
    BatchNodePosition(bs, j, k);
    AnalyzableFromArena(arena);
  }

  /** No batch waits on itself or on a later batch: every child of a node
      in batch j is an earlier arena entry, and when it is analyzable it
      was planned into a batch before j. */
  lemma {:induction false} ChildrenPlannedEarlier(arena: seq<StatementNode>, limit: int, bs: seq<AnalysisBatch>, j: nat, k: nat, m: nat)
    requires Collected(arena)
    requires Planned(bs, limit) && Flatten(bs) == Analyzable(arena)
    requires j < |bs| && k < |bs[j].nodes| && m < |bs[j].nodes[k].children|
    ensures 1 <= bs[j].nodes[k].children[m] < bs[j].nodes[k].nodeId <= |arena|
    ensures arena[bs[j].nodes[k].children[m] - 1].analyzable ==>
              exists i, q :: 0 <= i < j && 0 <= q < |bs[i].nodes| && bs[i].nodes[q] == arena[bs[j].nodes[k].children[m] - 1]
  {
    var n := bs[j].nodes[k];
    BatchNodeInArena(arena, bs, j, k);
    var c := n.children[m];
    assert 1 <= c < n.nodeId;
    if arena[c - 1].analyzable {
      ChildBefore(arena, limit, bs, j, k, m);
    }
  }

  /** An analyzable entry with a smaller id than the y-th analyzable node
      comes before it among the analyzable nodes. */
  lemma {:induction false} SmallerIdEarlier(arena: seq<StatementNode>, p: nat, y: nat)
    requires Collector.IdsInOrder(arena)
    requires p < |arena| && arena[p].analyzable
    requires y < |Analyzable(arena)| && p + 1 < Analyzable(arena)[y].nodeId
    ensures exists x :: 0 <= x < y && Analyzable(arena)[x] == arena[p]
  {
    var a := Analyzable(arena);
    AnalyzableHas(arena, p);
    var x :| 0 <= x < |a| && a[x] == arena[p];
    AnalyzableFromArena(arena);
    assert a[x].nodeId == p + 1;
  }

  /** A position before the nodes of batch j falls in a batch before j. */
  lemma {:induction false} InEarlierBatch(bs: seq<AnalysisBatch>, j: nat, x: nat)
    requires j <= |bs| && x < |Flatten(bs[..j])|
    ensures x < |Flatten(bs)|
    ensures exists i, q :: 0 <= i < j && 0 <= q < |bs[i].nodes| && bs[i].nodes[q] == Flatten(bs)[x]
  {
    FlattenPrefix(bs, j);
    assert Flatten(bs[..j])[x] == Flatten(bs)[x];
    FlattenMember(bs[..j], x);
    var i, q :| 0 <= i < |bs[..j]| && 0 <= q < |bs[..j][i].nodes| && bs[..j][i].nodes[q] == Flatten(bs[..j])[x];
    assert bs[..j][i] == bs[i];
  }

  /** A batch node with children is the only node of its batch. */
  lemma {:induction false} ParentAlone(arena: seq<StatementNode>, limit: int, bs: seq<AnalysisBatch>, j: nat, k: nat)
    requires Collected(arena)
    requires Planned(bs, limit) && Flatten(bs) == Analyzable(arena)
    requires j < |bs| && k < |bs[j].nodes| && bs[j].nodes[k].children != []
    ensures |bs[j].nodes| == 1 && k == 0
  {
    var n := bs[j].nodes[k];
    BatchNodeInArena(arena, bs, j, k);
    assert n.hasChildren by {
      assert n == arena[n.nodeId - 1];
    }
    PlannedBatch(bs, limit, j);
  }

  lemma {:induction false} ChildBefore(arena: seq<StatementNode>, limit: int, bs: seq<AnalysisBatch>, j: nat, k: nat, m: nat)
    requires Collected(arena)
    requires Planned(bs, limit) && Flatten(bs) == Analyzable(arena)
    requires j < |bs| && k < |bs[j].nodes| && m < |bs[j].nodes[k].children|
    requires 1 <= bs[j].nodes[k].children[m] < bs[j].nodes[k].nodeId <= |arena|
    requires arena[bs[j].nodes[k].children[m] - 1].analyzable
    ensures exists i, q :: 0 <= i < j && 0 <= q < |bs[i].nodes| && bs[i].nodes[q] == arena[bs[j].nodes[k].children[m] - 1]
  {
    var n := bs[j].nodes[k];
    var c := n.children[m];
    ParentAlone(arena, limit, bs, j, k);
    BatchNodePosition(bs, j, k);
    var at := |Flatten(bs[..j])|;
    SmallerIdEarlier(arena, c - 1, at);
    var x :| 0 <= x < at && Analyzable(arena)[x] == arena[c - 1];
    InEarlierBatch(bs, j, x);
  }

  /** The gate opens: once every node of the batches before batch j has
      its completion flag set, batch j is ready. `arena` is the arena at
      planning time; `now` is the arena later, where only summaries and
      completion flags have changed. */
  lemma {:induction false} GateOpens(arena: seq<StatementNode>, limit: int, bs: seq<AnalysisBatch>, j: nat, now: seq<StatementNode>)
    requires Collected(arena)
    requires Planned(bs, limit) && Flatten(bs) == Analyzable(arena)
    requires j < |bs|
    requires |now| == |arena|
    requires forall p :: 0 <= p < |arena| ==> now[p].analyzable == arena[p].analyzable
    requires forall i, q :: 0 <= i < j && 0 <= q < |bs[i].nodes| && 1 <= bs[i].nodes[q].nodeId <= |now| ==>
               now[bs[i].nodes[q].nodeId - 1].completed
    ensures Ready(bs[j], now)
  {
    forall k, m | 0 <= k < |bs[j].nodes| && 0 <= m < |bs[j].nodes[k].children|
      ensures !Waits(now, bs[j].nodes[k].children[m])
    {
      ChildDone(arena, limit, bs, j, now, k, m);
    }
  }

  lemma {:induction false} ChildDone(arena: seq<StatementNode>, limit: int, bs: seq<AnalysisBatch>, j: nat, now: seq<StatementNode>, k: nat, m: nat)
    requires Collected(arena)
    requires Planned(bs, limit) && Flatten(bs) == Analyzable(arena)
    requires j < |bs| && k < |bs[j].nodes| && m < |bs[j].nodes[k].children|
    requires |now| == |arena|
    requires forall p :: 0 <= p < |arena| ==> now[p].analyzable == arena[p].analyzable
    requires forall i, q :: 0 <= i < j && 0 <= q < |bs[i].nodes| && 1 <= bs[i].nodes[q].nodeId <= |now| ==>
               now[bs[i].nodes[q].nodeId - 1].completed
    ensures !Waits(now, bs[j].nodes[k].children[m])
  {
    var c := bs[j].nodes[k].children[m];
    ChildrenPlannedEarlier(arena, limit, bs, j, k, m);
    assert arena[c - 1].nodeId == c;
    ChildDoneAt(arena, bs, j, now, c);
  }

  lemma {:induction false} ChildDoneAt(arena: seq<StatementNode>, bs: seq<AnalysisBatch>, j: nat, now: seq<StatementNode>, c: nat)
    requires j <= |bs|
    requires 1 <= c <= |arena| && arena[c - 1].nodeId == c
    requires arena[c - 1].analyzable ==>
               exists i, q :: 0 <= i < j && 0 <= q < |bs[i].nodes| && bs[i].nodes[q] == arena[c - 1]
    requires |now| == |arena| && now[c - 1].analyzable == arena[c - 1].analyzable
    requires forall i, q :: 0 <= i < j && 0 <= q < |bs[i].nodes| && 1 <= bs[i].nodes[q].nodeId <= |now| ==>
               now[bs[i].nodes[q].nodeId - 1].completed
    ensures !Waits(now, c)
  {
    if arena[c - 1].analyzable {
      var i, q :| 0 <= i < j && 0 <= q < |bs[i].nodes| && bs[i].nodes[q] == arena[c - 1];
      assert bs[i].nodes[q].nodeId == c;
    }
  }
}
