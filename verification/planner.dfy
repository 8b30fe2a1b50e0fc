/** BatchPlanner of temp/analysis_async_refactor.py: packs the analyzable
    nodes, in arena order, into token-budgeted analysis batches; a node with
    children always goes into a batch of its own. */
module Planner {

  import opened Text
  import opened Statements

  /** The sum of the nodes' token counts. */
  function TokenSum(ns: seq<StatementNode>): nat
  {
    if ns == [] then 0 else TokenSum(ns[..|ns| - 1]) + ns[|ns| - 1].token
  }

  /** The batches' node lists, concatenated. */
  function Flatten(bs: seq<AnalysisBatch>): seq<StatementNode>
  {
    if bs == [] then [] else Flatten(bs[..|bs| - 1]) + bs[|bs| - 1].nodes
  }

  /** The analyzable nodes, in order. */
  function Analyzable(ns: seq<StatementNode>): (r: seq<StatementNode>)
    ensures |r| <= |ns|
  {
    if ns == [] then []
    else Analyzable(ns[..|ns| - 1]) + (if ns[|ns| - 1].analyzable then [ns[|ns| - 1]] else [])
  }

  /** The state of plan's loop: the batches closed so far, and the leaves
      gathered for the next one with their token sum. */
  ghost predicate Filling(bs: seq<AnalysisBatch>, current: seq<StatementNode>, tokens: int, limit: int) {
    && Gathering(bs, current, tokens, limit)
    && (current == [] && bs != [] ==> bs[|bs| - 1].nodes != [] && bs[|bs| - 1].nodes[0].hasChildren)
  }

  /** The same, except that the last batch may be a batch of leaves even
      when nothing is gathered: the state right after a full batch closes. */
  ghost predicate Gathering(bs: seq<AnalysisBatch>, current: seq<StatementNode>, tokens: int, limit: int) {
    && Planned(bs, limit)
    && (forall k :: 0 <= k < |current| ==> !current[k].hasChildren)
    && tokens == TokenSum(current)
    && (|current| >= 2 ==> TokenSum(current) <= limit)
    && Follows(bs, current, limit)
  }

  lemma {:induction false} AnalyzableStep(nodes: seq<StatementNode>, i: nat)
    requires i < |nodes|
    ensures nodes[i].analyzable ==> Analyzable(nodes[..i + 1]) == Analyzable(nodes[..i]) + [nodes[i]]
    ensures !nodes[i].analyzable ==> Analyzable(nodes[..i + 1]) == Analyzable(nodes[..i])
  {
    assert nodes[..i + 1][..i] == nodes[..i];
    assert Analyzable(nodes[..i]) + [] == Analyzable(nodes[..i]);
  }

  lemma {:induction false} TokenSumAppend(ns: seq<StatementNode>, n: StatementNode)
    ensures TokenSum(ns + [n]) == TokenSum(ns) + n.token
  {
    assert (ns + [n])[..|ns|] == ns;
  }

  /** A batch holding no node with children. */
  predicate LeafBatch(b: AnalysisBatch) {
    forall k :: 0 <= k < |b.nodes| ==> !b.nodes[k].hasChildren
  }

  /** What plan promises about the batch `b` it closes after the batches
      `bs`: its id is the next one and it is _create_batch of its non-empty
      node list; a batch holding a parent holds nothing else; a batch of two
      or more nodes stays within the limit; and when a batch of leaves is
      followed by a leaf, it was closed because that leaf would have taken it
      over the limit. */
  ghost predicate NextBatch(bs: seq<AnalysisBatch>, b: AnalysisBatch, limit: int) {
    && b.nodes != []
    && b == CreateBatch(|bs| + 1, b.nodes)
    && (!LeafBatch(b) ==> |b.nodes| == 1)
    && (|b.nodes| >= 2 ==> TokenSum(b.nodes) <= limit)
    && (bs != [] && LeafBatch(bs[|bs| - 1]) && !b.nodes[0].hasChildren ==>
          TokenSum(bs[|bs| - 1].nodes) + b.nodes[0].token > limit)
  }

  /** Every batch of `bs` is the one plan closes after those before it. */
  ghost predicate Planned(bs: seq<AnalysisBatch>, limit: int) {
    bs == [] || (Planned(bs[..|bs| - 1], limit) && NextBatch(bs[..|bs| - 1], bs[|bs| - 1], limit))
  }

  /** A batch of leaves being filled after `bs`: if it would follow a
      batch of leaves, that batch was closed because of its first node. */
  ghost predicate Follows(bs: seq<AnalysisBatch>, current: seq<StatementNode>, limit: int) {
    current != [] && bs != [] && LeafBatch(bs[|bs| - 1]) ==>
      TokenSum(bs[|bs| - 1].nodes) + current[0].token > limit
  }

  /** Closing the batch of `nodes` after `bs`. */
  lemma {:induction false} PlannedAppend(bs: seq<AnalysisBatch>, nodes: seq<StatementNode>, limit: int)
    requires Planned(bs, limit) && nodes != []
    requires (exists k :: 0 <= k < |nodes| && nodes[k].hasChildren) ==> |nodes| == 1
    requires |nodes| >= 2 ==> TokenSum(nodes) <= limit
    requires !nodes[0].hasChildren ==> Follows(bs, nodes, limit)
    ensures Planned(bs + [CreateBatch(|bs| + 1, nodes)], limit)
    ensures Flatten(bs + [CreateBatch(|bs| + 1, nodes)]) == Flatten(bs) + nodes
  {
    var b := CreateBatch(|bs| + 1, nodes);
    assert (bs + [b])[..|bs|] == bs;
    if !LeafBatch(b) {
      var k :| 0 <= k < |nodes| && nodes[k].hasChildren;
    }
  }

  /** The batches plan closes, one by one: the i-th has id i + 1, is
      _create_batch of its node list, holds a parent only alone, stays within
      the limit when it holds several nodes, and, if it holds leaves and the
      next one starts with a leaf, could not have taken that leaf. */
  lemma {:induction false} PlannedBatch(bs: seq<AnalysisBatch>, limit: int, i: nat)
    requires Planned(bs, limit) && i < |bs|
    ensures bs[i].nodes != [] && bs[i] == CreateBatch(i + 1, bs[i].nodes)
    ensures bs[i].batchId == i + 1
    ensures (exists k :: 0 <= k < |bs[i].nodes| && bs[i].nodes[k].hasChildren) ==> |bs[i].nodes| == 1
    ensures |bs[i].nodes| >= 2 ==> TokenSum(bs[i].nodes) <= limit
    ensures i + 1 < |bs| && LeafBatch(bs[i]) && bs[i + 1].nodes != [] && !bs[i + 1].nodes[0].hasChildren ==>
              TokenSum(bs[i].nodes) + bs[i + 1].nodes[0].token > limit
    decreases |bs|
  {
    var front := bs[..|bs| - 1];
    if i + 1 < |bs| {
      PlannedBatch(front, limit, i);
      assert front[i] == bs[i];
      if i + 2 < |bs| {
        assert front[i + 1] == bs[i + 1];
      }
    }
  }

  lemma {:induction false} TokenSumAtLeast(ns: seq<StatementNode>, k: nat)
    requires k < |ns|
    ensures ns[k].token <= TokenSum(ns)
    decreases |ns|
  {
    if k < |ns| - 1 {
      TokenSumAtLeast(ns[..|ns| - 1], k);
    }
  }

  /** A node whose token count alone exceeds the limit sits alone in its
      batch. */
  lemma {:induction false} OversizedNodeAlone(bs: seq<AnalysisBatch>, limit: int, i: nat, k: nat)
    requires Planned(bs, limit) && i < |bs| && k < |bs[i].nodes|
    requires bs[i].nodes[k].token > limit
    ensures |bs[i].nodes| == 1
  {
    PlannedBatch(bs, limit, i);
    TokenSumAtLeast(bs[i].nodes, k);
  }

  /** Adding a leaf to the leaves being gathered keeps plan's loop state,
      provided the sum stays within the limit or nothing was gathered; in the
      latter case the batch before, if a batch of leaves, could not take it. */
  lemma {:induction false} AppendLeaf(bs: seq<AnalysisBatch>, current: seq<StatementNode>, tokens: int, node: StatementNode, limit: int)
    requires Gathering(bs, current, tokens, limit) && !node.hasChildren
    requires current != [] ==> tokens + node.token <= limit
    requires current == [] && bs != [] && LeafBatch(bs[|bs| - 1]) ==> TokenSum(bs[|bs| - 1].nodes) + node.token > limit
    ensures Filling(bs, current + [node], tokens + node.token, limit)
    ensures Flatten(bs) + (current + [node]) == Flatten(bs) + current + [node]
  {
    AppendAssoc(Flatten(bs), current, [node]);
    TokenSumAppend(current, node);
    assert (current + [node])[0] == if current == [] then node else current[0];
  }

  class BatchPlanner {
    const tokenLimit: int

    constructor(tokenLimit: int)
      ensures this.tokenLimit == tokenLimit
    {
      this.tokenLimit := tokenLimit;
    }

    /** The default limit, MAX_BATCH_TOKEN. */
    constructor Default()
      ensures tokenLimit == MaxBatchToken
    {
      tokenLimit := MaxBatchToken;
    }

    /** plan: walk the nodes, skipping the non-analyzable ones; a parent
        flushes the leaves gathered so far and then goes alone; a leaf
        flushes them first when it would take their sum over the limit;
        the leaves left at the end form the last batch. The batch ids are
        the running count kept as batch_id. */
    method Plan(nodes: seq<StatementNode>) returns (batches: seq<AnalysisBatch>)
      ensures Planned(batches, tokenLimit)
      ensures Flatten(batches) == Analyzable(nodes)
    {
      batches := [];
      var currentNodes: seq<StatementNode> := [];
      var currentTokens := 0;
      var i := 0;
      while i < |nodes|
        invariant 0 <= i <= |nodes|
        invariant Filling(batches, currentNodes, currentTokens, tokenLimit)
        invariant Flatten(batches) + currentNodes == Analyzable(nodes[..i])
      {
        AnalyzableStep(nodes, i);
        batches, currentNodes, currentTokens := Place(batches, currentNodes, currentTokens, nodes[i]);
        i := i + 1;
      }
      assert nodes[..i] == nodes;
      if currentNodes != [] {
        batches := Close(batches, currentNodes);
      }
    }

    /** One step of plan's loop, for one node. */
    method Place(batches: seq<AnalysisBatch>, currentNodes: seq<StatementNode>, currentTokens: int, node: StatementNode)
      returns (batches': seq<AnalysisBatch>, currentNodes': seq<StatementNode>, currentTokens': int)
      requires Filling(batches, currentNodes, currentTokens, tokenLimit)
      ensures Filling(batches', currentNodes', currentTokens', tokenLimit)
      ensures node.analyzable ==> Flatten(batches') + currentNodes' == Flatten(batches) + currentNodes + [node]
      ensures !node.analyzable ==> batches' == batches && currentNodes' == currentNodes
    {
      if !node.analyzable {
        batches', currentNodes', currentTokens' := batches, currentNodes, currentTokens;
      } else if node.hasChildren {
        batches' := PlaceParent(batches, currentNodes, currentTokens, node);
        currentNodes', currentTokens' := [], 0;
      } else {
        batches', currentNodes', currentTokens' := PlaceLeaf(batches, currentNodes, currentTokens, node);
      }
    }

    /** A parent: the leaves gathered so far form a batch, then the parent
        forms one of its own. */
    method PlaceParent(batches: seq<AnalysisBatch>, currentNodes: seq<StatementNode>, currentTokens: int, node: StatementNode)
      returns (batches': seq<AnalysisBatch>)
      requires Filling(batches, currentNodes, currentTokens, tokenLimit)
      requires node.hasChildren
      ensures Filling(batches', [], 0, tokenLimit)
      ensures Flatten(batches') == Flatten(batches) + currentNodes + [node]
    {
      batches' := batches;
      if currentNodes != [] {
        batches' := Close(batches', currentNodes);
      } else {
        assert Flatten(batches) + currentNodes == Flatten(batches);
      }
      ghost var closed := Flatten(batches');
      batches' := Close(batches', [node]);
      assert Flatten(batches') == closed + [node];
    }

    /** A leaf: the leaves gathered so far form a batch first when the new
        one would take their sum over the limit. */
    method PlaceLeaf(batches: seq<AnalysisBatch>, currentNodes: seq<StatementNode>, currentTokens: int, node: StatementNode)
      returns (batches': seq<AnalysisBatch>, currentNodes': seq<StatementNode>, currentTokens': int)
      requires Filling(batches, currentNodes, currentTokens, tokenLimit)
      requires !node.hasChildren
      ensures Filling(batches', currentNodes', currentTokens', tokenLimit)
      ensures Flatten(batches') + currentNodes' == Flatten(batches) + currentNodes + [node]
    {
      batches', currentNodes', currentTokens' := batches, currentNodes, currentTokens;
      if currentNodes' != [] && currentTokens' + node.token > tokenLimit {
        batches' := Close(batches', currentNodes');
        assert batches'[|batches'| - 1].nodes == currentNodes;
        currentNodes' := [];
        currentTokens' := 0;
        assert Flatten(batches') + currentNodes' == Flatten(batches) + currentNodes;
      } else if currentNodes == [] && batches != [] {
        assert batches[|batches| - 1].nodes[0].hasChildren;
      }
      AppendLeaf(batches', currentNodes', currentTokens', node, tokenLimit);
      currentNodes' := currentNodes' + [node];
      currentTokens' := currentTokens' + node.token;
    }

    /** _create_batch for the nodes gathered so far, appended under the
        next batch id. */
    method Close(batches: seq<AnalysisBatch>, nodes: seq<StatementNode>) returns (closed: seq<AnalysisBatch>)
      requires Planned(batches, tokenLimit) && nodes != []
      requires (exists k :: 0 <= k < |nodes| && nodes[k].hasChildren) ==> |nodes| == 1
      requires |nodes| >= 2 ==> TokenSum(nodes) <= tokenLimit
      requires !nodes[0].hasChildren ==> Follows(batches, nodes, tokenLimit)
      ensures closed == batches + [CreateBatch(|batches| + 1, nodes)]
      ensures Planned(closed, tokenLimit)
      ensures Flatten(closed) == Flatten(batches) + nodes
    {
      PlannedAppend(batches, nodes, tokenLimit);
      closed := batches + [CreateBatch(|batches| + 1, nodes)];
    }
  }
}
