/** StatementCollector of temp/analysis_async_refactor.py: a post-order walk
    over the parse tree that flattens it into an arena of StatementNode
    values, links parents and children by id and registers procedures.

    The regex search for a procedure name and the token counter are given to
    the collector as functions; only what the walk does with their results is
    modelled. */
module Collector {

  import opened Wrappers
  import opened Text
  import opened Statements

  /** One node of the parser's JSON tree (`startLine`, `endLine`, `type`,
      `children`; a missing children list is the empty one). */
  datatype ParseNode = ParseNode(startLine: int, endLine: int, nodeType: string, children: seq<ParseNode>)

  /** What a collector is built from besides the tree: the file's lines, the
      folder and file names that prefix procedure keys, the token counter and
      the procedure-name regex search (its first group, or None). */
  datatype Env = Env(
    fileLines: seq<string>,
    folderName: string,
    fileName: string,
    tokenCount: string -> nat,
    nameMatch: string -> Option<string>)

  /** The procedure key, type and schema a visit inherits from its caller. */
  datatype Scope = Scope(key: Option<string>, procType: Option<string>, schema: Option<string>)

  // ===== the tree in post-order =====

  ghost function PostOrder(t: ParseNode): seq<ParseNode>
    decreases t, 1
  {
    PostOrderAll(t.children) + [t]
  }

  ghost function PostOrderAll(ts: seq<ParseNode>): seq<ParseNode>
    decreases ts, 0
  {
    if ts == [] then [] else PostOrderAll(ts[..|ts| - 1]) + PostOrder(ts[|ts| - 1])
  }

  /** The arena entries `ns` are the parse nodes `ps`, position by position. */
  ghost predicate Mirrors(ns: seq<StatementNode>, ps: seq<ParseNode>) {
    |ns| == |ps| &&
    forall k :: 0 <= k < |ns| ==>
      ns[k].startLine == ps[k].startLine && ns[k].endLine == ps[k].endLine && ns[k].nodeType == ps[k].nodeType
  }

  /** The ids the roots of the subtrees `ts` get when their post-orders are
      laid out one after another behind `lo` existing nodes: the root of
      `ts[i]` closes the post-order of `ts[..i + 1]`. */
  ghost function RootIds(lo: nat, ts: seq<ParseNode>): (r: seq<nat>)
    ensures |r| == |ts|
  {
    if ts == [] then [] else RootIds(lo, ts[..|ts| - 1]) + [lo + |PostOrderAll(ts)|]
  }

  /** The j-th root id lies in the laid-out stretch and the post-order puts
      tree child j there: the arena entry of that id is that child. */
  lemma {:induction false} RootIdsPointAtChildren(lo: nat, ts: seq<ParseNode>, j: nat)
    requires j < |ts|
    ensures lo < RootIds(lo, ts)[j] <= lo + |PostOrderAll(ts)|
    ensures PostOrderAll(ts)[RootIds(lo, ts)[j] - lo - 1] == ts[j]
    decreases |ts|
  {
    var init := ts[..|ts| - 1];
    var last := ts[|ts| - 1];
    assert PostOrderAll(ts) == PostOrderAll(init) + PostOrder(last);
    if j < |ts| - 1 {
      RootIdsPointAtChildren(lo, init, j);
      assert RootIds(lo, ts)[j] == RootIds(lo, init)[j];
    } else {
      assert PostOrder(last) == PostOrderAll(last.children) + [last];
    }
  }

  /** The children lists of the post-order of `t` laid out behind `lo`
      existing nodes: each node lists the root ids of its own tree children. */
  ghost function ShapeOf(t: ParseNode, lo: nat): seq<seq<nat>>
    decreases t, 1
  {
    ShapeAll(t.children, lo) + [RootIds(lo, t.children)]
  }

  ghost function ShapeAll(ts: seq<ParseNode>, lo: nat): seq<seq<nat>>
    decreases ts, 0
  {
    if ts == [] then []
    else ShapeAll(ts[..|ts| - 1], lo) + ShapeOf(ts[|ts| - 1], lo + |PostOrderAll(ts[..|ts| - 1])|)
  }

  /** The arena entries `ns` have the children lists `shape`, position by
      position. */
  ghost predicate LinkedAs(ns: seq<StatementNode>, shape: seq<seq<nat>>) {
    |ns| == |shape| && forall k :: 0 <= k < |ns| ==> ns[k].children == shape[k]
  }

  lemma {:induction false} LinkedAsAppend(a: seq<StatementNode>, b: seq<StatementNode>, p: seq<seq<nat>>, q: seq<seq<nat>>)
    requires LinkedAs(a, p) && LinkedAs(b, q)
    ensures LinkedAs(a + b, p + q)
  {
  }

  lemma {:induction false} MirrorsAppend(a: seq<StatementNode>, b: seq<StatementNode>, p: seq<ParseNode>, q: seq<ParseNode>)
    requires Mirrors(a, p) && Mirrors(b, q)
    ensures Mirrors(a + b, p + q)
  {
  }

  // ===== per-node computations =====

  /** The `line_entries` of a node: one entry per line number from start to
      end, with the file's text, or "" past the end of the file. */
  function LineEntries(fileLines: seq<string>, startLine: int, endLine: int): seq<Line>
  {
    var n := if endLine < startLine then 0 else endLine - startLine + 1;
    seq(n, i requires 0 <= i < n =>
      Line(startLine + i, if 0 <= startLine + i - 1 < |fileLines| then fileLines[startLine + i - 1] else ""))
  }

  /** A node's lines are numbered consecutively, so get_compact_code copies
      exactly the lines that lie outside its children. */
  lemma {:induction false} LineEntriesIncrease(fileLines: seq<string>, startLine: int, endLine: int)
    ensures Increasing(LineEntries(fileLines, startLine, endLine))
  {
  }

  /** The schema and name candidates get_procedure_name_from_code yields for
      a node's code. */
  function Candidates(env: Env, code: string): (Option<string>, Option<string>)
  {
    ProcedureNameFromMatch(env.nameMatch(code))
  }

  /** Python's `a or b` on an optional string: the name when it is present
      and non-empty. */
  function NameOr(name: Option<string>, fallback: string): string
  {
    if name.Some? && name.value != "" then name.value else fallback
  }

  /** _make_proc_key: "folder:file:name:start", with "anonymous_<start>"
      standing in for a missing name. */
  function ProcKey(folderName: string, fileName: string, name: Option<string>, startLine: int): string
  {
    folderName + ":" + fileName + ":" + NameOr(name, "anonymous_" + IntToString(startLine)) + ":" + IntToString(startLine)
  }

  /** Two texts joined by ':' to a ':'-free tail agree on the tail. */
  lemma {:induction false} SameColonTail(x: string, a: string, y: string, b: string)
    requires ':' !in a && ':' !in b && x + ":" + a == y + ":" + b
    ensures a == b
  {
    var r := x + ":" + a;
    var q := y + ":" + b;
    assert r[|r| - |a| - 1] == ':';
    assert q[|q| - |b| - 1] == ':';
    assert a == r[|r| - |a|..];
    assert b == q[|q| - |b|..];
  }

  /** A procedure key determines the start line it was made from: the text
      after its last ':' is the start line in decimal. */
  lemma {:induction false} ProcKeyDeterminesStart(folder1: string, file1: string, name1: Option<string>, start1: int,
                                                  folder2: string, file2: string, name2: Option<string>, start2: int)
    requires ProcKey(folder1, file1, name1, start1) == ProcKey(folder2, file2, name2, start2)
    ensures start1 == start2
  {
    IntToStringChars(start1);
    IntToStringChars(start2);
    SameColonTail(folder1 + ":" + file1 + ":" + NameOr(name1, "anonymous_" + IntToString(start1)), IntToString(start1),
                  folder2 + ":" + file2 + ":" + NameOr(name2, "anonymous_" + IntToString(start2)), IntToString(start2));
    IntToStringInjective(start1, start2);
  }

  /** The ProcedureInfo a procedure node registers under key `p`. */
  function Registration(env: Env, p: string, n: StatementNode): ProcedureInfo
  {
    ProcedureInfo(p, n.nodeType, NameOr(Candidates(env, n.code).1, p), n.schemaName, n.startLine, n.endLine, 0)
  }

  // ===== what a visit promises about the nodes it creates =====

  /** Everything the collector fixes about a node it built in scope `s`,
      given the final procedure table `procs`: its lines and code, token count,
      flags, its procedure key (its own for a procedure type, otherwise the
      inherited one), the procedure name looked up under that key, and its
      completion flag, set unless it is analyzable with a non-empty key. */
  ghost predicate NodeFacts(env: Env, s: Scope, procs: map<string, ProcedureInfo>, n: StatementNode) {
    LocalFacts(env, s, n)
    && (n.procedureKey.Some? ==>
          n.procedureKey.value in procs && n.procedureName == Some(procs[n.procedureKey.value].procedureName))
    && (n.procedureKey.None? ==> n.procedureName.None?)
    && n.completed == !(n.analyzable && n.procedureKey.Some? && n.procedureKey.value != "")
  }

  /** The part of NodeFacts that does not depend on the procedure table. */
  ghost predicate LocalFacts(env: Env, s: Scope, n: StatementNode) {
    n.lines == LineEntries(env.fileLines, n.startLine, n.endLine)
    && n.code == RawCode(n.lines)
    && n.token == env.tokenCount(n.code)
    && n.analyzable == (n.nodeType !in NonAnalysisTypes)
    && n.dml == (n.nodeType in DmlStatementTypes)
    && n.hasChildren == (n.children != [])
    && n.summary.None?
    && (if n.nodeType in ProcedureTypes then
          n.procedureKey == Some(ProcKey(env.folderName, env.fileName, Candidates(env, n.code).1, n.startLine))
          && n.procedureType == Some(n.nodeType)
          && n.schemaName == Candidates(env, n.code).0
        else
          n.procedureKey == s.key && n.procedureType == s.procType && n.schemaName == s.schema)
  }

  /** Registered procedures stay registered and keep everything but their
      pending counter: the first registration wins. */
  ghost predicate Kept(before: map<string, ProcedureInfo>, after: map<string, ProcedureInfo>) {
    forall p :: p in before ==> p in after && after[p].(pendingNodes := 0) == before[p].(pendingNodes := 0)
  }

  /** Does node `n` hold a pending slot of procedure `p`? */
  predicate Holds(n: StatementNode, p: string) {
    !n.completed && n.procedureKey == Some(p)
  }

  /** The number of nodes holding a pending slot of procedure `p`. */
  function Pending(ns: seq<StatementNode>, p: string): (r: nat)
    ensures r <= |ns|
  {
    if ns == [] then 0
    else Pending(ns[..|ns| - 1], p) + (if Holds(ns[|ns| - 1], p) then 1 else 0)
  }

  function Prior(procs: map<string, ProcedureInfo>, p: string): nat {
    if p in procs then procs[p].pendingNodes else 0
  }

  /** Each procedure's pending counter grew by the number of added nodes
      holding a slot of it. */
  ghost predicate PendingCounts(before: map<string, ProcedureInfo>, after: map<string, ProcedureInfo>, added: seq<StatementNode>) {
    forall p :: p in after ==> after[p].pendingNodes == Prior(before, p) + Pending(added, p)
  }

  /** Key `p` was registered by the first procedure node among
      `ns[lo..]` carrying it. */
  ghost predicate FirstRegistrant(env: Env, ns: seq<StatementNode>, lo: nat, procs: map<string, ProcedureInfo>, p: string)
    requires p in procs
  {
    exists k :: lo <= k < |ns| && ns[k].procedureKey == Some(p) && ns[k].nodeType in ProcedureTypes
      && (forall j :: lo <= j < k ==> ns[j].procedureKey != Some(p))
      && procs[p].(pendingNodes := 0) == Registration(env, p, ns[k])
  }

  ghost predicate NewKeysRegistered(env: Env, ns: seq<StatementNode>, lo: nat, before: map<string, ProcedureInfo>, after: map<string, ProcedureInfo>) {
    forall p :: p in after && p !in before ==> FirstRegistrant(env, ns, lo, after, p)
  }

  ghost predicate NewFacts(env: Env, s: Scope, ns: seq<StatementNode>, lo: nat, procs: map<string, ProcedureInfo>) {
    forall k :: lo <= k < |ns| ==> NodeFacts(env, s, procs, ns[k])
  }

  /** The arena `nodes` and table `procs` are `oldNodes` and `oldProcs`
      after visiting some subtrees in scope `s`. */
  ghost predicate Extends(env: Env, s: Scope, oldNodes: seq<StatementNode>, nodes: seq<StatementNode>,
                          oldProcs: map<string, ProcedureInfo>, procs: map<string, ProcedureInfo>) {
    |oldNodes| <= |nodes| && nodes[..|oldNodes|] == oldNodes
    && Kept(oldProcs, procs)
    && NewFacts(env, s, nodes, |oldNodes|, procs)
    && PendingCounts(oldProcs, procs, nodes[|oldNodes|..])
    && NewKeysRegistered(env, nodes, |oldNodes|, oldProcs, procs)
  }

  // ===== arena shape =====

  /** node_id k + 1 sits at index k. */
  ghost predicate IdsInOrder(ns: seq<StatementNode>) {
    forall k :: 0 <= k < |ns| ==> ns[k].nodeId == k + 1
  }

  /** Every child comes before its parent and points back to it. */
  ghost predicate ChildrenLinked(ns: seq<StatementNode>) {
    forall k, j :: 0 <= k < |ns| && 0 <= j < |ns[k].children| ==>
      1 <= ns[k].children[j] <= k && ns[ns[k].children[j] - 1].parent == Some(k + 1)
  }

  /** Every parent comes after its child and lists it. */
  ghost predicate ParentsLinked(ns: seq<StatementNode>) {
    forall k :: 0 <= k < |ns| && ns[k].parent.Some? ==>
      k + 1 < ns[k].parent.value <= |ns| && k + 1 in ns[ns[k].parent.value - 1].children
  }

  /** Among the nodes from index `lo` on, those without a parent are exactly
      the ones whose ids are in `roots`. */
  ghost predicate Roots(ns: seq<StatementNode>, lo: nat, roots: seq<nat>) {
    (forall j :: 0 <= j < |roots| ==> lo < roots[j] <= |ns|)
    && (forall k :: lo <= k < |ns| ==> (ns[k].parent.None? <==> k + 1 in roots))
  }

  // ===== lemmas the collector's proof uses =====

  lemma {:induction false} PendingAppend(a: seq<StatementNode>, b: seq<StatementNode>, p: string)
    ensures Pending(a + b, p) == Pending(a, p) + Pending(b, p)
    decreases |b|
  {
    if b != [] {
      var ab := a + b;
      assert ab[..|ab| - 1] == a + b[..|b| - 1];
      assert ab[|ab| - 1] == b[|b| - 1];
      assert Pending(ab, p) == Pending(a + b[..|b| - 1], p) + (if Holds(b[|b| - 1], p) then 1 else 0);
      PendingAppend(a, b[..|b| - 1], p);
    } else {
      assert a + b == a;
    }
  }

  /** Pending counts read only the completion flag and the key. */
  lemma {:induction false} PendingSameKeys(a: seq<StatementNode>, b: seq<StatementNode>, p: string)
    requires |a| == |b|
    requires forall k :: 0 <= k < |a| ==> a[k].completed == b[k].completed && a[k].procedureKey == b[k].procedureKey
    ensures Pending(a, p) == Pending(b, p)
    decreases |a|
  {
    if a != [] {
      PendingSameKeys(a[..|a| - 1], b[..|b| - 1], p);
    }
  }

  /** No node holds a slot of a key that is not registered. */
  lemma {:induction false} PendingAbsent(ns: seq<StatementNode>, procs: map<string, ProcedureInfo>, p: string)
    requires forall k :: 0 <= k < |ns| && ns[k].procedureKey.Some? ==> ns[k].procedureKey.value in procs
    requires p !in procs
    ensures Pending(ns, p) == 0
    decreases |ns|
  {
    if ns != [] {
      PendingAbsent(ns[..|ns| - 1], procs, p);
    }
  }

  lemma {:induction false} NodeFactsKept(env: Env, s: Scope, before: map<string, ProcedureInfo>, after: map<string, ProcedureInfo>, n: StatementNode)
    requires NodeFacts(env, s, before, n) && Kept(before, after)
    ensures NodeFacts(env, s, after, n)
  {
    if n.procedureKey.Some? {
      var p := n.procedureKey.value;
      assert after[p].(pendingNodes := 0).procedureName == before[p].(pendingNodes := 0).procedureName;
    }
  }

  lemma {:induction false} KeptTrans(a: map<string, ProcedureInfo>, b: map<string, ProcedureInfo>, c: map<string, ProcedureInfo>)
    requires Kept(a, b) && Kept(b, c)
    ensures Kept(a, c)
  {
  }

  lemma {:induction false} NewFactsTrans(env: Env, s: Scope, n1: seq<StatementNode>, n2: seq<StatementNode>, lo: nat,
                                         p1: map<string, ProcedureInfo>, p2: map<string, ProcedureInfo>)
    requires lo <= |n1| <= |n2| && n2[..|n1|] == n1
    requires NewFacts(env, s, n1, lo, p1) && NewFacts(env, s, n2, |n1|, p2) && Kept(p1, p2)
    ensures NewFacts(env, s, n2, lo, p2)
  {
    forall k | lo <= k < |n2|
      ensures NodeFacts(env, s, p2, n2[k])
    {
      if k < |n1| {
        assert n2[k] == n2[..|n1|][k];
        NodeFactsKept(env, s, p1, p2, n1[k]);
      }
    }
  }

  lemma {:induction false} PendingTrans(env: Env, s: Scope, n0: seq<StatementNode>, n1: seq<StatementNode>, n2: seq<StatementNode>,
                                        p0: map<string, ProcedureInfo>, p1: map<string, ProcedureInfo>, p2: map<string, ProcedureInfo>)
    requires |n0| <= |n1| <= |n2| && n2[..|n1|] == n1 && n1[..|n0|] == n0
    requires Kept(p0, p1) && NewFacts(env, s, n1, |n0|, p1)
    requires PendingCounts(p0, p1, n1[|n0|..]) && PendingCounts(p1, p2, n2[|n1|..])
    ensures PendingCounts(p0, p2, n2[|n0|..])
  {
    assert n2[|n0|..] == n1[|n0|..] + n2[|n1|..];
    forall p | p in p2
      ensures p2[p].pendingNodes == Prior(p0, p) + Pending(n2[|n0|..], p)
    {
      PendingAppend(n1[|n0|..], n2[|n1|..], p);
      if p !in p1 {
        var added := n1[|n0|..];
        forall k | 0 <= k < |added| && added[k].procedureKey.Some?
          ensures added[k].procedureKey.value in p1
        {
          assert NodeFacts(env, s, p1, n1[|n0| + k]);
        }
        PendingAbsent(added, p1, p);
      }
    }
  }

  /** A key registered in the first stretch keeps its first registrant. */
  lemma {:induction false} RegisteredEarly(env: Env, n0: seq<StatementNode>, n1: seq<StatementNode>, n2: seq<StatementNode>,
                                           p1: map<string, ProcedureInfo>, p2: map<string, ProcedureInfo>, p: string)
    requires |n0| <= |n1| <= |n2| && n2[..|n1|] == n1
    requires p in p1 && Kept(p1, p2) && FirstRegistrant(env, n1, |n0|, p1, p)
    ensures p in p2 && FirstRegistrant(env, n2, |n0|, p2, p)
  {
    var k :| |n0| <= k < |n1| && n1[k].procedureKey == Some(p) && n1[k].nodeType in ProcedureTypes
      && (forall j :: |n0| <= j < k ==> n1[j].procedureKey != Some(p))
      && p1[p].(pendingNodes := 0) == Registration(env, p, n1[k]);
    assert n2[k] == n1[k];
    forall j | |n0| <= j < k
      ensures n2[j].procedureKey != Some(p)
    {
      assert n2[j] == n1[j];
    }
  }

  /** A key registered only in the second stretch has no carrier in the
      first, where every key is registered already. */
  lemma {:induction false} RegisteredLate(env: Env, s: Scope, n0: seq<StatementNode>, n1: seq<StatementNode>, n2: seq<StatementNode>,
                                          p1: map<string, ProcedureInfo>, p2: map<string, ProcedureInfo>, p: string)
    requires |n0| <= |n1| <= |n2| && n2[..|n1|] == n1
    requires NewFacts(env, s, n1, |n0|, p1)
    requires p in p2 && p !in p1 && FirstRegistrant(env, n2, |n1|, p2, p)
    ensures FirstRegistrant(env, n2, |n0|, p2, p)
  {
    var k :| |n1| <= k < |n2| && n2[k].procedureKey == Some(p) && n2[k].nodeType in ProcedureTypes
      && (forall j :: |n1| <= j < k ==> n2[j].procedureKey != Some(p))
      && p2[p].(pendingNodes := 0) == Registration(env, p, n2[k]);
    forall j | |n0| <= j < |n1|
      ensures n2[j].procedureKey != Some(p)
    {
      assert n2[j] == n1[j];
      assert NodeFacts(env, s, p1, n1[j]);
    }
  }

  lemma {:induction false} RegisteredTrans(env: Env, s: Scope, n0: seq<StatementNode>, n1: seq<StatementNode>, n2: seq<StatementNode>,
                                           p0: map<string, ProcedureInfo>, p1: map<string, ProcedureInfo>, p2: map<string, ProcedureInfo>)
    requires |n0| <= |n1| <= |n2| && n2[..|n1|] == n1
    requires Kept(p1, p2) && NewFacts(env, s, n1, |n0|, p1)
    requires NewKeysRegistered(env, n1, |n0|, p0, p1) && NewKeysRegistered(env, n2, |n1|, p1, p2)
    ensures NewKeysRegistered(env, n2, |n0|, p0, p2)
  {
    forall p | p in p2 && p !in p0
      ensures FirstRegistrant(env, n2, |n0|, p2, p)
    {
      if p in p1 {
        RegisteredEarly(env, n0, n1, n2, p1, p2, p);
      } else {
        RegisteredLate(env, s, n0, n1, n2, p1, p2, p);
      }
    }
  }

  lemma {:induction false} ExtendsTrans(env: Env, s: Scope, n0: seq<StatementNode>, n1: seq<StatementNode>, n2: seq<StatementNode>,
                                        p0: map<string, ProcedureInfo>, p1: map<string, ProcedureInfo>, p2: map<string, ProcedureInfo>)
    requires Extends(env, s, n0, n1, p0, p1) && Extends(env, s, n1, n2, p1, p2)
    ensures Extends(env, s, n0, n2, p0, p2)
  {
    assert n2[..|n0|] == n2[..|n1|][..|n0|];
    KeptTrans(p0, p1, p2);
    NewFactsTrans(env, s, n1, n2, |n0|, p1, p2);
    PendingTrans(env, s, n0, n1, n2, p0, p1, p2);
    RegisteredTrans(env, s, n0, n1, n2, p0, p1, p2);
  }

  lemma {:induction false} ExtendsRefl(env: Env, s: Scope, ns: seq<StatementNode>, procs: map<string, ProcedureInfo>)
    ensures Extends(env, s, ns, ns, procs, procs)
  {
    assert ns[|ns|..] == [];
  }

  // ===== the collector =====

  class StatementCollector {
    const tree: ParseNode
    const fileLines: seq<string>
    const folderName: string
    const fileName: string
    const tokenCount: string -> nat
    const nameMatch: string -> Option<string>
    var nodes: seq<StatementNode>
    var procedures: map<string, ProcedureInfo>
    var nodeId: nat

    function Environment(): Env {
      Env(fileLines, folderName, fileName, tokenCount, nameMatch)
    }

    ghost predicate Valid()
      reads this
    {
      nodeId == |nodes| && IdsInOrder(nodes) && ChildrenLinked(nodes) && ParentsLinked(nodes)
    }

    constructor(tree: ParseNode, fileContent: string, folderName: string, fileName: string,
                tokenCount: string -> nat, nameMatch: string -> Option<string>)
      ensures this.tree == tree && fileLines == Split(fileContent, '\n')
      ensures this.folderName == folderName && this.fileName == fileName
      ensures this.tokenCount == tokenCount && this.nameMatch == nameMatch
      ensures nodes == [] && procedures == map[] && nodeId == 0
      ensures Valid()
    {
      this.tree := tree;
      this.fileLines := Split(fileContent, '\n');
      this.folderName := folderName;
      this.fileName := fileName;
      this.tokenCount := tokenCount;
      this.nameMatch := nameMatch;
      nodes := [];
      procedures := map[];
      nodeId := 0;
    }

    /** collect: visit the whole tree from the top, with no inherited
        procedure, and return the arena and the procedure table. */
    method Collect() returns (ns: seq<StatementNode>, procs: map<string, ProcedureInfo>)
      requires Valid()
      modifies this
      ensures Valid()
      ensures Extends(Environment(), Scope(None, None, None), old(nodes), nodes, old(procedures), procedures)
      ensures Mirrors(nodes[|old(nodes)|..], PostOrder(tree))
      ensures LinkedAs(nodes[|old(nodes)|..], ShapeOf(tree, |old(nodes)|))
      ensures forall k :: |old(nodes)| <= k < |nodes| ==> nodes[k].completed
      ensures forall k :: |old(nodes)| <= k < |nodes| && nodes[k].nodeType !in ProcedureTypes ==> nodes[k].procedureKey.None?
      ensures forall p :: p in procedures ==> procedures[p].pendingNodes == Prior(old(procedures), p)
      ensures ns == nodes && procs == procedures
    {
      var rootId := Visit(tree, None, None, None);
      TopLevelVisit(Environment(), old(nodes), nodes, old(procedures), procedures);
      ns, procs := nodes, procedures;
    }

    /** The `for child_node in child_nodes` loop: point each child at its
        parent. */
    method LinkParents(childIds: seq<nat>, parentId: nat)
      requires forall j :: 0 <= j < |childIds| ==> 1 <= childIds[j] <= |nodes|
      modifies this
      ensures |nodes| == |old(nodes)|
      ensures forall k :: 0 <= k < |nodes| ==>
        nodes[k] == if k + 1 in childIds then old(nodes)[k].(parent := Some(parentId)) else old(nodes)[k]
      ensures procedures == old(procedures) && nodeId == old(nodeId)
    {
      var j := 0;
      while j < |childIds|
        invariant 0 <= j <= |childIds|
        invariant |nodes| == |old(nodes)|
        invariant forall k :: 0 <= k < |nodes| ==>
          nodes[k] == if k + 1 in childIds[..j] then old(nodes)[k].(parent := Some(parentId)) else old(nodes)[k]
        invariant procedures == old(procedures) && nodeId == old(nodeId)
      {
        var c := childIds[j];
        nodes := nodes[c - 1 := nodes[c - 1].(parent := Some(parentId))];
        assert childIds[..j + 1] == childIds[..j] + [c];
        j := j + 1;
      }
      assert childIds[..j] == childIds;
    }

    /** _visit: visit the children first, with the inherited procedure
        scope, then build this node. Returns its id. */
    method Visit(node: ParseNode, currentProc: Option<string>, currentType: Option<string>, currentSchema: Option<string>)
      returns (id: nat)
      requires Valid()
      requires currentProc.Some? ==> currentProc.value in procedures
      modifies this
      decreases node, 1
      ensures Valid()
      ensures Extends(Environment(), Scope(currentProc, currentType, currentSchema), old(nodes), nodes, old(procedures), procedures)
      ensures Mirrors(nodes[|old(nodes)|..], PostOrder(node))
      ensures LinkedAs(nodes[|old(nodes)|..], ShapeOf(node, |old(nodes)|))
      ensures id == |nodes| && nodes[id - 1].parent.None?
      ensures nodes[id - 1].children == RootIds(|old(nodes)|, node.children)
      ensures forall k :: |old(nodes)| <= k < |nodes| - 1 ==> nodes[k].parent.Some?
    {
      var childIds := VisitChildren(node, currentProc, currentType, currentSchema);
      ghost var visited, visitedProcs := nodes, procedures;
      id := AddNode(node, childIds, currentProc, currentType, currentSchema, |old(nodes)|);
      SubtreeAdded(Environment(), Scope(currentProc, currentType, currentSchema), old(nodes), visited, nodes,
                   old(procedures), visitedProcs, procedures, node, childIds);
    }

    /** The `for child in children` loop of _visit: each child subtree in
        turn, with the same inherited scope. */
    method VisitChildren(node: ParseNode, currentProc: Option<string>, currentType: Option<string>, currentSchema: Option<string>)
      returns (childIds: seq<nat>)
      requires Valid()
      requires currentProc.Some? ==> currentProc.value in procedures
      modifies this
      decreases node, 0
      ensures Valid()
      ensures Extends(Environment(), Scope(currentProc, currentType, currentSchema), old(nodes), nodes, old(procedures), procedures)
      ensures Mirrors(nodes[|old(nodes)|..], PostOrderAll(node.children))
      ensures LinkedAs(nodes[|old(nodes)|..], ShapeAll(node.children, |old(nodes)|))
      ensures Roots(nodes, |old(nodes)|, childIds) && childIds == RootIds(|old(nodes)|, node.children)
    {
      ghost var scope := Scope(currentProc, currentType, currentSchema);
      ghost var base := |nodes|;
      childIds := [];
      ExtendsRefl(Environment(), scope, nodes, procedures);
      var i := 0;
      while i < |node.children|
        invariant 0 <= i <= |node.children|
        invariant Valid()
        invariant Extends(Environment(), scope, old(nodes), nodes, old(procedures), procedures)
        invariant Mirrors(nodes[base..], PostOrderAll(node.children[..i]))
        invariant LinkedAs(nodes[base..], ShapeAll(node.children[..i], base))
        invariant Roots(nodes, base, childIds) && childIds == RootIds(base, node.children[..i])
      {
        ghost var before, beforeProcs := nodes, procedures;
        var childId := Visit(node.children[i], currentProc, currentType, currentSchema);
        ChildVisited(Environment(), scope, old(nodes), before, nodes, old(procedures), beforeProcs, procedures,
                     node.children, i, childIds, childId);
        ChildShaped(before, nodes, base, node.children, i, childIds, childId);
        childIds := childIds + [childId];
        i := i + 1;
      }
      assert node.children[..i] == node.children;
    }

    /** The rest of _visit once the children are done: build the node from
        its lines, register its procedure when it is a procedure type (the
        first registration of a key wins), link its children to it, and
        either count it as pending for its procedure or mark it complete. */
    method AddNode(node: ParseNode, childIds: seq<nat>, currentProc: Option<string>, currentType: Option<string>,
                   currentSchema: Option<string>, ghost lo: nat)
      returns (id: nat)
      requires Valid() && Roots(nodes, lo, childIds)
      requires currentProc.Some? ==> currentProc.value in procedures
      modifies this
      ensures Valid()
      ensures id == |nodes| == |old(nodes)| + 1
      ensures Reparented(old(nodes), nodes[..|old(nodes)|])
      ensures forall k :: 0 <= k < |old(nodes)| ==>
        nodes[k].parent == if k + 1 in childIds then Some(id) else old(nodes)[k].parent
      ensures Extends(Environment(), Scope(currentProc, currentType, currentSchema), nodes[..|old(nodes)|], nodes, old(procedures), procedures)
      ensures nodes[id - 1].startLine == node.startLine && nodes[id - 1].endLine == node.endLine
      ensures nodes[id - 1].nodeType == node.nodeType
      ensures nodes[id - 1].parent.None? && nodes[id - 1].children == childIds
    {
      var created := BuildNode(node, childIds, currentProc, currentType, currentSchema);
      ghost var registered := procedures;
      LinkParents(childIds, nodeId);
      ghost var linked := nodes;
      var done := CountOrComplete(created);
      nodes := nodes + [done];
      id := nodeId;
      NodeDone(Environment(), Scope(currentProc, currentType, currentSchema), old(nodes), linked, nodes, old(procedures), registered, procedures, created, done, node, childIds, lo, id);
    }

    /** The node-building part of _visit: the node's lines and code, its
        procedure scope (registering a procedure node's key), its flags and
        the next id. The node is not yet linked or counted. */
    method BuildNode(node: ParseNode, childIds: seq<nat>, currentProc: Option<string>, currentType: Option<string>,
                     currentSchema: Option<string>)
      returns (created: StatementNode)
      requires currentProc.Some? ==> currentProc.value in procedures
      modifies this
      ensures nodes == old(nodes) && nodeId == old(nodeId) + 1
      ensures created.nodeId == nodeId && created.parent.None? && created.children == childIds && !created.completed
      ensures created.startLine == node.startLine && created.endLine == node.endLine && created.nodeType == node.nodeType
      ensures LocalFacts(Environment(), Scope(currentProc, currentType, currentSchema), created)
      ensures procedures == AfterRegistration(Environment(), old(procedures), created)
      ensures created.procedureName == if created.procedureKey.Some? && created.procedureKey.value in procedures
        then Some(procedures[created.procedureKey.value].procedureName) else None
    {
      var lines := LineEntries(fileLines, node.startLine, node.endLine);
      var code := RawCode(lines);
      var procedureKey, procedureType, schemaName := currentProc, currentType, currentSchema;
      if node.nodeType in ProcedureTypes {
        procedureKey, procedureType, schemaName := RegisterProcedure(node, code);
      }
      var analyzable := node.nodeType !in NonAnalysisTypes;
      var token := tokenCount(code);
      var dml := node.nodeType in DmlStatementTypes;
      nodeId := nodeId + 1;
      var procedureName := if procedureKey.Some? && procedureKey.value in procedures
        then Some(procedures[procedureKey.value].procedureName) else None;
      created := StatementNode(nodeId, node.startLine, node.endLine, node.nodeType, code, token,
        childIds != [], procedureKey, procedureType, procedureName, schemaName, analyzable, dml, lines,
        None, childIds, None, false);
    }

    /** The procedure branch of _visit: the name candidates from the code,
        the key, and a registration unless the key is already taken. */
    method RegisterProcedure(node: ParseNode, code: string)
      returns (procedureKey: Option<string>, procedureType: Option<string>, schemaName: Option<string>)
      modifies this
      ensures nodes == old(nodes) && nodeId == old(nodeId)
      ensures procedureKey == Some(ProcKey(folderName, fileName, Candidates(Environment(), code).1, node.startLine))
      ensures procedureType == Some(node.nodeType) && schemaName == Candidates(Environment(), code).0
      ensures procedures == if procedureKey.value in old(procedures) then old(procedures)
        else old(procedures)[procedureKey.value := ProcedureInfo(procedureKey.value, node.nodeType,
               NameOr(Candidates(Environment(), code).1, procedureKey.value), schemaName, node.startLine, node.endLine, 0)]
    {
      var candidates := ProcedureNameFromMatch(nameMatch(code));
      procedureKey := Some(ProcKey(folderName, fileName, candidates.1, node.startLine));
      procedureType := Some(node.nodeType);
      schemaName := candidates.0;
      if procedureKey.value !in procedures {
        procedures := procedures[procedureKey.value :=
          ProcedureInfo(procedureKey.value, node.nodeType, NameOr(candidates.1, procedureKey.value),
                        candidates.0, node.startLine, node.endLine, 0)];
      }
    }

    /** The end of _visit: an analyzable node with a registered, non-empty
        key takes a pending slot of its procedure; any other node is
        complete at once. */
    method CountOrComplete(created: StatementNode) returns (done: StatementNode)
      modifies this
      ensures nodes == old(nodes) && nodeId == old(nodeId)
      ensures procedures == AfterCount(old(procedures), done)
      ensures done == created.(completed := !(created.analyzable && created.procedureKey.Some?
        && created.procedureKey.value != "" && created.procedureKey.value in old(procedures)) || created.completed)
    {
      done := created;
      var key := created.procedureKey;
      if created.analyzable && key.Some? && key.value != "" && key.value in procedures {
        var info := procedures[key.value];
        procedures := procedures[key.value := info.(pendingNodes := info.pendingNodes + 1)];
      } else {
        done := done.(completed := true);
      }
    }
  }

  /** After one more child subtree: the mirror and the roots grow by it. */
  lemma {:induction false} VisitedChild(before: seq<StatementNode>, after: seq<StatementNode>, base: nat, children: seq<ParseNode>, i: nat)
    requires i < |children|
    requires base <= |before| < |after| && after[..|before|] == before
    requires Mirrors(before[base..], PostOrderAll(children[..i]))
    requires Mirrors(after[|before|..], PostOrder(children[i]))
    ensures Mirrors(after[base..], PostOrderAll(children[..i + 1]))
  {
    assert children[..i + 1][..i] == children[..i];
    assert after[base..] == before[base..] + after[|before|..];
    MirrorsAppend(before[base..], after[|before|..], PostOrderAll(children[..i]), PostOrder(children[i]));
  }

  /** After one more child subtree, whose nodes all have parents except its
      root: that root joins the roots. */
  lemma {:induction false} RootsStep(before: seq<StatementNode>, after: seq<StatementNode>, base: nat, roots: seq<nat>, root: nat)
    requires base <= |before| < |after| && after[..|before|] == before
    requires Roots(before, base, roots)
    requires root == |after| && after[root - 1].parent.None?
    requires forall k :: |before| <= k < |after| - 1 ==> after[k].parent.Some?
    ensures Roots(after, base, roots + [root])
  {
    forall k | base <= k < |after|
      ensures after[k].parent.None? <==> k + 1 in roots + [root]
    {
      if k < |before| {
        assert after[k] == before[k];
      }
    }
  }

  /** `b` is `a` with only parent links changed. */
  ghost predicate Reparented(a: seq<StatementNode>, b: seq<StatementNode>) {
    |a| == |b| && forall k :: 0 <= k < |a| ==> b[k] == a[k].(parent := b[k].parent)
  }

  /** Changing parent links inside the added stretch keeps an extension an
      extension. */
  lemma {:induction false} ReparentExtends(env: Env, s: Scope, n0: seq<StatementNode>, n1: seq<StatementNode>, n2: seq<StatementNode>,
                                           p0: map<string, ProcedureInfo>, p1: map<string, ProcedureInfo>)
    requires Extends(env, s, n0, n1, p0, p1)
    requires Reparented(n1, n2) && n2[..|n0|] == n0
    ensures Extends(env, s, n0, n2, p0, p1)
  {
    ReparentFacts(env, s, n1, n2, |n0|, p1);
    ReparentPending(n1, n2, |n0|, p0, p1);
    ReparentRegistered(env, n1, n2, |n0|, p0, p1);
  }

  lemma {:induction false} ReparentFacts(env: Env, s: Scope, n1: seq<StatementNode>, n2: seq<StatementNode>, lo: nat,
                                         p1: map<string, ProcedureInfo>)
    requires NewFacts(env, s, n1, lo, p1) && Reparented(n1, n2)
    ensures NewFacts(env, s, n2, lo, p1)
  {
    forall k | lo <= k < |n2|
      ensures NodeFacts(env, s, p1, n2[k])
    {
      assert NodeFacts(env, s, p1, n1[k]);
    }
  }

  lemma {:induction false} ReparentPending(n1: seq<StatementNode>, n2: seq<StatementNode>, lo: nat,
                                           p0: map<string, ProcedureInfo>, p1: map<string, ProcedureInfo>)
    requires lo <= |n1| && PendingCounts(p0, p1, n1[lo..]) && Reparented(n1, n2)
    ensures PendingCounts(p0, p1, n2[lo..])
  {
    forall p | p in p1
      ensures Pending(n2[lo..], p) == Pending(n1[lo..], p)
    {
      PendingSameKeys(n1[lo..], n2[lo..], p);
    }
  }

  lemma {:induction false} ReparentRegistered(env: Env, n1: seq<StatementNode>, n2: seq<StatementNode>, lo: nat,
                                              p0: map<string, ProcedureInfo>, p1: map<string, ProcedureInfo>)
    requires NewKeysRegistered(env, n1, lo, p0, p1) && Reparented(n1, n2)
    ensures NewKeysRegistered(env, n2, lo, p0, p1)
  {
    forall p | p in p1 && p !in p0
      ensures FirstRegistrant(env, n2, lo, p1, p)
    {
      ReparentRegistrant(env, n1, n2, lo, p1, p);
    }
  }

  lemma {:induction false} ReparentRegistrant(env: Env, n1: seq<StatementNode>, n2: seq<StatementNode>, lo: nat,
                                              p1: map<string, ProcedureInfo>, p: string)
    requires p in p1 && FirstRegistrant(env, n1, lo, p1, p) && Reparented(n1, n2)
    ensures FirstRegistrant(env, n2, lo, p1, p)
  {
    var k :| lo <= k < |n1| && n1[k].procedureKey == Some(p) && n1[k].nodeType in ProcedureTypes
      && (forall j :: lo <= j < k ==> n1[j].procedureKey != Some(p))
      && p1[p].(pendingNodes := 0) == Registration(env, p, n1[k]);
    assert n2[k] == n1[k].(parent := n2[k].parent);
    forall j | lo <= j < k
      ensures n2[j].procedureKey != Some(p)
    {
      assert n2[j] == n1[j].(parent := n2[j].parent);
    }
  }

  /** The added node closes the post-order of its subtree. */
  lemma {:induction false} AddedMirror(visited: seq<StatementNode>, nodes: seq<StatementNode>, base: nat, node: ParseNode)
    requires base <= |visited| && |nodes| == |visited| + 1
    requires Reparented(visited, nodes[..|visited|])
    requires Mirrors(visited[base..], PostOrderAll(node.children))
    requires nodes[|visited|].startLine == node.startLine && nodes[|visited|].endLine == node.endLine
    requires nodes[|visited|].nodeType == node.nodeType
    ensures Mirrors(nodes[base..], PostOrder(node))
  {
    assert nodes[base..] == nodes[base..|visited|] + [nodes[|visited|]];
    forall k | base <= k < |visited|
      ensures nodes[k] == visited[k].(parent := nodes[k].parent)
    {
      assert nodes[k] == nodes[..|visited|][k];
    }
    MirrorsAppend(nodes[base..|visited|], [nodes[|visited|]], PostOrderAll(node.children), [node]);
  }

  /** The added node, whose children are the roots of the child subtrees,
      closes the shape of its subtree. */
  lemma {:induction false} AddedShape(visited: seq<StatementNode>, nodes: seq<StatementNode>, base: nat, node: ParseNode)
    requires base <= |visited| && |nodes| == |visited| + 1
    requires Reparented(visited, nodes[..|visited|])
    requires LinkedAs(visited[base..], ShapeAll(node.children, base))
    requires nodes[|visited|].children == RootIds(base, node.children)
    ensures LinkedAs(nodes[base..], ShapeOf(node, base))
  {
    assert nodes[base..] == nodes[base..|visited|] + [nodes[|visited|]];
    forall k | base <= k < |visited|
      ensures nodes[k].children == visited[k].children
    {
      assert nodes[k] == nodes[..|visited|][k];
    }
    LinkedAsAppend(nodes[base..|visited|], [nodes[|visited|]], ShapeAll(node.children, base), [RootIds(base, node.children)]);
  }

  /** One more subtree of the children, as the post-order, the shape and
      the root ids see it. */
  lemma {:induction false} ChildrenSnoc(children: seq<ParseNode>, i: nat, base: nat)
    requires i < |children|
    ensures PostOrderAll(children[..i + 1]) == PostOrderAll(children[..i]) + PostOrder(children[i])
    ensures ShapeAll(children[..i + 1], base)
         == ShapeAll(children[..i], base) + ShapeOf(children[i], base + |PostOrderAll(children[..i])|)
    ensures RootIds(base, children[..i + 1]) == RootIds(base, children[..i]) + [base + |PostOrderAll(children[..i + 1])|]
  {
    var ts := children[..i + 1];
    assert ts[..|ts| - 1] == children[..i];
    assert ts[|ts| - 1] == children[i];
  }

  /** After one more child subtree: the shape and the root ids grow by it. */
  lemma {:induction false} ChildShaped(before: seq<StatementNode>, after: seq<StatementNode>, base: nat, children: seq<ParseNode>,
                                       i: nat, roots: seq<nat>, root: nat)
    requires i < |children|
    requires base <= |before| < |after| && after[..|before|] == before
    requires Mirrors(before[base..], PostOrderAll(children[..i]))
    requires Mirrors(after[base..], PostOrderAll(children[..i + 1]))
    requires LinkedAs(before[base..], ShapeAll(children[..i], base))
    requires LinkedAs(after[|before|..], ShapeOf(children[i], |before|))
    requires roots == RootIds(base, children[..i]) && root == |after|
    ensures LinkedAs(after[base..], ShapeAll(children[..i + 1], base))
    ensures roots + [root] == RootIds(base, children[..i + 1])
  {
    ChildrenSnoc(children, i, base);
    assert after[base..] == before[base..] + after[|before|..];
    LinkedAsAppend(before[base..], after[|before|..], ShapeAll(children[..i], base), ShapeOf(children[i], |before|));
  }

  /** The nodes before a visit are untouched by linking its children,
      which all lie in the visited stretch. */
  lemma {:induction false} PrefixUntouched(n0: seq<StatementNode>, visited: seq<StatementNode>, n2: seq<StatementNode>, childIds: seq<nat>)
    requires |n0| <= |visited| && visited[..|n0|] == n0
    requires Roots(visited, |n0|, childIds)
    requires |n2| == |visited| + 1 && Reparented(visited, n2[..|visited|])
    requires forall k :: 0 <= k < |visited| ==> n2[k].parent == if k + 1 in childIds then Some(|n2|) else visited[k].parent
    ensures n2[..|visited|][..|n0|] == n0
  {
    forall k | 0 <= k < |n0|
      ensures n2[..|visited|][k] == n0[k]
    {
      assert visited[k] == visited[..|n0|][k];
      assert k + 1 !in childIds;
      assert n2[..|visited|][k] == visited[k].(parent := n2[k].parent);
    }
  }

  /** The visit of a subtree extends the arena by the children's visits and
      the node added after them. */
  lemma {:induction false} SubtreeExtends(env: Env, s: Scope, n0: seq<StatementNode>, visited: seq<StatementNode>, n2: seq<StatementNode>,
                                          p0: map<string, ProcedureInfo>, pv: map<string, ProcedureInfo>, p2: map<string, ProcedureInfo>)
    requires Extends(env, s, n0, visited, p0, pv)
    requires |visited| <= |n2| && Reparented(visited, n2[..|visited|]) && n2[..|visited|][..|n0|] == n0
    requires Extends(env, s, n2[..|visited|], n2, pv, p2)
    ensures Extends(env, s, n0, n2, p0, p2)
  {
    ReparentExtends(env, s, n0, visited, n2[..|visited|], p0, pv);
    ExtendsTrans(env, s, n0, n2[..|visited|], n2, p0, pv, p2);
  }

  /** A visit's children followed by its own node: the nodes and
      procedures extend the ones before the visit, the new nodes mirror the
      subtree in post-order and are linked as its shape, and every new node
      but the last has a parent. */
  lemma {:induction false} SubtreeAdded(env: Env, s: Scope, n0: seq<StatementNode>, visited: seq<StatementNode>, n2: seq<StatementNode>,
                                        p0: map<string, ProcedureInfo>, pv: map<string, ProcedureInfo>, p2: map<string, ProcedureInfo>,
                                        node: ParseNode, childIds: seq<nat>)
    requires Extends(env, s, n0, visited, p0, pv)
    requires Mirrors(visited[|n0|..], PostOrderAll(node.children))
    requires LinkedAs(visited[|n0|..], ShapeAll(node.children, |n0|))
    requires Roots(visited, |n0|, childIds) && childIds == RootIds(|n0|, node.children)
    requires |n2| == |visited| + 1 && Reparented(visited, n2[..|visited|])
    requires forall k :: 0 <= k < |visited| ==> n2[k].parent == if k + 1 in childIds then Some(|n2|) else visited[k].parent
    requires Extends(env, s, n2[..|visited|], n2, pv, p2)
    requires n2[|visited|].startLine == node.startLine && n2[|visited|].endLine == node.endLine
    requires n2[|visited|].nodeType == node.nodeType && n2[|visited|].children == childIds
    ensures Extends(env, s, n0, n2, p0, p2)
    ensures Mirrors(n2[|n0|..], PostOrder(node))
    ensures LinkedAs(n2[|n0|..], ShapeOf(node, |n0|))
    ensures forall k :: |n0| <= k < |n2| - 1 ==> n2[k].parent.Some?
  {
    PrefixUntouched(n0, visited, n2, childIds);
    SubtreeExtends(env, s, n0, visited, n2, p0, pv, p2);
    AddedMirror(visited, n2, |n0|, node);
    AddedShape(visited, n2, |n0|, node);
    SubtreeLinked(|n0|, visited, n2, childIds);
  }

  /** After linking, every node of the subtree but its root has a parent. */
  lemma {:induction false} SubtreeLinked(lo: nat, visited: seq<StatementNode>, n2: seq<StatementNode>, childIds: seq<nat>)
    requires lo <= |visited| && Roots(visited, lo, childIds)
    requires |n2| == |visited| + 1
    requires forall k :: 0 <= k < |visited| ==> n2[k].parent == if k + 1 in childIds then Some(|n2|) else visited[k].parent
    ensures forall k :: lo <= k < |n2| - 1 ==> n2[k].parent.Some?
  {
  }

  /** Adding node `created` after linking its children keeps the arena's
      ids in order and its links consistent. */
  lemma {:induction false} AddedLinks(n1: seq<StatementNode>, n2: seq<StatementNode>, created: StatementNode, childIds: seq<nat>, lo: nat,
                                      n3: seq<StatementNode>)
    requires IdsInOrder(n1) && ChildrenLinked(n1) && ParentsLinked(n1) && Roots(n1, lo, childIds)
    requires |n2| == |n1|
    requires forall k :: 0 <= k < |n2| ==>
      n2[k] == if k + 1 in childIds then n1[k].(parent := Some(|n1| + 1)) else n1[k]
    requires created.nodeId == |n1| + 1 && created.parent.None? && created.children == childIds
    requires n3 == n2 + [created]
    ensures IdsInOrder(n3) && ChildrenLinked(n3) && ParentsLinked(n3)
  {
    forall k, j | 0 <= k < |n3| && 0 <= j < |n3[k].children|
      ensures 1 <= n3[k].children[j] <= k && n3[n3[k].children[j] - 1].parent == Some(k + 1)
    {
      if k < |n1| {
        var c := n1[k].children[j];
        assert n3[k].children == n1[k].children;
        assert c !in childIds;
      }
    }
    forall k | 0 <= k < |n3| && n3[k].parent.Some?
      ensures k + 1 < n3[k].parent.value <= |n3| && k + 1 in n3[n3[k].parent.value - 1].children
    {
      if k + 1 !in childIds {
        var v := n1[k].parent.value;
        assert n3[v - 1].children == n1[v - 1].children;
      }
    }
  }

  /** The table after a procedure node registers its key, if not yet
      registered. */
  ghost function AfterRegistration(env: Env, procs: map<string, ProcedureInfo>, n: StatementNode): map<string, ProcedureInfo>
  {
    if n.nodeType in ProcedureTypes && n.procedureKey.Some? && n.procedureKey.value !in procs
    then procs[n.procedureKey.value := Registration(env, n.procedureKey.value, n)]
    else procs
  }

  /** The table after an analyzable node with a registered, non-empty key
      takes a pending slot of its procedure. */
  ghost function AfterCount(procs: map<string, ProcedureInfo>, n: StatementNode): map<string, ProcedureInfo>
  {
    if n.analyzable && n.procedureKey.Some? && n.procedureKey.value != "" && n.procedureKey.value in procs
    then procs[n.procedureKey.value := procs[n.procedureKey.value].(pendingNodes := procs[n.procedureKey.value].pendingNodes + 1)]
    else procs
  }

  /** One node built by _visit extends the arena and the table. */
  lemma {:induction false} NodeAdded(env: Env, s: Scope, linked: seq<StatementNode>, created: StatementNode, all: seq<StatementNode>,
                                     p0: map<string, ProcedureInfo>, p2: map<string, ProcedureInfo>)
    requires s.key.Some? ==> s.key.value in p0
    requires LocalFacts(env, s, created)
    requires created.procedureName ==
      if created.procedureKey.Some? && created.procedureKey.value in AfterRegistration(env, p0, created)
      then Some(AfterRegistration(env, p0, created)[created.procedureKey.value].procedureName) else None
    requires created.completed == !(created.analyzable && created.procedureKey.Some? && created.procedureKey.value != ""
                                    && created.procedureKey.value in AfterRegistration(env, p0, created))
    requires all == linked + [created] && p2 == AfterCount(AfterRegistration(env, p0, created), created)
    ensures Extends(env, s, linked, all, p0, p2)
  {
    var p1 := AfterRegistration(env, p0, created);
    if created.nodeType in ProcedureTypes {
      ProcedureTypesAreNotAnalyzed(created.nodeType);
    }
    assert all[..|linked|] == linked;
    assert all[|linked|..] == [created];
    assert NodeFacts(env, s, p2, created);
    forall p | p in p2
      ensures p2[p].pendingNodes == Prior(p0, p) + Pending(all[|linked|..], p)
    {
      assert [created][..0] == [];
    }
    forall p | p in p2 && p !in p0
      ensures FirstRegistrant(env, all, |linked|, p2, p)
    {
      assert all[|linked|] == created;
    }
  }

  /** The facts AddNode promises, from what its steps computed. */
  lemma {:induction false} NodeDone(env: Env, s: Scope, n0: seq<StatementNode>, linked: seq<StatementNode>, n3: seq<StatementNode>,
                                    p0: map<string, ProcedureInfo>, registered: map<string, ProcedureInfo>, p3: map<string, ProcedureInfo>,
                                    created: StatementNode, done: StatementNode, node: ParseNode, childIds: seq<nat>, lo: nat, id: nat)
    requires IdsInOrder(n0) && ChildrenLinked(n0) && ParentsLinked(n0) && Roots(n0, lo, childIds)
    requires s.key.Some? ==> s.key.value in p0
    requires created.nodeId == id == |n0| + 1 && created.parent.None? && created.children == childIds
    requires created.startLine == node.startLine && created.endLine == node.endLine && created.nodeType == node.nodeType
    requires LocalFacts(env, s, created)
    requires registered == AfterRegistration(env, p0, created)
    requires created.procedureName == if created.procedureKey.Some? && created.procedureKey.value in registered
      then Some(registered[created.procedureKey.value].procedureName) else None
    requires !created.completed
    requires |linked| == |n0|
    requires forall k :: 0 <= k < |linked| ==>
      linked[k] == if k + 1 in childIds then n0[k].(parent := Some(id)) else n0[k]
    requires p3 == AfterCount(registered, done)
    requires done == created.(completed := !(created.analyzable && created.procedureKey.Some?
        && created.procedureKey.value != "" && created.procedureKey.value in registered) || created.completed)
    requires n3 == linked + [done]
    ensures IdsInOrder(n3) && ChildrenLinked(n3) && ParentsLinked(n3)
    ensures id == |n3| == |n0| + 1
    ensures Reparented(n0, n3[..|n0|])
    ensures forall k :: 0 <= k < |n0| ==>
      n3[k].parent == if k + 1 in childIds then Some(id) else n0[k].parent
    ensures Extends(env, s, n3[..|n0|], n3, p0, p3)
    ensures n3[id - 1].startLine == node.startLine && n3[id - 1].endLine == node.endLine
    ensures n3[id - 1].nodeType == node.nodeType
    ensures n3[id - 1].parent.None? && n3[id - 1].children == childIds
  {
    AddedLinks(n0, linked, done, childIds, lo, n3);
    assert n3[..|n0|] == linked;
    assert AfterRegistration(env, p0, done) == registered;
    NodeAdded(env, s, linked, done, n3, p0, p3);
  }

  /** One more child subtree visited by the loop of _visit. */
  lemma {:induction false} ChildVisited(env: Env, s: Scope, n0: seq<StatementNode>, before: seq<StatementNode>, after: seq<StatementNode>,
                                        p0: map<string, ProcedureInfo>, pb: map<string, ProcedureInfo>, pa: map<string, ProcedureInfo>,
                                        children: seq<ParseNode>, i: nat, roots: seq<nat>, root: nat)
    requires i < |children|
    requires Extends(env, s, n0, before, p0, pb) && Extends(env, s, before, after, pb, pa)
    requires Mirrors(before[|n0|..], PostOrderAll(children[..i]))
    requires Mirrors(after[|before|..], PostOrder(children[i]))
    requires Roots(before, |n0|, roots)
    requires root == |after| && after[root - 1].parent.None?
    requires forall k :: |before| <= k < |after| - 1 ==> after[k].parent.Some?
    ensures Extends(env, s, n0, after, p0, pa)
    ensures Mirrors(after[|n0|..], PostOrderAll(children[..i + 1]))
    ensures Roots(after, |n0|, roots + [root])
  {
    ExtendsTrans(env, s, n0, before, after, p0, pb, pa);
    VisitedChild(before, after, |n0|, children, i);
    RootsStep(before, after, |n0|, roots, root);
  }

  /** Nodes that are all complete hold no pending slot. */
  lemma {:induction false} PendingOfCompleted(ns: seq<StatementNode>, p: string)
    requires forall k :: 0 <= k < |ns| ==> ns[k].completed
    ensures Pending(ns, p) == 0
    decreases |ns|
  {
    if ns != [] {
      PendingOfCompleted(ns[..|ns| - 1], p);
    }
  }

  /** A node built with nothing inherited. */
  lemma {:induction false} TopLevelNode(env: Env, procs: map<string, ProcedureInfo>, n: StatementNode)
    requires NodeFacts(env, Scope(None, None, None), procs, n)
    ensures n.completed
    ensures n.nodeType !in ProcedureTypes ==> n.procedureKey.None?
  {
    if n.nodeType in ProcedureTypes {
      ProcedureTypesAreNotAnalyzed(n.nodeType);
    }
  }

  /** Visiting from the top, where nothing is inherited: since children
      are visited before a procedure node computes its own key, only
      procedure nodes carry a key, and those are never analyzable; so every
      node is complete at once and no pending counter moves. */
  lemma {:induction false} TopLevelVisit(env: Env, n0: seq<StatementNode>, n1: seq<StatementNode>,
                                         p0: map<string, ProcedureInfo>, p1: map<string, ProcedureInfo>)
    requires |n0| <= |n1| && NewFacts(env, Scope(None, None, None), n1, |n0|, p1) && PendingCounts(p0, p1, n1[|n0|..])
    ensures forall k :: |n0| <= k < |n1| ==> n1[k].completed
    ensures forall k :: |n0| <= k < |n1| && n1[k].nodeType !in ProcedureTypes ==> n1[k].procedureKey.None?
    ensures forall p :: p in p1 ==> p1[p].pendingNodes == Prior(p0, p)
  {
    forall k | |n0| <= k < |n1|
      ensures n1[k].completed
      ensures n1[k].nodeType !in ProcedureTypes ==> n1[k].procedureKey.None?
    {
      TopLevelNode(env, p1, n1[k]);
    }
    forall p | p in p1
      ensures Pending(n1[|n0|..], p) == 0
    {
      PendingOfCompleted(n1[|n0|..], p);
    }
  }
}
