/** RepositoryGenerator of convert/create_repository.py: DML nodes are
    packed into batches of at most 2000 tokens (a node's own tokens plus
    those of the variables it uses), each batch is converted into JPA
    repository methods, the methods are grouped by entity and by the line
    ranges they cover, and one repository interface is rendered per
    entity. */
module Repository {

  import opened Wrappers
  import opened Text
  import opened UtilityTool
  import opened Packing
  import Buckets

  /** The batch token limit. */
  const MaxTokens := 2000

  /** One DML node as read from the graph; `token` and `startLine` may be
      missing. */
  datatype DmlNode = DmlNode(token: Option<int>, startLine: Option<int>, summarizedCode: Option<string>, nodeCode: Option<string>)

  /** What extract_used_variable_nodes answers for a node: the variable
      nodes it uses, grouped by key, and their token count. */
  datatype VarLookup = VarLookup(nodes: map<string, seq<string>>, tokens: int)

  /** One node's contribution to a batch: its code and its variables. */
  datatype DmlItem = DmlItem(code: string, vars: map<string, seq<string>>)

  /** A batch as handed to _flush_batch: the codes in order and the variable
      lists merged per key. */
  datatype RepoBatch = RepoBatch(codes: seq<string>, vars: map<string, seq<string>>)

  /** The node's code: the summarized code unless it is missing or empty,
      else the node code, else the empty string. */
  function CodeOf(n: DmlNode): string {
    Buckets.Or(n.summarizedCode, if n.nodeCode.Some? then n.nodeCode.value else [])
  }

  predicate Usable(n: DmlNode) {
    n.token.Some? && n.startLine.Some?
  }

  /** The nodes the loop does not skip, each with its code, its variables and
      its cost `token + var_tokens`, in order. */
  function Items(nodes: seq<DmlNode>, lookups: seq<VarLookup>): (r: seq<Sized<DmlItem>>)
    requires |lookups| == |nodes|
    ensures |r| <= |nodes|
  {
    if nodes == [] then []
    else
      var n := nodes[0];
      (if Usable(n) then [Sized(DmlItem(CodeOf(n), lookups[0].nodes), n.token.value + lookups[0].tokens)] else [])
        + Items(nodes[1..], lookups[1..])
  }

  /** A key's list in a `defaultdict(list)`. */
  function Get(m: map<string, seq<string>>, k: string): seq<string> {
    if k in m then m[k] else []
  }

  /** Extending `acc[k]` by `add[k]` for every key of `add`. */
  function MergeVars(acc: map<string, seq<string>>, add: map<string, seq<string>>): (r: map<string, seq<string>>)
    ensures r.Keys == acc.Keys + add.Keys
    ensures forall k :: Get(r, k) == Get(acc, k) + Get(add, k)
  {
    map k | k in acc.Keys + add.Keys :: Get(acc, k) + Get(add, k)
  }

  /** The codes and merged variables of a batch of items. */
  function BatchOf(b: seq<Sized<DmlItem>>): (r: RepoBatch)
    ensures |r.codes| == |b|
  {
    if b == [] then RepoBatch([], map[])
    else
      var front := BatchOf(b[..|b| - 1]);
      RepoBatch(front.codes + [b[|b| - 1].item.code], MergeVars(front.vars, b[|b| - 1].item.vars))
  }

  function BatchesOf(bs: seq<seq<Sized<DmlItem>>>): (r: seq<RepoBatch>)
    ensures |r| == |bs|
    ensures forall i :: 0 <= i < |bs| ==> r[i] == BatchOf(bs[i])
  {
    seq(|bs|, i requires 0 <= i < |bs| => BatchOf(bs[i]))
  }

  /** The batches _process_dml_nodes hands to _flush_batch as written: after
      a flush the running total keeps the total from before it. */
  function AsWrittenBatches(nodes: seq<DmlNode>, lookups: seq<VarLookup>): seq<seq<Sized<DmlItem>>>
    requires |lookups| == |nodes|
  {
    Pack(Items(nodes, lookups), MaxTokens, [], 0, true)
  }

  /** The batches with the running total reset at each flush. */
  function IntendedBatches(nodes: seq<DmlNode>, lookups: seq<VarLookup>): seq<seq<Sized<DmlItem>>>
    requires |lookups| == |nodes|
  {
    Batches(Items(nodes, lookups), MaxTokens)
  }

  /** Every usable node lands in exactly one batch, in order, and the
      batches are non-empty in both readings. With the total carried over,
      and no negative token count, every batch after the first holds a
      single node. */
  lemma {:induction false} AsWrittenBatchesAreSingletons(nodes: seq<DmlNode>, lookups: seq<VarLookup>)
    requires |lookups| == |nodes|
    requires forall i :: 0 <= i < |nodes| ==> (nodes[i].token.Some? ==> nodes[i].token.value >= 0) && lookups[i].tokens >= 0
    ensures var bs := AsWrittenBatches(nodes, lookups);
            && Flatten(bs) == Items(nodes, lookups)
            && (forall i :: 1 <= i < |bs| ==> |bs[i]| == 1)
  {
    ItemsCostsNonNegative(nodes, lookups);
    PackFlatten(Items(nodes, lookups), MaxTokens, [], 0, true);
    CarriedBatches(Items(nodes, lookups), MaxTokens);
  }

  lemma {:induction false} ItemsCostsNonNegative(nodes: seq<DmlNode>, lookups: seq<VarLookup>)
    requires |lookups| == |nodes|
    requires forall i :: 0 <= i < |nodes| ==> (nodes[i].token.Some? ==> nodes[i].token.value >= 0) && lookups[i].tokens >= 0
    ensures forall i :: 0 <= i < |Items(nodes, lookups)| ==> Items(nodes, lookups)[i].cost >= 0
  {
    if nodes != [] {
      assert forall i :: 0 <= i < |nodes| - 1 ==> nodes[1..][i] == nodes[i + 1] && lookups[1..][i] == lookups[i + 1];
      ItemsCostsNonNegative(nodes[1..], lookups[1..]);
    }
  }

  /** With the total reset at each flush, every usable node lands in exactly
      one batch, in order; a batch of two or more nodes stays under 2000
      tokens; and a batch is flushed only when the next node would take it
      to 2000. */
  lemma {:induction false} IntendedBatchesWellPacked(nodes: seq<DmlNode>, lookups: seq<VarLookup>)
    requires |lookups| == |nodes|
    ensures var bs := IntendedBatches(nodes, lookups);
            && Flatten(bs) == Items(nodes, lookups)
            && WellPacked(bs, MaxTokens)
  {
    BatchesSpec(Items(nodes, lookups), MaxTokens);
  }

  /** Four usable nodes costing 1500, 600, 10 and 10 tokens: as written
      they go out one per batch, and the batch holding the 600-token node is
      flushed although adding the next node would have left it at 610
      tokens; with the total reset, the last three share a batch. */
  lemma {:induction false} CarriedTotalSplitsSmallNodes()
    ensures var nodes := [DmlNode(Some(1500), Some(1), None, Some("a")), DmlNode(Some(600), Some(2), None, Some("b")),
                          DmlNode(Some(10), Some(3), None, Some("c")), DmlNode(Some(10), Some(4), None, Some("d"))];
            var lookups := [VarLookup(map[], 0), VarLookup(map[], 0), VarLookup(map[], 0), VarLookup(map[], 0)];
            var asWritten := AsWrittenBatches(nodes, lookups);
            var intended := IntendedBatches(nodes, lookups);
            && |asWritten| == 4
            && Cost(asWritten[1]) + asWritten[2][0].cost == 610
            && !WellPacked(asWritten, MaxTokens)
            && |intended| == 2 && |intended[1]| == 3
  {
    var nodes := [DmlNode(Some(1500), Some(1), None, Some("a")), DmlNode(Some(600), Some(2), None, Some("b")),
                  DmlNode(Some(10), Some(3), None, Some("c")), DmlNode(Some(10), Some(4), None, Some("d"))];
    var lookups := [VarLookup(map[], 0), VarLookup(map[], 0), VarLookup(map[], 0), VarLookup(map[], 0)];
    var a := Sized(DmlItem("a", map[]), 1500);
    var b := Sized(DmlItem("b", map[]), 600);
    var c := Sized(DmlItem("c", map[]), 10);
    var d := Sized(DmlItem("d", map[]), 10);
    assert Items(nodes[3..], lookups[3..]) == [d] + Items([], []);
    assert Items(nodes[2..], lookups[2..]) == [c] + Items(nodes[3..], lookups[3..]);
    assert Items(nodes[1..], lookups[1..]) == [b] + Items(nodes[2..], lookups[2..]);
    assert Items(nodes, lookups) == [a] + Items(nodes[1..], lookups[1..]);
    var xs := [a, b, c, d];
    assert Items(nodes, lookups) == xs;
    assert [a, b, c, d][1..] == [b, c, d] && [b, c, d][1..] == [c, d] && [c, d][1..] == [d] && [d][1..] == [];
    assert Pack([d], MaxTokens, [c], 2110, true) == [[c]] + Pack([], MaxTokens, [d], 2120, true);
    assert Pack([c, d], MaxTokens, [b], 2100, true) == [[b]] + Pack([d], MaxTokens, [c], 2110, true);
    assert Pack([b, c, d], MaxTokens, [a], 1500, true) == [[a]] + Pack([c, d], MaxTokens, [b], 2100, true);
    assert Pack(xs, MaxTokens, [], 0, true) == Pack([b, c, d], MaxTokens, [] + [a], 1500, true);
    assert [] + [a] == [a];
    var asWritten := [[a], [b], [c], [d]];
    assert AsWrittenBatches(nodes, lookups) == asWritten;
    assert Cost([b]) == 600 by { assert [b][..0] == []; }
    assert Pack([d], MaxTokens, [b, c], 610, false) == Pack([], MaxTokens, [b, c] + [d], 620, false);
    assert Pack([c, d], MaxTokens, [b], 600, false) == Pack([d], MaxTokens, [b] + [c], 610, false);
    assert Pack([b, c, d], MaxTokens, [a], 1500, false) == [[a]] + Pack([c, d], MaxTokens, [b], 600, false);
    assert Pack(xs, MaxTokens, [], 0, false) == Pack([b, c, d], MaxTokens, [] + [a], 1500, false);
    assert [b] + [c] == [b, c] && [b, c] + [d] == [b, c, d];
    assert IntendedBatches(nodes, lookups) == [[a], [b, c, d]];
  }

  // ===== _flush_batch and _save_repository_files =====

  /** One converted method: its code, the (possibly dotted) table it
      belongs to and the line ranges it covers. */
  datatype RepoMethod = RepoMethod(code: string, tableName: string, ranges: seq<RangeKey>)

  /** One rendered repository interface. */
  datatype RepositoryFile = RepositoryFile(repositoryName: string, code: string)

  /** The entity a method belongs to: the Pascal-cased last dotted segment
      of its table name. */
  function EntityName(tableName: string): string {
    var parts := Split(tableName, '.');
    PascalCase(parts[|parts| - 1])
  }

  /** The keys of a method's line ranges. */
  function RangeKeys(ranges: seq<RangeKey>): set<RangeKey> {
    if ranges == [] then {} else RangeKeys(ranges[..|ranges| - 1]) + {ranges[|ranges| - 1]}
  }

  /** Some range of the list has key `k`. */
  predicate Covers(ranges: seq<RangeKey>, k: RangeKey) {
    k in RangeKeys(ranges)
  }

  /** `all_used_query_methods` after a method's ranges are recorded, one
      after the other. */
  function RecordRanges(used: map<RangeKey, string>, ranges: seq<RangeKey>, code: string): map<RangeKey, string>
  {
    if ranges == [] then used
    else RecordRanges(used, ranges[..|ranges| - 1], code)[ranges[|ranges| - 1] := code]
  }

  lemma {:induction false} RecordRangesSnoc(used: map<RangeKey, string>, ranges: seq<RangeKey>, j: nat, code: string)
    requires j < |ranges|
    ensures RecordRanges(used, ranges[..j + 1], code) == RecordRanges(used, ranges[..j], code)[ranges[j] := code]
  {
    assert ranges[..j + 1][..j] == ranges[..j];
  }

  /** Every key one of the ranges has maps to the method's code, and every
      other key keeps its entry. */
  lemma {:induction false} RecordRangesEffect(used: map<RangeKey, string>, ranges: seq<RangeKey>, code: string)
    ensures var r := RecordRanges(used, ranges, code);
            && (forall k :: k in r <==> k in used || Covers(ranges, k))
            && (forall k :: k in r && Covers(ranges, k) ==> r[k] == code)
            && (forall k :: k in r && !Covers(ranges, k) ==> r[k] == used[k])
  {
    if ranges != [] {
      RecordRangesEffect(used, ranges[..|ranges| - 1], code);
    }
  }

  /** One batch's conversion as the model returns it: the methods and the
      sequence methods (an absent `seq_method` is the empty list). */
  datatype Conversion = Conversion(methods: seq<RepoMethod>, seqMethods: seq<string>)

  /** What the generator accumulates: `aggregated_query_methods` (a map and
      its keys in insertion order), `all_used_query_methods` and
      `all_sequence_methods`. */
  datatype Aggregate = Aggregate(queryMethods: map<string, seq<string>>, entityOrder: seq<string>,
                                 usedQueryMethods: map<RangeKey, string>, sequenceMethods: set<string>)

  const EmptyAggregate := Aggregate(map[], [], map[], {})

  /** The insertion order lists each key of the map exactly once. */
  ghost predicate Ordered(a: Aggregate) {
    && (forall e :: e in a.queryMethods <==> e in a.entityOrder)
    && (forall i, j :: 0 <= i < j < |a.entityOrder| ==> a.entityOrder[i] != a.entityOrder[j])
  }

  /** The body of _flush_batch's loop for one method. */
  function AddMethod(a: Aggregate, m: RepoMethod): Aggregate {
    var e := EntityName(m.tableName);
    Aggregate(a.queryMethods[e := Get(a.queryMethods, e) + [m.code]],
              if e in a.queryMethods then a.entityOrder else a.entityOrder + [e],
              RecordRanges(a.usedQueryMethods, m.ranges, m.code),
              a.sequenceMethods)
  }

  function AddMethods(a: Aggregate, ms: seq<RepoMethod>): Aggregate {
    if ms == [] then a else AddMethod(AddMethods(a, ms[..|ms| - 1]), ms[|ms| - 1])
  }

  /** _flush_batch after the conversion: the methods, then the sequence
      methods. */
  function Absorb(a: Aggregate, c: Conversion): Aggregate {
    var b := AddMethods(a, c.methods);
    b.(sequenceMethods := b.sequenceMethods + set s | s in c.seqMethods)
  }

  /** The state after the batches `bs` are flushed in order, each converted
      by `convert`. */
  function Replay(a: Aggregate, convert: RepoBatch -> Conversion, bs: seq<RepoBatch>): Aggregate {
    if bs == [] then a else Absorb(Replay(a, convert, bs[..|bs| - 1]), convert(bs[|bs| - 1]))
  }

  /** The codes of the methods whose table maps to entity `e`, in order. */
  function MethodsFor(ms: seq<RepoMethod>, e: string): (r: seq<string>)
    ensures |r| <= |ms|
  {
    if ms == [] then []
    else MethodsFor(ms[..|ms| - 1], e) + (if EntityName(ms[|ms| - 1].tableName) == e then [ms[|ms| - 1].code] else [])
  }

  /** The code of the last method covering key `k`, if any. */
  function LastWith(ms: seq<RepoMethod>, k: RangeKey): Option<string> {
    if ms == [] then None
    else if Covers(ms[|ms| - 1].ranges, k) then Some(ms[|ms| - 1].code)
    else LastWith(ms[..|ms| - 1], k)
  }

  lemma {:induction false} AddMethodOrdered(a: Aggregate, m: RepoMethod)
    requires Ordered(a)
    ensures Ordered(AddMethod(a, m)) && a.entityOrder <= AddMethod(a, m).entityOrder
  {
    var e := EntityName(m.tableName);
    if e !in a.queryMethods {
      var o := a.entityOrder + [e];
      forall i, j | 0 <= i < j < |o| ensures o[i] != o[j] {
        if j == |o| - 1 { assert o[i] in a.entityOrder; }
      }
    }
  }

  lemma {:induction false} AddMethodGet(b: Aggregate, m: RepoMethod, e: string)
    ensures var r := AddMethod(b, m);
            && Get(r.queryMethods, e) == Get(b.queryMethods, e) + (if EntityName(m.tableName) == e then [m.code] else [])
            && (e in r.queryMethods <==> e in b.queryMethods || EntityName(m.tableName) == e)
  {
  }

  /** _flush_batch groups methods by entity: each entity's list grows by the
      codes of exactly the methods whose table maps to it, in order; an
      entity is new exactly when no earlier method mapped to it, and new
      entities are appended to the insertion order, which keeps listing each
      key once. */
  lemma {:induction false} AddMethodsGroups(a: Aggregate, ms: seq<RepoMethod>)
    requires Ordered(a)
    ensures var r := AddMethods(a, ms);
            && Ordered(r)
            && a.entityOrder <= r.entityOrder
            && (forall e :: Get(r.queryMethods, e) == Get(a.queryMethods, e) + MethodsFor(ms, e))
            && (forall e :: e in r.queryMethods <==> e in a.queryMethods || MethodsFor(ms, e) != [])
            && r.sequenceMethods == a.sequenceMethods
  {
    if ms != [] {
      var n := |ms| - 1;
      AddMethodsGroups(a, ms[..n]);
      var b := AddMethods(a, ms[..n]);
      AddMethodOrdered(b, ms[n]);
      var r := AddMethods(a, ms);
      forall e ensures Get(r.queryMethods, e) == Get(a.queryMethods, e) + MethodsFor(ms, e)
                  && (e in r.queryMethods <==> e in a.queryMethods || MethodsFor(ms, e) != []) {
        var t := if EntityName(ms[n].tableName) == e then [ms[n].code] else [];
        AddMethodGet(b, ms[n], e);
        assert MethodsFor(ms, e) == MethodsFor(ms[..n], e) + t;
        AppendAssoc(Get(a.queryMethods, e), MethodsFor(ms[..n], e), t);
      }
    }
  }

  /** A line range's key maps to the code of the last method covering it;
      a key no method covers keeps its entry. */
  lemma {:induction false} UsedByLastMethod(a: Aggregate, ms: seq<RepoMethod>)
    ensures var r := AddMethods(a, ms);
            forall k :: && (LastWith(ms, k).Some? ==> k in r.usedQueryMethods && r.usedQueryMethods[k] == LastWith(ms, k).value)
                        && (LastWith(ms, k).None? ==> (k in r.usedQueryMethods <==> k in a.usedQueryMethods))
                        && (LastWith(ms, k).None? && k in a.usedQueryMethods ==> r.usedQueryMethods[k] == a.usedQueryMethods[k])
  {
    if ms != [] {
      var n := |ms| - 1;
      UsedByLastMethod(a, ms[..n]);
      RecordRangesEffect(AddMethods(a, ms[..n]).usedQueryMethods, ms[n].ranges, ms[n].code);
    }
  }

  /** _flush_batch: the methods are grouped and the sequence methods are
      added to the set. */
  lemma {:induction false} AbsorbEffect(a: Aggregate, c: Conversion)
    requires Ordered(a)
    ensures var r := Absorb(a, c);
            && Ordered(r)
            && (forall e :: Get(r.queryMethods, e) == Get(a.queryMethods, e) + MethodsFor(c.methods, e))
            && (forall s :: s in r.sequenceMethods <==> s in a.sequenceMethods || s in c.seqMethods)
  {
    AddMethodsGroups(a, c.methods);
  }

  // ----- rendering -----

  // The literal text of JPA_TEMPLATE around its placeholders.
  const PackagePrefix := "package com.example."
  const JpaImports := ".repository;\n"
    + "import java.util.List;\n"
    + "import org.springframework.data.jpa.repository.JpaRepository;\n"
    + "import org.springframework.data.jpa.repository.Query;\n"
    + "import org.springframework.data.repository.query.Param;\n"
    + "import org.springframework.data.rest.core.annotation.RepositoryRestResource;\n"
    + "import com.example."
  const EntityPackage := ".entity."
  const ResourceAnnotation := ";\nimport java.time.*;\n\n@RepositoryRestResource(collectionResourceRel = \""
  const ResourcePath := "s\", path = \""
  const InterfaceHead := "s\")\npublic interface "
  const ExtendsJpa := "Repository extends JpaRepository<"
  const InterfaceOpen := ", Long> {\n"
  const InterfaceClose := "\n}"

  /** JPA_TEMPLATE filled in. */
  function JpaTemplate(project: string, pascal: string, camel: string, merged: string): string {
    PackagePrefix + project + JpaImports + project + EntityPackage + pascal + ResourceAnnotation
    + camel + ResourcePath + camel + InterfaceHead + pascal + ExtendsJpa + pascal + InterfaceOpen
    + merged + InterfaceClose
  }

  /** One method as merged: stripped, blank-line pairs collapsed, and
      indented by four spaces. */
  function MergedMethod(m: string): string {
    Indent(ReplaceAll(Strip(m), "\n\n", "\n"), "    ")
  }

  /** The merged methods, separated by a blank line. */
  function MergeMethods(ms: seq<string>): string {
    Join(seq(|ms|, i requires 0 <= i < |ms| => MergedMethod(ms[i])), "\n\n")
  }

  function RepositoryFileOf(entity: string, methods: seq<string>, project: string): RepositoryFile {
    RepositoryFile(entity + "Repository", JpaTemplate(project, entity, CamelCase(entity), MergeMethods(methods)))
  }

  /** The files _save_repository_files returns for entities `order`: one
      per entity, in order. */
  function Files(order: seq<string>, methods: map<string, seq<string>>, project: string): (fs: seq<RepositoryFile>)
  {
    seq(|order|, i requires 0 <= i < |order| => RepositoryFileOf(order[i], Get(methods, order[i]), project))
  }

  lemma {:induction false} SuffixCancel(x: string, y: string, s: string)
    requires x + s == y + s
    ensures x == y
  {
    assert |x| == |y|;
    assert (x + s)[..|x|] == x;
    assert (y + s)[..|y|] == y;
  }

  lemma {:induction false} FileName(entity: string, methods: seq<string>, project: string)
    ensures RepositoryFileOf(entity, methods, project).repositoryName == entity + "Repository"
  {
  }

  /** Each file is named after its entity: `{entity}Repository`. */
  lemma {:induction false} FilesNames(order: seq<string>, methods: map<string, seq<string>>, project: string)
    ensures var fs := Files(order, methods, project);
            |fs| == |order| && forall i :: 0 <= i < |fs| ==> fs[i].repositoryName == order[i] + "Repository"
  {
    var fs := Files(order, methods, project);
    forall i | 0 <= i < |fs| ensures fs[i].repositoryName == order[i] + "Repository" {
      FileName(order[i], Get(methods, order[i]), project);
    }
  }

  /** Nothing aggregated means no file. */
  lemma {:induction false} FilesEmpty(a: Aggregate, project: string)
    requires Ordered(a)
    ensures Files(a.entityOrder, a.queryMethods, project) == [] <==> a.queryMethods == map[]
  {
    if a.entityOrder != [] {
      assert a.entityOrder[0] in a.queryMethods;
    }
  }

  /** The names `{entity}Repository` of the aggregated entities tell
      the entities apart. */
  lemma {:induction false} OrderNames(a: Aggregate)
    requires Ordered(a)
    ensures var o := a.entityOrder;
            && (forall e :: e in a.queryMethods <==> exists i :: 0 <= i < |o| && o[i] + "Repository" == e + "Repository")
            && (forall i, j :: 0 <= i < j < |o| ==> o[i] + "Repository" != o[j] + "Repository")
  {
    var o := a.entityOrder;
    forall e ensures e in a.queryMethods <==> exists i :: 0 <= i < |o| && o[i] + "Repository" == e + "Repository" {
      if e in a.queryMethods {
        var i :| 0 <= i < |o| && o[i] == e;
        assert o[i] + "Repository" == e + "Repository";
      }
      if exists i :: 0 <= i < |o| && o[i] + "Repository" == e + "Repository" {
        var i :| 0 <= i < |o| && o[i] + "Repository" == e + "Repository";
        SuffixCancel(o[i], e, "Repository");
      }
    }
    forall i, j | 0 <= i < j < |o| ensures o[i] + "Repository" != o[j] + "Repository" {
      if o[i] + "Repository" == o[j] + "Repository" {
        SuffixCancel(o[i], o[j], "Repository");
      }
    }
  }

  /** There is one file per entity, named after it, and no two files share
      a name. */
  lemma {:induction false} FilesNamed(a: Aggregate, project: string)
    requires Ordered(a)
    ensures var fs := Files(a.entityOrder, a.queryMethods, project);
            && (forall e :: e in a.queryMethods <==> exists i :: 0 <= i < |fs| && fs[i].repositoryName == e + "Repository")
            && (forall i, j :: 0 <= i < j < |fs| ==> fs[i].repositoryName != fs[j].repositoryName)
  {
    FilesNames(a.entityOrder, a.queryMethods, project);
    OrderNames(a);
  }

  /** A method whose stripped text is a single non-blank line is merged as
      that line behind four spaces. */
  lemma {:induction false} MergedOneLine(m: string)
    requires '\n' !in Strip(m) && !IsBlank(Strip(m))
    ensures MergedMethod(m) == "    " + Strip(m)
  {
    var t := Strip(m);
    ReplaceAllWithoutFirstChar(t, "\n\n", "\n");
    IndentOneLine(t, "    ");
  }

  /** One-line methods are merged as those lines behind four spaces,
      separated by blank lines. */
  lemma {:induction false} MergeOneLineMethods(ms: seq<string>)
    requires forall i :: 0 <= i < |ms| ==> '\n' !in Strip(ms[i]) && !IsBlank(Strip(ms[i]))
    ensures MergeMethods(ms) == Join(seq(|ms|, i requires 0 <= i < |ms| => "    " + Strip(ms[i])), "\n\n")
  {
    forall i | 0 <= i < |ms| ensures MergedMethod(ms[i]) == "    " + Strip(ms[i]) {
      MergedOneLine(ms[i]);
    }
    assert seq(|ms|, i requires 0 <= i < |ms| => MergedMethod(ms[i])) == seq(|ms|, i requires 0 <= i < |ms| => "    " + Strip(ms[i]));
  }

  // ===== the generator =====

  /** The node the loop reaches next either is skipped or contributes its
      item in front of the rest. */
  lemma {:induction false} ItemsStep(nodes: seq<DmlNode>, lookups: seq<VarLookup>, i: nat)
    requires |lookups| == |nodes| && i < |nodes|
    ensures Items(nodes[i..], lookups[i..])
            == (if Usable(nodes[i]) then [Sized(DmlItem(CodeOf(nodes[i]), lookups[i].nodes), nodes[i].token.value + lookups[i].tokens)] else [])
               + Items(nodes[i + 1..], lookups[i + 1..])
  {
    assert nodes[i..][1..] == nodes[i + 1..] && lookups[i..][1..] == lookups[i + 1..];
  }

  lemma {:induction false} BatchOfSnoc(batch: seq<Sized<DmlItem>>, x: Sized<DmlItem>)
    ensures BatchOf(batch + [x]) == RepoBatch(BatchOf(batch).codes + [x.item.code], MergeVars(BatchOf(batch).vars, x.item.vars))
  {
    assert (batch + [x])[..|batch|] == batch;
  }

  lemma {:induction false} BatchesOfSnoc(done: seq<seq<Sized<DmlItem>>>, b: seq<Sized<DmlItem>>)
    ensures BatchesOf(done + [b]) == BatchesOf(done) + [BatchOf(b)]
  {
  }

  lemma {:induction false} ReplaySnoc(a: Aggregate, convert: RepoBatch -> Conversion, bs: seq<RepoBatch>, b: RepoBatch)
    ensures Replay(a, convert, bs + [b]) == Absorb(Replay(a, convert, bs), convert(b))
  {
    assert (bs + [b])[..|bs|] == bs;
  }

  /** The pure state of _process_dml_nodes' loop: the batches closed so
      far (`done`, flushed as `flushed`) followed by the batches the rest of
      the items close are the whole answer, and the gathered codes and
      variables are those of the gathered batch. */
  ghost predicate Gathering(all: seq<seq<Sized<DmlItem>>>, done: seq<seq<Sized<DmlItem>>>, batch: seq<Sized<DmlItem>>,
                            current: int, rest: seq<Sized<DmlItem>>, codes: seq<string>, vars: map<string, seq<string>>,
                            flushed: seq<RepoBatch>)
  {
    && done + Pack(rest, MaxTokens, batch, current, true) == all
    && flushed == BatchesOf(done)
    && RepoBatch(codes, vars) == BatchOf(batch)
  }

  /** One usable node: either the gathered batch is flushed and the node
      starts the next one, with the total carried over, or the node joins
      the gathered batch. */
  lemma {:induction false} GatheringStep(all: seq<seq<Sized<DmlItem>>>, done: seq<seq<Sized<DmlItem>>>, batch: seq<Sized<DmlItem>>,
                                         current: int, x: Sized<DmlItem>, rest: seq<Sized<DmlItem>>, codes: seq<string>,
                                         vars: map<string, seq<string>>, flushed: seq<RepoBatch>)
    requires Gathering(all, done, batch, current, [x] + rest, codes, vars, flushed)
    ensures var total := current + x.cost;
            && (codes != [] && total >= MaxTokens ==>
                  Gathering(all, done + [batch], [] + [x], total, rest, [] + [x.item.code], MergeVars(map[], x.item.vars),
                            flushed + [RepoBatch(codes, vars)]))
            && (!(codes != [] && total >= MaxTokens) ==>
                  Gathering(all, done, batch + [x], total, rest, codes + [x.item.code], MergeVars(vars, x.item.vars), flushed))
  {
    PackLoopStep(done, all, MaxTokens, batch, current, true, x, rest);
    var total := current + x.cost;
    if codes != [] && total >= MaxTokens {
      BatchesOfSnoc(done, batch);
      BatchOfSnoc([], x);
    } else {
      BatchOfSnoc(batch, x);
    }
  }

  class RepositoryGenerator {

    var projectName: string
    /** `aggregated_query_methods`: the map and its keys in insertion order. */
    var queryMethods: map<string, seq<string>>
    var entityOrder: seq<string>
    /** `all_used_query_methods`, its `start~end` keys held as their two numbers. */
    var usedQueryMethods: map<RangeKey, string>
    /** `all_sequence_methods`. */
    var sequenceMethods: set<string>

    function State(): Aggregate
      reads this
    {
      Aggregate(queryMethods, entityOrder, usedQueryMethods, sequenceMethods)
    }

    ghost predicate Valid()
      reads this
    {
      Ordered(State())
    }

    constructor(projectName: string)
      ensures this.projectName == projectName && State() == EmptyAggregate && Valid()
    {
      this.projectName := projectName;
      queryMethods, entityOrder, usedQueryMethods, sequenceMethods := map[], [], map[], {};
    }

    /** generate, after the DML nodes are read: the containers are reset,
        the nodes are batched and converted with `convert`, and the
        repository files are rendered. */
    method Generate(nodes: seq<DmlNode>, lookups: seq<VarLookup>, convert: RepoBatch -> Conversion) returns (files: seq<RepositoryFile>)
      requires |lookups| == |nodes|
      modifies this
      ensures Valid() && projectName == old(projectName)
      ensures State() == Replay(EmptyAggregate, convert, BatchesOf(AsWrittenBatches(nodes, lookups)))
      ensures files == Files(entityOrder, queryMethods, projectName)
    {
      queryMethods, entityOrder, usedQueryMethods, sequenceMethods := map[], [], map[], {};
      if nodes != [] {
        var _ := ProcessDmlNodes(nodes, lookups, convert);
      } else {
        assert Items(nodes, lookups) == [];
      }
      files := SaveRepositoryFiles();
    }

    /** _process_dml_nodes: the batches handed to _flush_batch, in order,
        and the state after flushing each of them. */
    method ProcessDmlNodes(nodes: seq<DmlNode>, lookups: seq<VarLookup>, convert: RepoBatch -> Conversion) returns (batches: seq<RepoBatch>)
      requires |lookups| == |nodes|
      requires Valid()
      modifies this
      ensures Valid() && projectName == old(projectName)
      ensures batches == BatchesOf(AsWrittenBatches(nodes, lookups))
      ensures State() == Replay(old(State()), convert, batches)
    {
      ghost var all := AsWrittenBatches(nodes, lookups);
      ghost var done: seq<seq<Sized<DmlItem>>> := [];
      ghost var batch: seq<Sized<DmlItem>> := [];
      var current := 0;
      var batchCodes: seq<string> := [];
      var batchVars: map<string, seq<string>> := map[];
      batches := [];
      for i := 0 to |nodes|
        invariant Valid() && projectName == old(projectName)
        invariant Gathering(all, done, batch, current, Items(nodes[i..], lookups[i..]), batchCodes, batchVars, batches)
        invariant State() == Replay(old(State()), convert, batches)
      {
        var node := nodes[i];
        ItemsStep(nodes, lookups, i);
        if !Usable(node) {
          assert Items(nodes[i..], lookups[i..]) == Items(nodes[i + 1..], lookups[i + 1..]);
          continue;
        }
        var code := CodeOf(node);
        var lookup := lookups[i];
        var total := current + node.token.value + lookup.tokens;
        ghost var x := Sized(DmlItem(code, lookup.nodes), node.token.value + lookup.tokens);
        assert Items(nodes[i..], lookups[i..]) == [x] + Items(nodes[i + 1..], lookups[i + 1..]);
        GatheringStep(all, done, batch, current, x, Items(nodes[i + 1..], lookups[i + 1..]), batchCodes, batchVars, batches);
        if batchCodes != [] && total >= MaxTokens {
          FlushNext(old(State()), convert, batches, RepoBatch(batchCodes, batchVars));
          batches := batches + [RepoBatch(batchCodes, batchVars)];
          done := done + [batch];
          batch, batchCodes, batchVars, current := [], [], map[], 0;
        }
        batch := batch + [x];
        batchCodes := batchCodes + [code];
        batchVars := MergeVars(batchVars, lookup.nodes);
        current := total;
      }
      if batchCodes != [] {
        var flushed := RepoBatch(batchCodes, batchVars);
        FlushNext(old(State()), convert, batches, flushed);
        BatchesOfSnoc(done, batch);
        batches := batches + [flushed];
        done := done + [batch];
      }
    }

    /** The next batch handed to _flush_batch, converted with `convert`:
        the state moves on from the batches flushed before it. */
    method FlushNext(ghost start: Aggregate, convert: RepoBatch -> Conversion, ghost flushed: seq<RepoBatch>, b: RepoBatch)
      requires Valid() && State() == Replay(start, convert, flushed)
      modifies this
      ensures Valid() && projectName == old(projectName)
      ensures State() == Replay(start, convert, flushed + [b])
    {
      FlushBatch(convert(b));
      ReplaySnoc(start, convert, flushed, b);
    }

    /** _flush_batch after the conversion: each method is appended to its
        entity's list (the entity is added to the order when new) and
        recorded under each of its line ranges; then the sequence methods
        are added. */
    method FlushBatch(c: Conversion)
      requires Valid()
      modifies this
      ensures Valid() && projectName == old(projectName)
      ensures State() == Absorb(old(State()), c)
    {
      for i := 0 to |c.methods|
        invariant Valid() && projectName == old(projectName)
        invariant State() == AddMethods(old(State()), c.methods[..i])
      {
        AddOneMethod(c.methods[i]);
        assert c.methods[..i + 1][..i] == c.methods[..i];
      }
      assert c.methods[..|c.methods|] == c.methods;
      sequenceMethods := sequenceMethods + set s | s in c.seqMethods;
    }

    /** One pass of _flush_batch's loop: the method's code is appended to
        its entity's list (the entity joins the order when it is new) and
        recorded under each of its line ranges. */
    method AddOneMethod(m: RepoMethod)
      requires Valid()
      modifies this
      ensures Valid() && projectName == old(projectName)
      ensures State() == AddMethod(old(State()), m)
    {
      var e := EntityName(m.tableName);
      AddMethodOrdered(State(), m);
      if e !in queryMethods {
        entityOrder := entityOrder + [e];
      }
      queryMethods := queryMethods[e := Get(queryMethods, e) + [m.code]];
      RecordMethodRanges(m);
    }

    /** The inner loop of _flush_batch: the method's code is recorded under
        the key of each of its line ranges. */
    method RecordMethodRanges(m: RepoMethod)
      modifies this
      ensures usedQueryMethods == RecordRanges(old(usedQueryMethods), m.ranges, m.code)
      ensures projectName == old(projectName) && queryMethods == old(queryMethods)
      ensures entityOrder == old(entityOrder) && sequenceMethods == old(sequenceMethods)
    {
      var used := usedQueryMethods;
      for j := 0 to |m.ranges|
        invariant used == RecordRanges(usedQueryMethods, m.ranges[..j], m.code)
        modifies {}
      {
        RecordRangesSnoc(usedQueryMethods, m.ranges, j, m.code);
        used := used[m.ranges[j] := m.code];
      }
      assert m.ranges[..|m.ranges|] == m.ranges;
      usedQueryMethods := used;
    }

    /** _save_repository_files: nothing aggregated means no file; otherwise
        one file per entity in insertion order. */
    method SaveRepositoryFiles() returns (files: seq<RepositoryFile>)
      requires Valid()
      ensures files == Files(entityOrder, queryMethods, projectName)
    {
      if queryMethods == map[] {
        FilesEmpty(State(), projectName);
        return [];
      }
      files := [];
      for i := 0 to |entityOrder|
        invariant files == Files(entityOrder, queryMethods, projectName)[..i]
      {
        var e := entityOrder[i];
        files := files + [RepositoryFileOf(e, Get(queryMethods, e), projectName)];
      }
    }
  }
}
