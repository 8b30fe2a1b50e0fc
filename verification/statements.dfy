/** The statement nodes, analysis batches and pure helpers of
    temp/analysis_async_refactor.py: node naming, procedure-name splitting,
    original-code numbering, raw and compact code, batch construction and
    the two LLM payloads. */
module Statements {

  import opened Wrappers
  import opened Text

  // ===== node-type tables =====

  const ProcedureTypes: set<string> := {"PROCEDURE", "FUNCTION", "CREATE_PROCEDURE_BODY", "TRIGGER"}

  const NonAnalysisTypes: set<string> :=
    {"CREATE_PROCEDURE_BODY", "FILE", "PROCEDURE", "FUNCTION", "DECLARE", "TRIGGER", "FOLDER", "SPEC"}

  const DmlStatementTypes: set<string> :=
    {"SELECT", "INSERT", "UPDATE", "DELETE", "MERGE", "EXECUTE_IMMEDIATE", "FETCH"}

  /** MAX_BATCH_TOKEN, the default token budget of one batch. */
  const MaxBatchToken: nat := 900

  /** Every procedure-like type is excluded from analysis. */
  lemma {:induction false} ProcedureTypesAreNotAnalyzed(t: string)
    requires t in ProcedureTypes
    ensures t in NonAnalysisTypes
  {
  }

  /** DML_RELATIONSHIP_MAP.get(...): the relationship a DML type creates. */
  function DmlRelationship(dmlType: string): (r: Option<string>)
    ensures r.Some? <==> dmlType in {"SELECT", "FETCH", "UPDATE", "INSERT", "DELETE", "MERGE", "EXECUTE", "EXECUTE_IMMEDIATE"}
    ensures r.Some? ==> r.value in {"FROM", "WRITES", "EXECUTE"}
  {
    if dmlType == "SELECT" || dmlType == "FETCH" then Some("FROM")
    else if dmlType in {"UPDATE", "INSERT", "DELETE", "MERGE"} then Some("WRITES")
    else if dmlType == "EXECUTE" || dmlType == "EXECUTE_IMMEDIATE" then Some("EXECUTE")
    else None
  }

  // ===== statement nodes =====

  /** One `(line_no, text)` entry of a node's `lines`. */
  datatype Line = Line(number: int, text: string)

  /** A flattened parse-tree node. Nodes live in an arena (a sequence indexed
      by `nodeId - 1`); `parent` and `children` hold node ids. `summary` and
      `completed` (the completion event) are the fields rewritten after
      collection. */
  datatype StatementNode = StatementNode(
    nodeId: nat,
    startLine: int,
    endLine: int,
    nodeType: string,
    code: string,
    token: nat,
    hasChildren: bool,
    procedureKey: Option<string>,
    procedureType: Option<string>,
    procedureName: Option<string>,
    schemaName: Option<string>,
    analyzable: bool,
    dml: bool,
    lines: seq<Line>,
    parent: Option<nat>,
    children: seq<nat>,
    summary: Option<string>,
    completed: bool)

  /** A procedure bucket, ProcedureInfo. */
  datatype ProcedureInfo = ProcedureInfo(
    key: string,
    procedureType: string,
    procedureName: string,
    schemaName: Option<string>,
    startLine: int,
    endLine: int,
    pendingNodes: nat)

  // ===== build_statement_name =====

  /** build_statement_name: `"TYPE[start]"`. */
  function BuildStatementName(nodeType: string, startLine: int): (r: string)
    ensures |r| > |nodeType| + 2
    ensures r[..|nodeType| + 1] == nodeType + "[" && r[|r| - 1] == ']'
  {
    nodeType + "[" + IntToString(startLine) + "]"
  }

  /** A decimal rendering starts with '-' exactly for negative numbers and
      is otherwise made of digits. */
  lemma {:induction false} IntToStringChars(i: int)
    ensures IntToString(i)[0] == '-' <==> i < 0
    ensures forall k :: 0 <= k < |IntToString(i)| ==> IntToString(i)[k] == '-' || IsDigit(IntToString(i)[k])
  {
    var s := IntToString(i);
    forall k | 0 <= k < |s| ensures s[k] == '-' || IsDigit(s[k]) {
      if i < 0 && k > 0 {
        assert s[k] == NatToString(-i)[k - 1];
      }
    }
    if i >= 0 {
      assert IsDigit(s[0]);
    }
  }

  lemma {:induction false} IntToStringInjective(i: int, j: int)
    requires IntToString(i) == IntToString(j)
    ensures i == j
  {
    IntToStringChars(i);
    IntToStringChars(j);
    if i < 0 {
      assert NatToString(-i) == IntToString(i)[1..] == IntToString(j)[1..] == NatToString(-j);
      NatToStringInjective(-i, -j);
    } else {
      NatToStringInjective(i, j);
    }
  }

  lemma {:induction false} IntToStringHasNoBracket(i: int)
    ensures '[' !in IntToString(i)
  {
    IntToStringChars(i);
  }

  /** Statement names identify the node: types without '[' and start lines
      can be read back from the name. */
  lemma {:induction false} BuildStatementNameInjective(t1: string, s1: int, t2: string, s2: int)
    requires '[' !in t1 && '[' !in t2
    requires BuildStatementName(t1, s1) == BuildStatementName(t2, s2)
    ensures t1 == t2 && s1 == s2
  {
    var n1 := IntToString(s1) + "]";
    var n2 := IntToString(s2) + "]";
    IntToStringHasNoBracket(s1);
    IntToStringHasNoBracket(s2);
    assert BuildStatementName(t1, s1) == t1 + ['['] + n1;
    assert BuildStatementName(t2, s2) == t2 + ['['] + n2;
    SplitFirstAt(t1, '[', n1);
    SplitFirstAt(t2, '[', n2);
    assert n1[..|n1| - 1] == IntToString(s1);
    assert n2[..|n2| - 1] == IntToString(s2);
    IntToStringInjective(s1, s2);
  }

  // ===== get_procedure_name_from_code, after the regex match =====

  /** One dotted segment, `segment.strip().strip('"')`. */
  function CleanSegment(p: string): string
  {
    StripQuotes(Strip(p))
  }

  function CleanSegments(parts: seq<string>): (r: seq<string>)
    ensures |r| == |parts|
    ensures forall i :: 0 <= i < |parts| ==> r[i] == CleanSegment(parts[i])
  {
    seq(|parts|, i requires 0 <= i < |parts| => CleanSegment(parts[i]))
  }

  /** get_procedure_name_from_code given the regex's first group (None when
      the pattern does not match): three segments give (schema, "pkg.name"),
      two give (schema, name), any other count gives (None, first segment). */
  function ProcedureNameFromMatch(m: Option<string>): (r: (Option<string>, Option<string>))
    ensures m.None? ==> r == (None, None)
    ensures m.Some? ==> r.1.Some?
    ensures m.Some? ==> (r.0.Some? <==> |Split(m.value, '.')| in {2, 3})
  {
    match m
    case None => (None, None)
    case Some(g) =>
      var parts := CleanSegments(Split(g, '.'));
      if |parts| == 3 then (Some(parts[0]), Some(parts[1] + "." + parts[2]))
      else if |parts| == 2 then (Some(parts[0]), Some(parts[1]))
      else (None, Some(parts[0]))
  }

  /** A segment that cleaning leaves unchanged and that holds no '.'. */
  predicate PlainSegment(p: string) {
    '.' !in p && CleanSegment(p) == p
  }

  /** Reading back a dotted name built from plain segments gives the schema
      and the (package-qualified) name: one segment is a bare name, ... */
  lemma {:induction false} ProcedureNameOfName(a: string)
    requires PlainSegment(a)
    ensures ProcedureNameFromMatch(Some(a)) == (None, Some(a))
  {
    SplitNoSep(a, '.');
    assert CleanSegments([a]) == [a];
  }

  /** ... two segments are schema and name, ... */
  lemma {:induction false} ProcedureNameOfSchemaName(a: string, b: string)
    requires PlainSegment(a) && PlainSegment(b)
    ensures ProcedureNameFromMatch(Some(a + "." + b)) == (Some(a), Some(b))
  {
    assert [a, b][1..] == [b];
    assert Join([a, b], ".") == a + "." + b;
    SplitJoin([a, b], '.');
    assert CleanSegments([a, b]) == [a, b];
  }

  /** ... and three segments are schema, package and name. */
  lemma {:induction false} ProcedureNameOfSchemaPackageName(a: string, b: string, c: string)
    requires PlainSegment(a) && PlainSegment(b) && PlainSegment(c)
    ensures ProcedureNameFromMatch(Some(a + "." + b + "." + c)) == (Some(a), Some(b + "." + c))
  {
    assert [a, b, c][1..] == [b, c] && [b, c][1..] == [c];
    assert Join([b, c], ".") == b + "." + c;
    assert Join([a, b, c], ".") == a + "." + Join([b, c], ".");
    assert a + "." + b + "." + c == Join([a, b, c], ".");
    SplitJoin([a, b, c], '.');
    assert CleanSegments([a, b, c]) == [a, b, c];
  }

  // ===== get_original_node_code =====

  function LeadingDigits(s: string): (n: nat)
    ensures n <= |s|
    ensures forall i :: 0 <= i < n ==> IsDigit(s[i])
    ensures n < |s| ==> !IsDigit(s[n])
  {
    if s != [] && IsDigit(s[0]) then 1 + LeadingDigits(s[1..]) else 0
  }

  function LeadingSpaces(s: string): (n: nat)
    ensures n <= |s|
    ensures n < |s| ==> !IsSpace(s[n])
  {
    if s != [] && IsSpace(s[0]) then 1 + LeadingSpaces(s[1..]) else 0
  }

  /** LINE_NUMBER_PATTERN (`^\d+\s*:`) matches at the start of `line`. */
  predicate HasLineNumber(line: string) {
    var d := LeadingDigits(line);
    var rest := line[d..];
    var w := LeadingSpaces(rest);
    d >= 1 && w < |rest| && rest[w] == ':'
  }

  lemma {:induction false} LeadingDigitsOfNumbered(digits: string, tail: string)
    requires forall i :: 0 <= i < |digits| ==> IsDigit(digits[i])
    requires tail != [] && !IsDigit(tail[0])
    ensures LeadingDigits(digits + tail) == |digits|
  {
    if digits != [] {
      assert (digits + tail)[1..] == digits[1..] + tail;
      LeadingDigitsOfNumbered(digits[1..], tail);
    } else {
      assert digits + tail == tail;
    }
  }

  /** A line numbered by the helper carries a line number. */
  lemma {:induction false} NumberedHasLineNumber(n: nat, text: string)
    ensures HasLineNumber(NatToString(n) + ": " + text)
  {
    var digits := NatToString(n);
    var line := digits + ": " + text;
    assert line == digits + (": " + text);
    LeadingDigitsOfNumbered(digits, ": " + text);
    assert line[|digits|..] == ": " + text;
  }

  /** The numbered lines get_original_node_code joins: the file lines
      `[start-1:end]`, each kept when it already starts with a line number
      and prefixed with its own number otherwise. */
  function OriginalNodeLines(fileContent: string, startLine: int, endLine: int): seq<string>
  {
    var picked := PySlice(Split(fileContent, '\n'), startLine - 1, endLine);
    seq(|picked|, i requires 0 <= i < |picked| =>
      if HasLineNumber(picked[i]) then picked[i] else IntToString(startLine + i) + ": " + picked[i])
  }

  /** From a non-negative start line on, every produced line carries a line
      number. */
  lemma {:induction false} OriginalNodeLinesAreNumbered(fileContent: string, startLine: int, endLine: int)
    requires startLine >= 0
    ensures forall line :: line in OriginalNodeLines(fileContent, startLine, endLine) ==> HasLineNumber(line)
  {
    var r := OriginalNodeLines(fileContent, startLine, endLine);
    var picked := PySlice(Split(fileContent, '\n'), startLine - 1, endLine);
    forall i | 0 <= i < |r| ensures HasLineNumber(r[i]) {
      if !HasLineNumber(picked[i]) {
        NumberedHasLineNumber(startLine + i, picked[i]);
      }
    }
  }

  /** get_original_node_code. */
  function GetOriginalNodeCode(fileContent: string, startLine: int, endLine: int): string
  {
    Join(OriginalNodeLines(fileContent, startLine, endLine), "\n")
  }

  // ===== get_raw_code =====

  /** `"n: text"`. */
  function NumberedLine(l: Line): string
  {
    IntToString(l.number) + ": " + l.text
  }

  function NumberedLines(lines: seq<Line>): (r: seq<string>)
    ensures |r| == |lines|
    ensures forall i :: 0 <= i < |lines| ==> r[i] == NumberedLine(lines[i])
  {
    seq(|lines|, i requires 0 <= i < |lines| => NumberedLine(lines[i]))
  }

  /** get_raw_code: the node's lines, numbered, joined with line breaks. */
  function RawCode(lines: seq<Line>): string
  {
    Join(NumberedLines(lines), "\n")
  }

  lemma {:induction false} IntToStringHasNoBreak(i: int)
    ensures '\n' !in IntToString(i)
  {
    IntToStringChars(i);
  }

  /** Splitting the raw code at line breaks gives back the numbered lines,
      one per source line. */
  lemma {:induction false} RawCodeSplitsIntoLines(lines: seq<Line>)
    requires lines != []
    requires forall i :: 0 <= i < |lines| ==> '\n' !in lines[i].text
    ensures Split(RawCode(lines), '\n') == NumberedLines(lines)
  {
    var parts := NumberedLines(lines);
    forall i | 0 <= i < |parts| ensures '\n' !in parts[i] {
      IntToStringHasNoBreak(lines[i].number);

      assert parts[i] == IntToString(lines[i].number) + ": " + lines[i].text;
    }
    SplitJoin(parts, '\n');
  }

  // ===== get_compact_code =====

  /** A piece of the compact code: a parent line kept as it is, or the place
      where a child's summary stands in for the child's lines. */
  datatype Piece = Copied(line: Line) | Replaced(child: StatementNode)

  /** What stands for a child that has no summary yet. */
  const Placeholder: string := "... code ..."

  lemma PlaceholderIsOneLine()
    ensures '\n' !in Placeholder
  {
    assert Placeholder == ['.', '.', '.', ' ', 'c', 'o', 'd', 'e', ' ', '.', '.', '.'];
  }

  /** The child's stripped summary, or the placeholder when it has none. */
  function SummaryText(child: StatementNode): string
  {
    if child.summary.Some? && child.summary.value != [] then Strip(child.summary.value) else Placeholder
  }

  /** Non-blank stripped summary lines numbered from `start + offset`. */
  function NumberedSummaryLines(parts: seq<string>, start: int, offset: nat): (r: seq<string>)
    ensures |r| <= |parts|
    ensures parts != [] && Strip(parts[0]) != [] ==> r != [] && r[0] == IntToString(start + offset) + ": " + Strip(parts[0])
  {
    if parts == [] then []
    else
      var line := Strip(parts[0]);
      (if line == [] then [] else [IntToString(start + offset) + ": " + line])
        + NumberedSummaryLines(parts[1..], start, offset + 1)
  }

  /** The lines that stand for one child in the compact code: a summary
      with several lines is spread over the child's first lines, dropping
      blank ones; a one-line summary (or the placeholder) sits on the
      child's start line. */
  function SummaryLines(child: StatementNode): (r: seq<string>)
    ensures child.summary.None? || child.summary.value == [] ==> r == [IntToString(child.startLine) + ": " + Placeholder]
    ensures child.summary.Some? && child.summary.value != [] && '\n' !in Strip(child.summary.value) ==>
              r == [IntToString(child.startLine) + ": " + Strip(child.summary.value)]
  {
    PlaceholderIsOneLine();
    var s := SummaryText(child);
    if '\n' in s then
      NumberedSummaryLines(Split(s, '\n'), child.startLine, 0)
    else [IntToString(child.startLine) + ": " + s]
  }

  /** `lines` with the leading lines numbered up to `endLine` dropped (the
      skip loop). */
  function SkipThrough(lines: seq<Line>, endLine: int): (r: seq<Line>)
    ensures |r| <= |lines|
  {
    if lines != [] && lines[0].number <= endLine then SkipThrough(lines[1..], endLine) else lines
  }

  /** What SkipThrough leaves is a suffix: everything dropped ends no later
      than `endLine`, and what is left starts after it. */
  lemma {:induction false} SkipThroughShape(lines: seq<Line>, endLine: int)
    ensures var r := SkipThrough(lines, endLine);
      r == lines[|lines| - |r|..] &&
      (forall i :: 0 <= i < |lines| - |r| ==> lines[i].number <= endLine) &&
      (r != [] ==> r[0].number > endLine)
  {
    if lines != [] && lines[0].number <= endLine {
      SkipThroughShape(lines[1..], endLine);
      var r := SkipThrough(lines, endLine);
      assert lines[1..][|lines| - 1 - |r|..] == lines[|lines| - |r|..];
      forall i | 0 <= i < |lines| - |r| ensures lines[i].number <= endLine {
        if i > 0 { assert lines[i] == lines[1..][i - 1]; }
      }
    }
  }

  function CopyAll(lines: seq<Line>): seq<Piece>
  {
    if lines == [] then [] else [Copied(lines[0])] + CopyAll(lines[1..])
  }

  /** The pieces get_compact_code emits for the parent lines `lines` and the
      children `kids` (already sorted), step by step as its loops do: copy a
      line that precedes the next child, otherwise emit the child's summary
      and skip the lines it covers; copy what is left after the last child. */
  function CompactPieces(lines: seq<Line>, kids: seq<StatementNode>): seq<Piece>
    decreases |lines| + |kids|
  {
    if kids == [] then CopyAll(lines)
    else if lines != [] && lines[0].number < kids[0].startLine then [Copied(lines[0])] + CompactPieces(lines[1..], kids)
    else [Replaced(kids[0])] + CompactPieces(SkipThrough(lines, kids[0].endLine), kids[1..])
  }

  function RenderPiece(p: Piece): seq<string>
  {
    match p
    case Copied(l) => [NumberedLine(l)]
    case Replaced(k) => SummaryLines(k)
  }

  function RenderAll(ps: seq<Piece>): seq<string>
  {
    if ps == [] then [] else RenderPiece(ps[0]) + RenderAll(ps[1..])
  }

  lemma {:induction false} RenderAllCons(p: Piece, ps: seq<Piece>)
    ensures RenderAll([p] + ps) == RenderPiece(p) + RenderAll(ps)
  {
    assert ([p] + ps)[1..] == ps;
  }

  // ----- sorting children by start line -----

  predicate SortedByStart(kids: seq<StatementNode>) {
    forall i, j :: 0 <= i < j < |kids| ==> kids[i].startLine <= kids[j].startLine
  }

  lemma {:induction false} SortedCons(x: StatementNode, rest: seq<StatementNode>)
    requires SortedByStart(rest)
    requires rest != [] ==> x.startLine <= rest[0].startLine
    ensures SortedByStart([x] + rest)
  {
    var r := [x] + rest;
    forall i, j | 0 <= i < j < |r| ensures r[i].startLine <= r[j].startLine {
      if i == 0 && j > 1 {
        assert r[j] == rest[j - 1] && rest[0].startLine <= rest[j - 1].startLine;
      }
    }
  }

  /** Inserts `k` before the first element that does not start earlier. */
  function InsertByStart(k: StatementNode, sorted: seq<StatementNode>): (r: seq<StatementNode>)
    requires SortedByStart(sorted)
    ensures SortedByStart(r)
    ensures r != [] && (r[0] == k || (sorted != [] && r[0] == sorted[0]))
    ensures multiset(r) == multiset(sorted) + multiset{k}
  {
    if sorted == [] || k.startLine <= sorted[0].startLine then
      SortedCons(k, sorted);
      [k] + sorted
    else
      var tail := sorted[1..];
      assert SortedByStart(tail) by {
        forall i, j | 0 <= i < j < |tail| ensures tail[i].startLine <= tail[j].startLine {
          assert tail[i] == sorted[i + 1] && tail[j] == sorted[j + 1];
        }
      }
      var rest := InsertByStart(k, tail);
      assert tail != [] ==> tail[0] == sorted[1];
      SortedCons(sorted[0], rest);
      assert sorted == [sorted[0]] + tail;
      [sorted[0]] + rest
  }

  /** `sorted(children, key=start_line)`. */
  function SortByStart(kids: seq<StatementNode>): (r: seq<StatementNode>)
    ensures SortedByStart(r)
    ensures multiset(r) == multiset(kids)
  {
    if kids == [] then []
    else
      assert kids == [kids[0]] + kids[1..];
      InsertByStart(kids[0], SortByStart(kids[1..]))
  }

  /** What get_compact_code returns for a node whose children are `kids`. */
  function CompactCode(node: StatementNode, kids: seq<StatementNode>): string
  {
    if kids == [] then node.code else Join(RenderAll(CompactPieces(node.lines, SortByStart(kids))), "\n")
  }

  lemma {:induction false} CompactCopyStep(lines: seq<Line>, i: nat, kids: seq<StatementNode>, c: nat)
    requires i < |lines| && c < |kids| && lines[i].number < kids[c].startLine
    ensures RenderAll(CompactPieces(lines[i..], kids[c..]))
         == [NumberedLine(lines[i])] + RenderAll(CompactPieces(lines[i + 1..], kids[c..]))
  {
    assert lines[i..][1..] == lines[i + 1..];
    RenderAllCons(Copied(lines[i]), CompactPieces(lines[i + 1..], kids[c..]));
  }

  lemma {:induction false} CompactReplaceStep(lines: seq<Line>, i: nat, kids: seq<StatementNode>, c: nat)
    requires i <= |lines| && c < |kids|
    requires i < |lines| ==> lines[i].number >= kids[c].startLine
    ensures RenderAll(CompactPieces(lines[i..], kids[c..]))
         == SummaryLines(kids[c]) + RenderAll(CompactPieces(SkipThrough(lines[i..], kids[c].endLine), kids[c + 1..]))
  {
    assert kids[c..][0] == kids[c] && kids[c..][1..] == kids[c + 1..];
    RenderAllCons(Replaced(kids[c]), CompactPieces(SkipThrough(lines[i..], kids[c].endLine), kids[c + 1..]));
  }

  lemma {:induction false} SkipStep(lines: seq<Line>, i: nat, e: int)
    requires i < |lines|
    ensures SkipThrough(lines[i..], e) == if lines[i].number <= e then SkipThrough(lines[i + 1..], e) else lines[i..]
  {
    assert lines[i..][1..] == lines[i + 1..];
  }

  /** Numbering one more parent line. */
  lemma {:induction false} NumberedLinesSnoc(lines: seq<Line>, i: nat, j: nat)
    requires i <= j < |lines|
    ensures NumberedLines(lines[i..j + 1]) == NumberedLines(lines[i..j]) + [NumberedLine(lines[j])]
  {
    var a := NumberedLines(lines[i..j + 1]);
    var b := NumberedLines(lines[i..j]) + [NumberedLine(lines[j])];
    forall k | 0 <= k < |a| ensures a[k] == b[k] {
      assert lines[i..j + 1][k] == lines[i + k];
      if k < j - i { assert lines[i..j][k] == lines[i + k]; }
    }
  }

  lemma {:induction false} RenderAllAppend(a: seq<Piece>, b: seq<Piece>)
    ensures RenderAll(a + b) == RenderAll(a) + RenderAll(b)
  {
    if a != [] {
      assert (a + b)[0] == a[0] && (a + b)[1..] == a[1..] + b;
      RenderAllAppend(a[1..], b);
    } else {
      assert a + b == b;
    }
  }

  /** Numbering the first line, then the rest. */
  lemma {:induction false} NumberedLinesCons(ls: seq<Line>)
    requires ls != []
    ensures NumberedLines(ls) == [NumberedLine(ls[0])] + NumberedLines(ls[1..])
  {
    var n := NumberedLines(ls);
    var m := [NumberedLine(ls[0])] + NumberedLines(ls[1..]);
    forall k | 0 <= k < |ls| ensures n[k] == m[k] {
      if k > 0 { assert ls[1..][k - 1] == ls[k]; }
    }
  }

  /** Rendering copied lines numbers them. */
  lemma {:induction false} RenderCopies(ls: seq<Line>)
    ensures RenderAll(CopyAll(ls)) == NumberedLines(ls)
  {
    if ls != [] {
      var h := Copied(ls[0]);
      var t := CopyAll(ls[1..]);
      assert CopyAll(ls) == [h] + t;
      RenderAllCons(h, t);
      RenderCopies(ls[1..]);
      NumberedLinesCons(ls);
    }
  }

  /** A parent line that precedes the first child is copied. */
  lemma {:induction false} CompactCopyHead(ls: seq<Line>, i: nat, kids: seq<StatementNode>)
    requires i < |ls| && kids != [] && ls[i].number < kids[0].startLine
    ensures CompactPieces(ls[i..], kids) == [Copied(ls[i])] + CompactPieces(ls[i + 1..], kids)
  {
    assert ls[i..][0] == ls[i] && ls[i..][1..] == ls[i + 1..];
  }

  lemma {:induction false} CopyAllHead(ls: seq<Line>, i: nat, n: nat)
    requires i < n <= |ls|
    ensures CopyAll(ls[i..n]) == [Copied(ls[i])] + CopyAll(ls[i + 1..n])
  {
    assert ls[i..n][0] == ls[i] && ls[i..n][1..] == ls[i + 1..n];
  }

  /** The pieces for parent lines `i` up to `n`, which all precede the
      first child, start with copies of those lines. */
  lemma {:induction false} PiecesCopyRun(ls: seq<Line>, i: nat, n: nat, kids: seq<StatementNode>)
    requires i <= n <= |ls| && kids != []
    requires forall k :: i <= k < n ==> ls[k].number < kids[0].startLine
    ensures CompactPieces(ls[i..], kids) == CopyAll(ls[i..n]) + CompactPieces(ls[n..], kids)
    decreases n - i
  {
    if i == n {
      assert CopyAll(ls[i..n]) == [];
    } else {
      var a := CopyAll(ls[i + 1..n]);
      var b := CompactPieces(ls[n..], kids);
      CompactCopyHead(ls, i, kids);
      PiecesCopyRun(ls, i + 1, n, kids);
      CopyAllHead(ls, i, n);
      AppendAssoc([Copied(ls[i])], a, b);
    }
  }

  /** Copying a run of parent lines that all precede child `c`. */
  lemma {:induction false} CompactCopyRun(lines: seq<Line>, i: nat, j: nat, copied: seq<string>, kids: seq<StatementNode>, c: nat)
    requires i <= j <= |lines| && c < |kids|
    requires forall k :: i <= k < j ==> lines[k].number < kids[c].startLine
    requires copied == NumberedLines(lines[i..j])
    ensures RenderAll(CompactPieces(lines[i..], kids[c..]))
         == copied + RenderAll(CompactPieces(lines[j..], kids[c..]))
  {
    var kc := kids[c..];
    assert kc[0] == kids[c];
    PiecesCopyRun(lines, i, j, kc);
    var a := CopyAll(lines[i..j]);
    var b := CompactPieces(lines[j..], kc);
    RenderAllAppend(a, b);
    RenderCopies(lines[i..j]);
  }

  /** The parent lines from `i` up to `j` all precede `startLine`. */
  ghost predicate AllBefore(lines: seq<Line>, i: nat, j: nat, startLine: int)
    requires i <= j <= |lines|
  {
    forall k :: i <= k < j ==> lines[k].number < startLine
  }

  lemma {:induction false} AllBeforeSnoc(lines: seq<Line>, i: nat, j: nat, startLine: int)
    requires i <= j < |lines| && AllBefore(lines, i, j, startLine) && lines[j].number < startLine
    ensures AllBefore(lines, i, j + 1, startLine)
  {
  }

  /** The first inner loop of get_compact_code: copies the parent lines
      that precede the child starting at `startLine`. */
  method CopyLinesBefore(lines: seq<Line>, i: nat, startLine: int) returns (copied: seq<string>, j: nat)
    requires i <= |lines|
    ensures i <= j <= |lines|
    ensures AllBefore(lines, i, j, startLine)
    ensures j < |lines| ==> lines[j].number >= startLine
    ensures copied == NumberedLines(lines[i..j])
  {
    copied := [];
    j := i;
    while j < |lines| && lines[j].number < startLine
      invariant i <= j <= |lines|
      invariant AllBefore(lines, i, j, startLine)
      invariant copied == NumberedLines(lines[i..j])
    {
      NumberedLinesSnoc(lines, i, j);
      AllBeforeSnoc(lines, i, j, startLine);
      copied := copied + [NumberedLine(lines[j])];
      j := j + 1;
    }
  }

  /** The second inner loop of get_compact_code: skips the parent lines up
      to the child's end line. */
  method SkipCoveredLines(lines: seq<Line>, i: nat, endLine: int) returns (j: nat)
    requires i <= |lines|
    ensures i <= j <= |lines|
    ensures lines[j..] == SkipThrough(lines[i..], endLine)
  {
    j := i;
    while j < |lines| && lines[j].number <= endLine
      invariant i <= j <= |lines|
      invariant SkipThrough(lines[j..], endLine) == SkipThrough(lines[i..], endLine)
    {
      SkipStep(lines, j, endLine);
      j := j + 1;
    }
    if j < |lines| {
      SkipStep(lines, j, endLine);
    } else {
      assert lines[j..] == [];
    }
  }

  lemma {:induction false} Chain<T>(a: seq<T>, b: seq<T>, c: seq<T>, p: seq<T>, q: seq<T>)
    requires a == p + b && b == q + c
    ensures a == (p + q) + c
  {
  }

  /** One round of get_compact_code's loop over the sorted children: the
      parent lines before child `c`, then the child's summary lines, then
      the skip over the lines the child covers. */
  method EmitChild(lines: seq<Line>, i: nat, kids: seq<StatementNode>, c: nat) returns (out: seq<string>, j: nat)
    requires i <= |lines| && c < |kids|
    ensures i <= j <= |lines|
    ensures RenderAll(CompactPieces(lines[i..], kids[c..])) == out + RenderAll(CompactPieces(lines[j..], kids[c + 1..]))
  {
    var child := kids[c];
    var copied, next := CopyLinesBefore(lines, i, child.startLine);
    CompactCopyRun(lines, i, next, copied, kids, c);
    CompactReplaceStep(lines, next, kids, c);
    out := copied + SummaryLines(child);
    j := SkipCoveredLines(lines, next, child.endLine);
    Chain(RenderAll(CompactPieces(lines[i..], kids[c..])), RenderAll(CompactPieces(lines[next..], kids[c..])),
      RenderAll(CompactPieces(lines[j..], kids[c + 1..])), copied, SummaryLines(child));
  }

  /** The last loop of get_compact_code: copies the parent lines left
      after the last child. */
  method CopyRemainingLines(lines: seq<Line>, i: nat) returns (out: seq<string>)
    requires i <= |lines|
    ensures out == NumberedLines(lines[i..])
  {
    out := [];
    var j := i;
    while j < |lines|
      invariant i <= j <= |lines|
      invariant out == NumberedLines(lines[i..j])
    {
      NumberedLinesSnoc(lines, i, j);
      out := out + [NumberedLine(lines[j])];
      j := j + 1;
    }
    assert lines[i..j] == lines[i..];
  }

  lemma {:induction false} CompactAfterLastChild(lines: seq<Line>, i: nat, kids: seq<StatementNode>)
    requires i <= |lines|
    ensures CompactPieces(lines[i..], kids[|kids|..]) == CopyAll(lines[i..])
  {
    assert kids[|kids|..] == [];
  }

  /** The lines get_compact_code joins, for children sorted by start line. */
  method CompactLines(lines: seq<Line>, sorted: seq<StatementNode>) returns (resultLines: seq<string>)
    ensures resultLines == RenderAll(CompactPieces(lines, sorted))
  {
    ghost var goal := RenderAll(CompactPieces(lines, sorted));
    resultLines := [];
    var lineIndex := 0;
    assert lines[0..] == lines && sorted[0..] == sorted;
    var c := 0;
    while c < |sorted|
      invariant 0 <= c <= |sorted| && 0 <= lineIndex <= |lines|
      invariant resultLines + RenderAll(CompactPieces(lines[lineIndex..], sorted[c..])) == goal
    {
      var out, next := EmitChild(lines, lineIndex, sorted, c);
      resultLines := resultLines + out;
      lineIndex := next;
      c := c + 1;
    }
    CompactAfterLastChild(lines, lineIndex, sorted);
    var rest := CopyRemainingLines(lines, lineIndex);
    RenderCopies(lines[lineIndex..]);
    resultLines := resultLines + rest;
  }

  /** get_compact_code: the node's code when it has no children, otherwise
      its lines with every child's range replaced by the child's summary. */
  method GetCompactCode(node: StatementNode, kids: seq<StatementNode>) returns (r: string)
    ensures r == CompactCode(node, kids)
  {
    if kids == [] {
      return node.code;
    }
    var sorted := SortByStart(kids);
    var resultLines := CompactLines(node.lines, sorted);
    r := Join(resultLines, "\n");
  }

  // ----- what the compact code keeps and replaces -----

  function CopiedLines(ps: seq<Piece>): seq<Line>
  {
    if ps == [] then [] else (if ps[0].Copied? then [ps[0].line] else []) + CopiedLines(ps[1..])
  }

  function ReplacedChildren(ps: seq<Piece>): seq<StatementNode>
  {
    if ps == [] then [] else (if ps[0].Replaced? then [ps[0].child] else []) + ReplacedChildren(ps[1..])
  }

  lemma {:induction false} CopiedCons(p: Piece, ps: seq<Piece>)
    ensures CopiedLines([p] + ps) == (if p.Copied? then [p.line] else []) + CopiedLines(ps)
    ensures ReplacedChildren([p] + ps) == (if p.Replaced? then [p.child] else []) + ReplacedChildren(ps)
  {
    assert ([p] + ps)[1..] == ps;
  }

  lemma {:induction false} CopyAllPieces(lines: seq<Line>)
    ensures CopiedLines(CopyAll(lines)) == lines
    ensures ReplacedChildren(CopyAll(lines)) == []
  {
    if lines != [] {
      assert CopyAll(lines) == [Copied(lines[0])] + CopyAll(lines[1..]);
      CopiedCons(Copied(lines[0]), CopyAll(lines[1..]));
      CopyAllPieces(lines[1..]);
    }
  }

  /** Every child is replaced exactly once, in the order given. */
  lemma {:induction false} EveryChildReplacedOnce(lines: seq<Line>, kids: seq<StatementNode>)
    ensures ReplacedChildren(CompactPieces(lines, kids)) == kids
    decreases |lines| + |kids|
  {
    if kids == [] {
      CopyAllPieces(lines);
    } else if lines != [] && lines[0].number < kids[0].startLine {
      EveryChildReplacedOnce(lines[1..], kids);
      CopiedCons(Copied(lines[0]), CompactPieces(lines[1..], kids));
    } else {
      EveryChildReplacedOnce(SkipThrough(lines, kids[0].endLine), kids[1..]);
      CopiedCons(Replaced(kids[0]), CompactPieces(SkipThrough(lines, kids[0].endLine), kids[1..]));
      assert [kids[0]] + kids[1..] == kids;
    }
  }

  predicate Inside(l: Line, k: StatementNode) {
    k.startLine <= l.number <= k.endLine
  }

  /** The lines that lie in no child's range, in order. */
  function OutsideAll(lines: seq<Line>, kids: seq<StatementNode>): seq<Line>
  {
    if lines == [] then []
    else (if forall j :: 0 <= j < |kids| ==> !Inside(lines[0], kids[j]) then [lines[0]] else []) + OutsideAll(lines[1..], kids)
  }

  /** Line numbers strictly increase. */
  predicate Increasing(lines: seq<Line>) {
    forall i, j :: 0 <= i < j < |lines| ==> lines[i].number < lines[j].number
  }

  /** Child ranges are well formed and follow one another without overlap. */
  predicate Disjoint(kids: seq<StatementNode>) {
    (forall i :: 0 <= i < |kids| ==> kids[i].startLine <= kids[i].endLine) &&
    (forall i :: 0 <= i < |kids| - 1 ==> kids[i].endLine < kids[i + 1].startLine)
  }

  lemma {:induction false} DisjointStartsIncrease(kids: seq<StatementNode>, i: nat, j: nat)
    requires Disjoint(kids) && i < j < |kids|
    ensures kids[i].endLine < kids[j].startLine
    decreases j - i
  {
    if j > i + 1 {
      DisjointStartsIncrease(kids, i + 1, j);
    }
  }

  lemma {:induction false} OutsideAllAppend(a: seq<Line>, b: seq<Line>, kids: seq<StatementNode>)
    ensures OutsideAll(a + b, kids) == OutsideAll(a, kids) + OutsideAll(b, kids)
  {
    if a != [] {
      assert (a + b)[0] == a[0] && (a + b)[1..] == a[1..] + b;
      OutsideAllAppend(a[1..], b, kids);
    } else {
      assert a + b == b;
    }
  }

  lemma {:induction false} OutsideAllOfInside(lines: seq<Line>, kids: seq<StatementNode>)
    requires kids != []
    requires forall i :: 0 <= i < |lines| ==> Inside(lines[i], kids[0])
    ensures OutsideAll(lines, kids) == []
  {
    if lines != [] {
      OutsideAllOfInside(lines[1..], kids);
    }
  }

  lemma {:induction false} OutsideAllDropFirst(lines: seq<Line>, kids: seq<StatementNode>)
    requires kids != []
    requires forall i :: 0 <= i < |lines| ==> !Inside(lines[i], kids[0])
    ensures OutsideAll(lines, kids) == OutsideAll(lines, kids[1..])
  {
    if lines != [] {
      OutsideAllDropFirst(lines[1..], kids);
      var l := lines[0];
      assert (forall j :: 0 <= j < |kids| ==> !Inside(l, kids[j]))
          <==> (forall j :: 0 <= j < |kids[1..]| ==> !Inside(l, kids[1..][j])) by {
        if forall j :: 0 <= j < |kids[1..]| ==> !Inside(l, kids[1..][j]) {
          forall j | 0 <= j < |kids| ensures !Inside(l, kids[j]) {
            if j > 0 { assert kids[j] == kids[1..][j - 1]; }
          }
        }
      }
    }
  }

  lemma {:induction false} IncreasingSuffix(lines: seq<Line>, k: nat)
    requires Increasing(lines) && k <= |lines|
    ensures Increasing(lines[k..])
  {
    var t := lines[k..];
    forall i, j | 0 <= i < j < |t| ensures t[i].number < t[j].number {
      assert t[i] == lines[k + i] && t[j] == lines[k + j];
    }
  }

  lemma {:induction false} DisjointTail(kids: seq<StatementNode>)
    requires Disjoint(kids) && kids != []
    ensures Disjoint(kids[1..])
  {
    var t := kids[1..];
    forall i | 0 <= i < |t| - 1 ensures t[i].endLine < t[i + 1].startLine {
      assert t[i] == kids[i + 1] && t[i + 1] == kids[i + 2];
    }
  }

  /** The lines a child covers are all inside it, and what follows them is
      outside it: skipping them leaves the lines outside the other children. */
  lemma {:induction false} OutsideAfterSkip(lines: seq<Line>, kids: seq<StatementNode>)
    requires Increasing(lines) && kids != []
    requires lines != [] ==> lines[0].number >= kids[0].startLine
    ensures OutsideAll(lines, kids) == OutsideAll(SkipThrough(lines, kids[0].endLine), kids[1..])
  {
    var e := kids[0].endLine;
    var rest := SkipThrough(lines, e);
    SkipThroughShape(lines, e);
    var n := |lines| - |rest|;
    var dropped := lines[..n];
    assert lines == dropped + rest;
    forall i | 0 <= i < |dropped| ensures Inside(dropped[i], kids[0]) {
      if i > 0 { assert lines[0].number < lines[i].number; }
    }
    OutsideAllOfInside(dropped, kids);
    forall i | 0 <= i < |rest| ensures !Inside(rest[i], kids[0]) {
      if i > 0 {
        assert rest[0] == lines[n] && rest[i] == lines[n + i];
      }
    }
    OutsideAllDropFirst(rest, kids);
    OutsideAllAppend(dropped, rest, kids);
  }

  /** For increasing parent lines and disjoint children sorted by start, the
      compact code copies exactly the parent lines outside every child
      range, in order. */
  lemma {:induction false} CopiedLinesAreOutsideChildren(lines: seq<Line>, kids: seq<StatementNode>)
    requires Increasing(lines) && Disjoint(kids)
    ensures CopiedLines(CompactPieces(lines, kids)) == OutsideAll(lines, kids)
    decreases |lines| + |kids|
  {
    if kids == [] {
      CopyAllPieces(lines);
      OutsideAllNoKids(lines);
    } else if lines != [] && lines[0].number < kids[0].startLine {
      IncreasingSuffix(lines, 1);
      CopiedLinesAreOutsideChildren(lines[1..], kids);
      CopiedCons(Copied(lines[0]), CompactPieces(lines[1..], kids));
      forall j | 0 <= j < |kids| ensures !Inside(lines[0], kids[j]) {
        if j > 0 { DisjointStartsIncrease(kids, 0, j); }
      }
    } else {
      var rest := SkipThrough(lines, kids[0].endLine);
      SkipThroughShape(lines, kids[0].endLine);
      IncreasingSuffix(lines, |lines| - |rest|);
      DisjointTail(kids);
      CopiedLinesAreOutsideChildren(rest, kids[1..]);
      CopiedCons(Replaced(kids[0]), CompactPieces(rest, kids[1..]));
      OutsideAfterSkip(lines, kids);
    }
  }

  lemma {:induction false} OutsideAllNoKids(lines: seq<Line>)
    ensures OutsideAll(lines, []) == lines
  {
    if lines != [] {
      OutsideAllNoKids(lines[1..]);
    }
  }

  // ===== analysis batches =====

  datatype Range = Range(startLine: int, endLine: int)

  datatype DmlRange = DmlRange(startLine: int, endLine: int, nodeType: string)

  /** AnalysisBatch; `nodes` are snapshots taken when the batch is planned,
      whose ids point into the arena. */
  datatype AnalysisBatch = AnalysisBatch(
    batchId: nat,
    nodes: seq<StatementNode>,
    ranges: seq<Range>,
    dmlRanges: seq<DmlRange>,
    progressLine: int)

  function MaxEnd(nodes: seq<StatementNode>): (m: int)
    requires nodes != []
    ensures forall i :: 0 <= i < |nodes| ==> nodes[i].endLine <= m
    ensures exists i :: 0 <= i < |nodes| && nodes[i].endLine == m
  {
    if |nodes| == 1 then nodes[0].endLine
    else
      var m := MaxEnd(nodes[1..]);
      assert forall i :: 1 <= i < |nodes| ==> nodes[i] == nodes[1..][i - 1];
      if nodes[0].endLine >= m then nodes[0].endLine else m
  }

  function RangesOf(nodes: seq<StatementNode>): (r: seq<Range>)
    ensures |r| == |nodes|
    ensures forall i :: 0 <= i < |nodes| ==> r[i] == Range(nodes[i].startLine, nodes[i].endLine)
  {
    seq(|nodes|, i requires 0 <= i < |nodes| => Range(nodes[i].startLine, nodes[i].endLine))
  }

  /** The DML nodes, in order. */
  function DmlNodes(nodes: seq<StatementNode>): (r: seq<StatementNode>)
    ensures |r| <= |nodes|
    ensures forall k :: 0 <= k < |r| ==> r[k].dml && r[k] in nodes
    ensures r == [] <==> forall i :: 0 <= i < |nodes| ==> !nodes[i].dml
  {
    if nodes == [] then []
    else
      var front := nodes[..|nodes| - 1];
      assert forall i :: 0 <= i < |front| ==> front[i] == nodes[i];
      DmlNodes(front) + (if nodes[|nodes| - 1].dml then [nodes[|nodes| - 1]] else [])
  }

  function DmlRangesOf(nodes: seq<StatementNode>): (r: seq<DmlRange>)
    ensures |r| == |nodes|
    ensures forall i :: 0 <= i < |nodes| ==> r[i] == DmlRange(nodes[i].startLine, nodes[i].endLine, nodes[i].nodeType)
  {
    seq(|nodes|, i requires 0 <= i < |nodes| => DmlRange(nodes[i].startLine, nodes[i].endLine, nodes[i].nodeType))
  }

  /** _create_batch: the ranges of all nodes, the ranges of the DML nodes in
      order, and the largest end line as progress line. */
  function CreateBatch(batchId: nat, nodes: seq<StatementNode>): (b: AnalysisBatch)
    requires nodes != []
    ensures b.batchId == batchId && b.nodes == nodes
    ensures |b.ranges| == |nodes|
    ensures forall i :: 0 <= i < |nodes| ==> b.ranges[i] == Range(nodes[i].startLine, nodes[i].endLine)
    ensures b.dmlRanges == DmlRangesOf(DmlNodes(nodes))
    ensures forall i :: 0 <= i < |nodes| ==> nodes[i].endLine <= b.progressLine
    ensures exists i :: 0 <= i < |nodes| && nodes[i].endLine == b.progressLine
  {
    AnalysisBatch(batchId, nodes, RangesOf(nodes), DmlRangesOf(DmlNodes(nodes)), MaxEnd(nodes))
  }

  // ===== payloads and the two LLM calls =====

  /** The arena entries of the given child ids (ids outside the arena are
      not children of any collected node). */
  function ChildrenOf(arena: seq<StatementNode>, ids: seq<nat>): (r: seq<StatementNode>)
    ensures |r| <= |ids|
  {
    if ids == [] then []
    else (if 1 <= ids[0] <= |arena| then [arena[ids[0] - 1]] else []) + ChildrenOf(arena, ids[1..])
  }

  function CompactCodes(batchNodes: seq<StatementNode>, arena: seq<StatementNode>): (r: seq<string>)
    ensures |r| == |batchNodes|
  {
    seq(|batchNodes|, i requires 0 <= i < |batchNodes| => CompactCode(batchNodes[i], ChildrenOf(arena, batchNodes[i].children)))
  }

  /** build_general_payload: the compact codes of the batch nodes, separated
      by blank lines; the children are read from the arena, where their
      summaries live. */
  function GeneralPayload(batch: AnalysisBatch, arena: seq<StatementNode>): string
  {
    Join(CompactCodes(batch.nodes, arena), "\n\n")
  }

  function RawCodes(nodes: seq<StatementNode>): (r: seq<string>)
    ensures |r| == |nodes|
    ensures forall i :: 0 <= i < |nodes| ==> r[i] == RawCode(nodes[i].lines)
  {
    seq(|nodes|, i requires 0 <= i < |nodes| => RawCode(nodes[i].lines))
  }

  /** build_dml_payload: None without DML nodes, otherwise their raw codes
      separated by blank lines. */
  function DmlPayload(batch: AnalysisBatch): (r: Option<string>)
    ensures r.None? <==> forall i :: 0 <= i < |batch.nodes| ==> !batch.nodes[i].dml
  {
    var dmlNodes := DmlNodes(batch.nodes);
    if dmlNodes == [] then
      None
    else
      Some(Join(RawCodes(dmlNodes), "\n\n"))
  }

  /** Which of the two LLM calls LLMInvoker.invoke makes: the general call
      when the batch has ranges, the table call when the DML payload is a
      non-empty string and there are DML ranges. */
  datatype Calls = Calls(general: bool, table: bool)

  function InvokedCalls(batch: AnalysisBatch): Calls
  {
    var payload := DmlPayload(batch);
    Calls(batch.ranges != [], payload.Some? && payload.value != [] && batch.dmlRanges != [])
  }

  lemma {:induction false} JoinNonEmpty(parts: seq<string>, sep: string)
    requires parts != [] && parts[0] != []
    ensures Join(parts, sep) != []
  {
    if |parts| > 1 {
      assert Join(parts, sep) == parts[0] + sep + Join(parts[1..], sep);
    }
  }

  lemma {:induction false} DmlPayloadNotEmpty(batch: AnalysisBatch)
    requires DmlNodes(batch.nodes) != [] && DmlNodes(batch.nodes)[0].lines != []
    ensures DmlPayload(batch).Some? && DmlPayload(batch).value != []
  {
    var d := DmlNodes(batch.nodes);
    var raws := RawCodes(d);
    var first := NumberedLines(d[0].lines);
    assert first[0] != [];
    JoinNonEmpty(first, "\n");
    JoinNonEmpty(raws, "\n\n");
  }

  /** For a planned batch the general call is always made, and the table
      call is made exactly when the batch holds a DML node, provided the
      first DML node has at least one line. */
  lemma {:induction false} InvokedCallsOfPlannedBatch(batchId: nat, nodes: seq<StatementNode>)
    requires nodes != []
    requires DmlNodes(nodes) != [] ==> DmlNodes(nodes)[0].lines != []
    ensures InvokedCalls(CreateBatch(batchId, nodes)).general
    ensures InvokedCalls(CreateBatch(batchId, nodes)).table <==> exists i :: 0 <= i < |nodes| && nodes[i].dml
  {
    var b := CreateBatch(batchId, nodes);
    if DmlNodes(nodes) != [] {
      DmlPayloadNotEmpty(b);
    }
  }
}
