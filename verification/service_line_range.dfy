/** find_service_line_ranges of convert/add_service_line_range.py: for each
    Java node of an object, the block of its Java code is searched for in the
    lines of the generated service file, comparing stripped lines and
    skipping blank ones, and the first place it is found is recorded as the
    node's `java_range`. Reading the file and the nodes and building the
    Cypher text are not modelled: the file's lines and the nodes are inputs
    and an update carries the four numbers its query sets and matches. The
    specification functions take the file's lines already stripped (the
    `file` of SkipBlank, MatchFrom and LocateFrom is `Stripped` of the
    file); the methods strip each line as they reach it. */
module ServiceLineRange {

  import opened Wrappers
  import opened Text

  /** A Java node: the lines of its Java code (`splitlines()`, which is
      empty exactly when the code is falsy) and its PL/SQL lines. */
  datatype JavaNode = JavaNode(javaCode: seq<string>, startLine: int, endLine: int)

  /** One update query: the node is found by its `startLine` and `endLine`,
      and `java_range` is set to `javaStart~javaEnd`. */
  datatype RangeUpdate = RangeUpdate(startLine: int, endLine: int, javaStart: int, javaEnd: int)

  /** The 1-based line where a block was found and the recorded end. */
  datatype Span = Span(start: int, end: int)

  /** The error the whole call fails with: a Java code whose lines are all
      blank has no first line. */
  const ExtractJavaLineError := "ExtractJavaLineError"

  /** The lines, each stripped (`l.strip()`). */
  function Stripped(lines: seq<string>): (r: seq<string>)
    ensures |r| == |lines|
  {
    if lines == [] then [] else [Strip(lines[0])] + Stripped(lines[1..])
  }

  lemma {:induction false} StrippedAt(lines: seq<string>, k: nat)
    requires k < |lines|
    ensures Stripped(lines)[k] == Strip(lines[k])
  {
    if k > 0 {
      StrippedAt(lines[1..], k - 1);
    }
  }

  /** The stripped lines that are not empty: with `Stripped`,
      `[l.strip() for l in lines if l.strip()]`. */
  function NonBlank(lines: seq<string>): (r: seq<string>)
    ensures |r| <= |lines|
    ensures forall k :: 0 <= k < |r| ==> r[k] != []
  {
    if lines == [] then []
    else (if lines[0] == [] then [] else [lines[0]]) + NonBlank(lines[1..])
  }

  /** The normalised lines of a Java code. */
  function JavaLines(code: seq<string>): seq<string> {
    NonBlank(Stripped(code))
  }

  lemma {:induction false} NonBlankAppend(a: seq<string>, b: seq<string>)
    ensures NonBlank(a + b) == NonBlank(a) + NonBlank(b)
  {
    if a != [] {
      assert (a + b)[1..] == a[1..] + b;
      NonBlankAppend(a[1..], b);
    } else {
      assert a + b == b;
    }
  }

  lemma {:induction false} NonBlankOfBlank(a: seq<string>)
    requires forall k :: 0 <= k < |a| ==> a[k] == []
    ensures NonBlank(a) == []
  {
    if a != [] {
      NonBlankOfBlank(a[1..]);
    }
  }

  /** The skipping loop: the first line at or after `cur` that is not
      blank, or the end of the file. */
  function SkipBlank(file: seq<string>, cur: nat): (c: nat)
    requires cur <= |file|
    ensures cur <= c <= |file|
    ensures forall k :: cur <= k < c ==> file[k] == []
    ensures c < |file| ==> file[c] != []
    decreases |file| - cur
  {
    if cur < |file| && file[cur] == [] then SkipBlank(file, cur + 1) else cur
  }

  /** The matching loop from the 0-based line `cur`: each remaining Java line
      must be the next non-blank file line, stripped; on success, the index
      after the last matched line. */
  function MatchFrom(file: seq<string>, rest: seq<string>, cur: nat): (r: Option<nat>)
    requires cur <= |file|
    ensures r.Some? ==> cur <= r.value <= |file|
    decreases |rest|
  {
    if rest == [] then Some(cur)
    else
      var c := SkipBlank(file, cur);
      if c >= |file| || file[c] != rest[0] then None
      else MatchFrom(file, rest[1..], c + 1)
  }

  /** The lines `cur..e` (0-based, `e` excluded) hold the Java lines `rest`:
      stripped and without the blank ones they are `rest`, and they end on a
      non-blank line (or are empty when `rest` is). */
  ghost predicate Block(file: seq<string>, cur: nat, e: nat, rest: seq<string>) {
    && cur <= e <= |file|
    && NonBlank(file[cur..e]) == rest
    && (if rest == [] then e == cur else file[e - 1] != [])
  }

  /** The blank lines the skipping loop passes add nothing. */
  lemma {:induction false} SkipBlankNonBlank(file: seq<string>, cur: nat, e: nat)
    requires cur <= e <= |file|
    ensures var c := SkipBlank(file, cur);
            c <= e ==> NonBlank(file[cur..e]) == NonBlank(file[c..e])
  {
    var c := SkipBlank(file, cur);
    if c <= e {
      assert file[cur..e] == file[cur..c] + file[c..e];
      NonBlankAppend(file[cur..c], file[c..e]);
      NonBlankOfBlank(file[cur..c]);
    }
  }

  lemma {:induction false} NonBlankCons(file: seq<string>, c: nat, e: nat)
    requires c < e <= |file| && file[c] != []
    ensures NonBlank(file[c..e]) == [file[c]] + NonBlank(file[c + 1..e])
  {
    assert file[c..e][0] == file[c] && file[c..e][1..] == file[c + 1..e];
  }

  lemma {:induction false} NonBlankLast(t: seq<string>)
    requires t != [] && t[|t| - 1] != []
    ensures NonBlank(t) != []
  {
    assert t == t[..|t| - 1] + [t[|t| - 1]];
    NonBlankAppend(t[..|t| - 1], [t[|t| - 1]]);
  }

  /** When the matching loop succeeds, ending at `e`, the lines from `cur`
      to `e` hold the remaining Java lines. */
  lemma {:induction false} MatchFromSound(file: seq<string>, rest: seq<string>, cur: nat)
    requires cur <= |file| && MatchFrom(file, rest, cur).Some?
    ensures Block(file, cur, MatchFrom(file, rest, cur).value, rest)
    decreases |rest|
  {
    if rest != [] {
      var c := SkipBlank(file, cur);
      var e := MatchFrom(file, rest, cur).value;
      MatchFromSound(file, rest[1..], c + 1);
      SkipBlankNonBlank(file, cur, e);
      NonBlankCons(file, c, e);
      assert rest == [rest[0]] + rest[1..];
    }
  }

  /** When the lines from `cur` to `e` hold the remaining Java lines, the
      matching loop succeeds and ends at `e`. */
  lemma {:induction false} MatchFromComplete(file: seq<string>, rest: seq<string>, cur: nat, e: nat)
    requires cur <= |file| && Block(file, cur, e, rest)
    ensures MatchFrom(file, rest, cur) == Some(e)
    decreases |rest|
  {
    if rest == [] {
      assert e == cur;
    } else {
      var c := SkipBlank(file, cur);
      if c >= e {
        assert false;
      }
      assert MatchFrom(file, rest, cur) == if file[c] != rest[0] then None else MatchFrom(file, rest[1..], c + 1);
      SkipBlankNonBlank(file, cur, e);
      NonBlankCons(file, c, e);
      assert rest == [file[c]] + NonBlank(file[c + 1..e]);
      assert rest[0] == file[c] && rest[1..] == NonBlank(file[c + 1..e]);
      if rest[1..] == [] && e != c + 1 {
        NonBlankLast(file[c + 1..e]);
        assert false;
      }
      assert Block(file, c + 1, e, rest[1..]);
      MatchFromComplete(file, rest[1..], c + 1, e);
      assert MatchFrom(file, rest, cur) == MatchFrom(file, rest[1..], c + 1);
    }
  }

  /** The matching loop succeeds, ending at `e`, exactly when the lines from
      `cur` to `e` hold the remaining Java lines. */
  lemma {:induction false} MatchFromIffBlock(file: seq<string>, rest: seq<string>, cur: nat, e: nat)
    requires cur <= |file|
    ensures MatchFrom(file, rest, cur) == Some(e) <==> Block(file, cur, e, rest)
  {
    if MatchFrom(file, rest, cur) == Some(e) {
      MatchFromSound(file, rest, cur);
    }
    if Block(file, cur, e, rest) {
      MatchFromComplete(file, rest, cur, e);
    }
  }

  /** The Java block starts at the 1-based file line `i`. */
  predicate StartsAt(file: seq<string>, lines: seq<string>, i: nat)
    requires lines != [] && 1 <= i <= |file|
  {
    file[i - 1] == lines[0] && MatchFrom(file, lines[1..], i).Some?
  }

  /** The search from the 1-based line `i`: the first line where the block
      starts, with the recorded end `current_line - 1`. */
  function LocateFrom(file: seq<string>, lines: seq<string>, i: nat): Option<Span>
    requires lines != [] && 1 <= i
    decreases |file| + 1 - i
  {
    if i > |file| then None
    else if StartsAt(file, lines, i) then Some(Span(i, MatchFrom(file, lines[1..], i).value - 1))
    else LocateFrom(file, lines, i + 1)
  }

  /** The search stops at the first 1-based line `s` from `i` on where the
      block starts, recording one below the index after the matched lines;
      no result means the block starts nowhere from line `i` on. */
  lemma {:induction false} LocateFromFirst(file: seq<string>, lines: seq<string>, i: nat)
    requires lines != [] && 1 <= i
    ensures var r := LocateFrom(file, lines, i);
            && (r.Some? ==> var s := r.value.start;
                  && i <= s <= |file| && StartsAt(file, lines, s)
                  && (forall k :: i <= k < s ==> !StartsAt(file, lines, k))
                  && r.value.end == MatchFrom(file, lines[1..], s).value - 1)
            && (r.None? ==> forall k :: i <= k <= |file| ==> !StartsAt(file, lines, k))
    decreases |file| + 1 - i
  {
    if i <= |file| && !StartsAt(file, lines, i) {
      LocateFromFirst(file, lines, i + 1);
    }
  }

  /** Where the block starts at line `s`, the stripped, non-blank lines `s`
      to `e + 1` are the Java lines and line `e + 1` is not blank, `e` being
      the end the search records. */
  lemma {:induction false} StartsAtBlock(file: seq<string>, lines: seq<string>, s: nat)
    requires lines != [] && lines[0] != [] && 1 <= s <= |file| && StartsAt(file, lines, s)
    ensures var e := MatchFrom(file, lines[1..], s).value - 1;
            && s - 1 <= e < |file|
            && NonBlank(file[s - 1..e + 1]) == lines
            && file[e] != []
  {
    var e := MatchFrom(file, lines[1..], s).value;
    MatchFromSound(file, lines[1..], s);
    NonBlankCons(file, s - 1, e);
    assert lines == [lines[0]] + lines[1..];
  }

  /** The search finds the first 1-based line `s` from which the block
      starts, and records as its end the number one below that of the
      block's last line: the stripped, non-blank lines `s` to `e + 1` are
      the Java lines, and line `e + 1` is not blank. No search result means
      the block starts nowhere. */
  lemma {:induction false} LocateSpec(file: seq<string>, lines: seq<string>)
    requires lines != [] && lines[0] != []
    ensures var r := LocateFrom(file, lines, 1);
            && (r.Some? ==> var s, e := r.value.start, r.value.end;
                  && 1 <= s <= |file| && StartsAt(file, lines, s)
                  && (forall k :: 1 <= k < s ==> !StartsAt(file, lines, k))
                  && s - 1 <= e < |file|
                  && NonBlank(file[s - 1..e + 1]) == lines
                  && file[e] != [])
            && (r.None? ==> forall k :: 1 <= k <= |file| ==> !StartsAt(file, lines, k))
  {
    LocateFromFirst(file, lines, 1);
    var r := LocateFrom(file, lines, 1);
    if r.Some? {
      StartsAtBlock(file, lines, r.value.start);
    }
  }

  /** A one-line block found at line `s` is recorded as `s~s-1`. */
  lemma {:induction false} OneLineBlockEnd(file: seq<string>, line: string)
    requires line != []
    ensures var r := LocateFrom(file, [line], 1);
            r.Some? ==> r.value.end == r.value.start - 1
  {
    OneLineBlockEndFrom(file, line, 1);
  }

  lemma {:induction false} OneLineBlockEndFrom(file: seq<string>, line: string, i: nat)
    requires line != [] && 1 <= i
    ensures var r := LocateFrom(file, [line], i);
            r.Some? ==> r.value.end == r.value.start - 1
    decreases |file| + 1 - i
  {
    if i <= |file| && !StartsAt(file, [line], i) {
      OneLineBlockEndFrom(file, line, i + 1);
    }
  }

  /** One node: a falsy Java code is skipped; a Java code with only blank
      lines fails; otherwise the block is searched for. */
  function NodeUpdate(file: seq<string>, n: JavaNode): Result<Option<RangeUpdate>> {
    if n.javaCode == [] then Ok(None)
    else
      var lines := JavaLines(n.javaCode);
      if lines == [] then Err(ExtractJavaLineError)
      else
        match LocateFrom(file, lines, 1)
        case None => Ok(None)
        case Some(span) => Ok(Some(RangeUpdate(n.startLine, n.endLine, span.start, span.end)))
  }

  function OptionToSeq<T>(o: Option<T>): seq<T> {
    if o.Some? then [o.value] else []
  }

  /** A node gets an update exactly when its code has a non-blank line and
      its block is found; the update names the node's own lines and a
      block whose stripped, non-blank lines are the node's Java lines. */
  lemma {:induction false} NodeUpdateSpec(file: seq<string>, n: JavaNode)
    ensures var r := NodeUpdate(file, n);
            var lines := JavaLines(n.javaCode);
            && (r == Ok(None) <==>
                  (n.javaCode == [] || (lines != [] && forall k :: 1 <= k <= |file| ==> !StartsAt(file, lines, k))))
            && (r.Ok? && r.value.Some? ==> var u := r.value.value;
                  && u.startLine == n.startLine && u.endLine == n.endLine
                  && 1 <= u.javaStart <= u.javaEnd + 1 <= |file|
                  && NonBlank(file[u.javaStart - 1..u.javaEnd + 1]) == lines)
  {
    var lines := JavaLines(n.javaCode);
    if n.javaCode != [] && lines != [] {
      LocateSpec(file, lines);
    }
  }

  /** The per-node outcomes gathered in order: the first failure aborts the
      whole call, otherwise the updates found, one at most per node. */
  function Collect(rs: seq<Result<Option<RangeUpdate>>>): Result<seq<RangeUpdate>> {
    if rs == [] then Ok([])
    else
      match rs[0]
      case Err(m) => Err(m)
      case Ok(u) =>
        match Collect(rs[1..])
        case Err(m) => Err(m)
        case Ok(us) => Ok(OptionToSeq(u) + us)
  }

  /** The outcome of every node. */
  function Outcomes(file: seq<string>, nodes: seq<JavaNode>): (rs: seq<Result<Option<RangeUpdate>>>)
    ensures |rs| == |nodes|
  {
    seq(|nodes|, k requires 0 <= k < |nodes| => NodeUpdate(file, nodes[k]))
  }

  /** The updates of the nodes, in order, or the error of the first node
      that fails. */
  function Updates(file: seq<string>, nodes: seq<JavaNode>): Result<seq<RangeUpdate>> {
    Collect(Outcomes(file, nodes))
  }

  /** Gathering fails exactly when some outcome is a failure, and then with
      the message of the first failure; otherwise there is at most one
      update per outcome. */
  lemma {:induction false} CollectSpec(rs: seq<Result<Option<RangeUpdate>>>)
    ensures var r := Collect(rs);
            && (r.Err? <==> exists k :: 0 <= k < |rs| && rs[k].Err?)
            && (r.Err? ==> exists k :: 0 <= k < |rs| && rs[k].Err? && rs[k].message == r.message
                             && forall j :: 0 <= j < k ==> rs[j].Ok?)
            && (r.Ok? ==> |r.value| <= |rs|)
  {
    if rs != [] {
      CollectSpec(rs[1..]);
      if exists k :: 0 <= k < |rs| && rs[k].Err? {
        var k :| 0 <= k < |rs| && rs[k].Err?;
        if k > 0 {
          assert rs[1..][k - 1] == rs[k];
        }
      }
      if rs[0].Ok? && Collect(rs[1..]).Err? {
        var k :| 0 <= k < |rs| - 1 && rs[1..][k].Err? && rs[1..][k].message == Collect(rs[1..]).message
                 && forall j :: 0 <= j < k ==> rs[1..][j].Ok?;
        assert rs[k + 1] == rs[1..][k];
        forall j | 0 <= j < k + 1 ensures rs[j].Ok? {
          if j > 0 {
            assert rs[j] == rs[1..][j - 1];
          }
        }
      }
    }
  }

  /** A node fails exactly when its Java code is not empty but every line of
      it is blank. */
  predicate Unreadable(n: JavaNode) {
    n.javaCode != [] && JavaLines(n.javaCode) == []
  }

  /** A node's outcome is a failure exactly when its code is unreadable,
      and the failure is ExtractJavaLineError. */
  lemma {:induction false} NodeUpdateErr(file: seq<string>, n: JavaNode)
    ensures NodeUpdate(file, n).Err? <==> Unreadable(n)
    ensures NodeUpdate(file, n).Err? ==> NodeUpdate(file, n) == Err(ExtractJavaLineError)
  {
  }

  /** The call fails exactly when some node's Java code is unreadable, and
      then with ExtractJavaLineError and no update at all; otherwise there
      is at most one update per node. */
  lemma {:induction false} UpdatesSpec(file: seq<string>, nodes: seq<JavaNode>)
    ensures var r := Updates(file, nodes);
            && (r.Err? <==> exists k :: 0 <= k < |nodes| && Unreadable(nodes[k]))
            && (r.Err? ==> r == Err(ExtractJavaLineError))
            && (r.Ok? ==> |r.value| <= |nodes|)
  {
    var rs := Outcomes(file, nodes);
    CollectSpec(rs);
    forall k | 0 <= k < |nodes|
      ensures rs[k].Err? <==> Unreadable(nodes[k])
      ensures rs[k].Err? ==> rs[k] == Err(ExtractJavaLineError)
    {
      NodeUpdateErr(file, nodes[k]);
    }
  }

  // ===== the loops =====

  /** The skipping and matching loops for a first line found at the 1-based
      line `i`: `isMatch` and the final `current_line`. */
  method MatchBlock(file: seq<string>, javaLines: seq<string>, i: nat) returns (isMatch: bool, current: nat)
    requires javaLines != [] && 1 <= i <= |file|
    ensures isMatch <==> MatchFrom(Stripped(file), javaLines[1..], i).Some?
    ensures isMatch ==> current == MatchFrom(Stripped(file), javaLines[1..], i).value
  {
    ghost var sl := Stripped(file);
    isMatch := true;
    current := i;
    var rest := javaLines[1..];
    for k := 0 to |rest|
      invariant current <= |file|
      invariant MatchFrom(sl, rest, i) == MatchFrom(sl, rest[k..], current)
    {
      var javaLine := rest[k];
      ghost var start := current;
      while current < |file| && Strip(file[current]) == []
        invariant start <= current <= |file|
        invariant SkipBlank(sl, start) == SkipBlank(sl, current)
        decreases |file| - current
      {
        StrippedAt(file, current);
        current := current + 1;
      }
      if current < |file| {
        StrippedAt(file, current);
      }
      assert rest[k..][0] == javaLine && rest[k..][1..] == rest[k + 1..];
      if current >= |file| || Strip(file[current]) != javaLine {
        isMatch := false;
        return;
      }
      current := current + 1;
    }
  }

  /** The search over the file's lines, numbered from 1: the first match
      and its recorded end. */
  method FindBlock(file: seq<string>, javaLines: seq<string>) returns (found: Option<Span>)
    requires javaLines != []
    ensures found == LocateFrom(Stripped(file), javaLines, 1)
  {
    ghost var sl := Stripped(file);
    for i := 1 to |file| + 1
      invariant LocateFrom(sl, javaLines, 1) == LocateFrom(sl, javaLines, i)
    {
      StrippedAt(file, i - 1);
      if Strip(file[i - 1]) != javaLines[0] {
        continue;
      }
      var isMatch, current := MatchBlock(file, javaLines, i);
      if isMatch {
        ghost var m := MatchFrom(sl, javaLines[1..], i);
        assert m.Some? && m.value == current;
        assert StartsAt(sl, javaLines, i);
        found := Some(Span(i, current - 1));
        return;
      }
    }
    assert LocateFrom(sl, javaLines, |file| + 1) == None;
    return None;
  }

  /** The body of the loop over the nodes: the node's update, if its block
      is found, or the failure of a code with only blank lines. */
  method NodeRange(file: seq<string>, node: JavaNode) returns (r: Result<Option<RangeUpdate>>)
    ensures r == NodeUpdate(Stripped(file), node)
  {
    if node.javaCode == [] {
      return Ok(None);
    }
    var javaLines := JavaLines(node.javaCode);
    if javaLines == [] {
      return Err(ExtractJavaLineError);
    }
    var found := FindBlock(file, javaLines);
    if found.Some? {
      return Ok(Some(RangeUpdate(node.startLine, node.endLine, found.value.start, found.value.end)));
    }
    return Ok(None);
  }

  /** find_service_line_ranges: the update queries, in node order, or the
      error that aborts the whole call. */
  method FindServiceLineRanges(file: seq<string>, nodes: seq<JavaNode>) returns (r: Result<seq<RangeUpdate>>)
    ensures r == Updates(Stripped(file), nodes)
  {
    ghost var rs := Outcomes(Stripped(file), nodes);
    var updates: seq<RangeUpdate> := [];
    assert rs[0..] == rs;
    assert Collect(rs).Ok? ==> [] + Collect(rs).value == Collect(rs).value;
    for k := 0 to |nodes|
      invariant Collect(rs) == Prepend(updates, Collect(rs[k..]))
    {
      var outcome := NodeRange(file, nodes[k]);
      assert rs[k..][0] == outcome && rs[k..][1..] == rs[k + 1..];
      if outcome.Err? {
        return Err(outcome.message);
      }
      PrependAfter(updates, OptionToSeq(outcome.value), Collect(rs[k + 1..]));
      if outcome.value.Some? {
        updates := updates + [outcome.value.value];
      } else {
        assert updates + [] == updates;
      }
    }
    assert rs[|nodes|..] == [] && updates + [] == updates;
    return Ok(updates);
  }

  lemma {:induction false} PrependAfter(us: seq<RangeUpdate>, x: seq<RangeUpdate>, r: Result<seq<RangeUpdate>>)
    ensures Prepend(us, if r.Err? then r else Ok(x + r.value)) == Prepend(us + x, r)
  {
    if r.Ok? {
      assert us + (x + r.value) == us + x + r.value;
    }
  }

  /** The updates gathered so far in front of what the remaining nodes
      give. */
  function Prepend(us: seq<RangeUpdate>, r: Result<seq<RangeUpdate>>): Result<seq<RangeUpdate>> {
    if r.Err? then r else Ok(us + r.value)
  }
}
