/** The string, line-numbering, table-name and variable-range helpers of
    util/utility_tool.py. */
module UtilityTool {

  import opened Wrappers
  import opened Text

  // ===== case conversion =====

  /** `[w.capitalize() for w in words]`. */
  function CapitalizeAll(words: seq<string>): (r: seq<string>)
    ensures |r| == |words|
    ensures forall i :: 0 <= i < |words| ==> r[i] == Capitalize(words[i])
  {
    seq(|words|, i requires 0 <= i < |words| => Capitalize(words[i]))
  }

  /** convert_to_pascal_case: without '_' only the first character is
      upper-cased; otherwise every '_'-separated segment is capitalized and
      the segments are concatenated. */
  function PascalCase(s: string): (r: string)
    ensures '_' !in s ==> |r| == |s| && (s != [] ==> r[0] == ToUpper(s[0]) && r[1..] == s[1..])
  {
    if '_' !in s then (if s == [] then [] else [ToUpper(s[0])] + s[1..])
    else Concat(CapitalizeAll(Split(s, '_')))
  }

  /** convert_to_camel_case: the first segment lower-cased, the others
      capitalized. */
  function CamelCase(s: string): string
  {
    var words := Split(s, '_');
    Lower(words[0]) + Concat(CapitalizeAll(words[1..]))
  }

  /** The string with its first character upper-cased. */
  function UpperFirst(s: string): string
  {
    if s == [] then [] else [ToUpper(s[0])] + s[1..]
  }

  lemma {:induction false} ConcatNoChar(parts: seq<string>, c: char)
    requires forall i :: 0 <= i < |parts| ==> c !in parts[i]
    ensures c !in Concat(parts)
  {
    if parts != [] {
      ConcatNoChar(parts[..|parts| - 1], c);
    }
  }

  lemma {:induction false} CapitalizeNoUnderscore(w: string)
    requires '_' !in w
    ensures '_' !in Capitalize(w)
  {
    if w != [] {
      var r := Capitalize(w);
      forall i | 0 <= i < |r| ensures r[i] != '_' {
        if i > 0 { assert r[i] == ToLower(w[i]); }
      }
    }
  }

  /** With an underscore in the input, the Pascal-case result has none left. */
  lemma {:induction false} PascalCaseDropsUnderscores(s: string)
    requires '_' in s
    ensures '_' !in PascalCase(s)
  {
    var caps := CapitalizeAll(Split(s, '_'));
    forall i | 0 <= i < |caps| ensures '_' !in caps[i] {
      CapitalizeNoUnderscore(Split(s, '_')[i]);
    }
    ConcatNoChar(caps, '_');
  }

  lemma {:induction false} UpperFirstAppend(a: string, b: string)
    requires a != []
    ensures UpperFirst(a + b) == UpperFirst(a) + b
  {
    assert (a + b)[0] == a[0];
    assert (a + b)[1..] == a[1..] + b;
  }

  lemma {:induction false} UpperFirstOfLower(w: string)
    requires w != []
    ensures UpperFirst(Lower(w)) == Capitalize(w)
  {
    UpperOfLower(w[0]);
    assert Lower(w)[1..] == Lower(w[1..]);
  }

  /** With an underscore in the input, the Pascal case is the camel case with
      its first character upper-cased. */
  lemma {:induction false} PascalCaseIsUpperFirstOfCamelCase(s: string)
    requires '_' in s
    ensures PascalCase(s) == UpperFirst(CamelCase(s))
  {
    var words := Split(s, '_');
    var w0 := words[0];
    var caps := CapitalizeAll(words);
    var tailCaps := CapitalizeAll(words[1..]);
    assert caps == [Capitalize(w0)] + tailCaps;
    ConcatCons(Capitalize(w0), tailCaps);
    var rest := Concat(tailCaps);
    assert PascalCase(s) == Capitalize(w0) + rest;
    assert CamelCase(s) == Lower(w0) + rest;
    if w0 == [] {
      if rest != [] {
        CapitalizedConcatStartsUpper(words[1..]);
      }
      UpperFirstEmptyHead(rest);
    } else {
      UpperFirstLowerHead(w0, rest);
    }
  }

  /** An empty first segment: upper-casing the camel case changes nothing. */
  lemma {:induction false} UpperFirstEmptyHead(rest: string)
    requires rest != [] ==> ToUpper(rest[0]) == rest[0]
    ensures UpperFirst(Lower([]) + rest) == Capitalize([]) + rest
  {
    assert Lower([]) + rest == rest;
    assert Capitalize([]) + rest == rest;
  }

  /** A non-empty first segment: upper-casing the camel case capitalizes it. */
  lemma {:induction false} UpperFirstLowerHead(w0: string, rest: string)
    requires w0 != []
    ensures UpperFirst(Lower(w0) + rest) == Capitalize(w0) + rest
  {
    UpperFirstAppend(Lower(w0), rest);
    UpperFirstOfLower(w0);
  }

  lemma {:induction false} CapitalizedConcatStartsUpper(words: seq<string>)
    requires Concat(CapitalizeAll(words)) != []
    ensures ToUpper(Concat(CapitalizeAll(words))[0]) == Concat(CapitalizeAll(words))[0]
  {
    var caps := CapitalizeAll(words);
    assert caps == [Capitalize(words[0])] + CapitalizeAll(words[1..]);
    ConcatCons(Capitalize(words[0]), CapitalizeAll(words[1..]));
    if words[0] == [] {
      CapitalizedConcatStartsUpper(words[1..]);
    }
  }

  /** The characters the loop of convert_to_upper_snake_case emits for one
      character after the first. */
  function SnakeChar(c: char): string
  {
    if IsUpperAscii(c) then ['_', c] else [ToUpper(c)]
  }

  /** The text the loop emits for the characters after the first. */
  function SnakeTail(t: string): string
  {
    if t == [] then [] else SnakeTail(t[..|t| - 1]) + SnakeChar(t[|t| - 1])
  }

  /** What convert_to_upper_snake_case returns. */
  function UpperSnake(s: string): string
  {
    if s == [] then [] else [ToUpper(s[0])] + SnakeTail(s[1..])
  }

  /** convert_to_upper_snake_case, the loop that appends to `result`. */
  method UpperSnakeCase(s: string) returns (r: string)
    ensures r == UpperSnake(s)
  {
    if s == [] {
      return [];
    }
    r := [ToUpper(s[0])];
    var i := 1;
    while i < |s|
      invariant 1 <= i <= |s|
      invariant r == [ToUpper(s[0])] + SnakeTail(s[1..i])
    {
      SnakeTailSnoc(s, i);
      AppendAssoc([ToUpper(s[0])], SnakeTail(s[1..i]), SnakeChar(s[i]));
      r := r + SnakeChar(s[i]);
      i := i + 1;
    }
    assert s[1..i] == s[1..];
  }

  /** One more character of the loop. */
  lemma {:induction false} SnakeTailSnoc(s: string, i: nat)
    requires 1 <= i < |s|
    ensures SnakeTail(s[1..i + 1]) == SnakeTail(s[1..i]) + SnakeChar(s[i])
  {
    var t := s[1..i + 1];
    assert t[..|t| - 1] == s[1..i];
    assert t[|t| - 1] == s[i];
  }

  /** Number of upper-case ASCII letters in `t`. */
  function CountUpper(t: string): nat
  {
    if t == [] then 0 else CountUpper(t[..|t| - 1]) + (if IsUpperAscii(t[|t| - 1]) then 1 else 0)
  }

  /** The output is one character longer per upper-case letter after the first
      character, and holds no lower-case letter. */
  lemma {:induction false} UpperSnakeShape(s: string)
    ensures s == [] ==> UpperSnake(s) == []
    ensures s != [] ==> |UpperSnake(s)| == |s| + CountUpper(s[1..])
    ensures forall i :: 0 <= i < |UpperSnake(s)| ==> !IsLowerAscii(UpperSnake(s)[i])
  {
    if s != [] {
      SnakeTailShape(s[1..]);
    }
  }

  lemma {:induction false} SnakeTailShape(t: string)
    ensures |SnakeTail(t)| == |t| + CountUpper(t)
    ensures forall i :: 0 <= i < |SnakeTail(t)| ==> !IsLowerAscii(SnakeTail(t)[i])
  {
    if t != [] {
      SnakeTailShape(t[..|t| - 1]);
    }
  }

  lemma {:induction false} SnakeTailAppend(a: string, b: string)
    ensures SnakeTail(a + b) == SnakeTail(a) + SnakeTail(b)
    decreases |b|
  {
    if b != [] {
      assert (a + b)[..|a + b| - 1] == a + b[..|b| - 1];
      SnakeTailAppend(a, b[..|b| - 1]);
    } else {
      assert a + b == a;
    }
  }

  /** A segment of a snake-case identifier: a lower-case letter followed by
      lower-case letters and digits. */
  predicate SnakeWord(w: string) {
    w != [] && IsLowerAscii(w[0]) &&
    forall i :: 0 <= i < |w| ==> IsLowerAscii(w[i]) || IsDigit(w[i])
  }

  lemma {:induction false} SnakeTailOfPlain(t: string)
    requires forall i :: 0 <= i < |t| ==> IsLowerAscii(t[i]) || IsDigit(t[i])
    ensures SnakeTail(t) == Upper(t)
  {
    if t != [] {
      SnakeTailOfPlain(t[..|t| - 1]);
      assert Upper(t) == Upper(t[..|t| - 1]) + [ToUpper(t[|t| - 1])];
    }
  }

  lemma {:induction false} CapitalizeSnakeWord(w: string)
    requires SnakeWord(w)
    ensures IsUpperAscii(ToUpper(w[0]))
    ensures Capitalize(w) == [ToUpper(w[0])] + w[1..]
    ensures forall i :: 0 <= i < |w[1..]| ==> IsLowerAscii(w[1..][i]) || IsDigit(w[1..][i])
  {
    var t := w[1..];
    assert forall i :: 0 <= i < |t| ==> IsLowerAscii(t[i]) || IsDigit(t[i]) by {
      forall i | 0 <= i < |t| ensures IsLowerAscii(t[i]) || IsDigit(t[i]) {
        assert t[i] == w[i + 1];
      }
    }
    LowerOfLowerText(t);
  }

  lemma {:induction false} SnakeTailAfterUpper(u: char, t: string)
    requires IsUpperAscii(u)
    ensures SnakeTail([u] + t) == ['_', u] + SnakeTail(t)
  {
    SnakeTailAppend([u], t);
    assert SnakeTail([u]) == SnakeTail([]) + SnakeChar(u);
  }

  lemma {:induction false} UpperCons(c: char, t: string)
    ensures Upper([c] + t) == [ToUpper(c)] + Upper(t)
  {
    UpperAppend([c], t);
  }

  lemma {:induction false} UpperHead(w: string)
    requires w != []
    ensures Upper(w) == [ToUpper(w[0])] + Upper(w[1..])
  {
    assert w == [w[0]] + w[1..];
    UpperCons(w[0], w[1..]);
  }

  lemma {:induction false} SnakeTailOfCapitalized(w: string)
    requires SnakeWord(w)
    ensures SnakeTail(Capitalize(w)) == "_" + Upper(w)
  {
    CapitalizeSnakeWord(w);
    var u := ToUpper(w[0]);
    var t := w[1..];
    SnakeTailAfterUpper(u, t);
    SnakeTailOfPlain(t);
    assert w == [w[0]] + t;
    UpperCons(w[0], t);
    PairPrefix('_', u, Upper(t));
  }

  lemma {:induction false} PairPrefix<T>(a: T, b: T, x: seq<T>)
    ensures [a, b] + x == [a] + ([b] + x)
  {
  }

  /** `"_" + w.upper()` for each word. */
  function Underscored(words: seq<string>): (r: seq<string>)
    ensures |r| == |words|
  {
    seq(|words|, i requires 0 <= i < |words| => "_" + Upper(words[i]))
  }

  lemma {:induction false} SnakeTailOfCapitalizedWords(words: seq<string>)
    requires forall i :: 0 <= i < |words| ==> SnakeWord(words[i])
    ensures SnakeTail(Concat(CapitalizeAll(words))) == Concat(Underscored(words))
  {
    if words != [] {
      var init := words[..|words| - 1];
      var last := words[|words| - 1];
      SnakeTailOfCapitalizedWords(init);
      var cw := CapitalizeAll(words);
      var uw := Underscored(words);
      assert cw[..|cw| - 1] == CapitalizeAll(init);
      assert uw[..|uw| - 1] == Underscored(init);
      assert Concat(cw) == Concat(CapitalizeAll(init)) + Capitalize(last);
      assert Concat(uw) == Concat(Underscored(init)) + ("_" + Upper(last));
      SnakeTailAppend(Concat(CapitalizeAll(init)), Capitalize(last));
      SnakeTailOfCapitalized(last);
    }
  }

  lemma {:induction false} JoinCons(w0: string, words: seq<string>, sep: string)
    requires words != []
    ensures Join([w0] + words, sep) == w0 + sep + Join(words, sep)
  {
    assert ([w0] + words)[1..] == words;
  }

  lemma {:induction false} UnderscoredCons(w1: string, more: seq<string>)
    ensures Concat(Underscored([w1] + more)) == "_" + Upper(w1) + Concat(Underscored(more))
  {
    assert Underscored([w1] + more) == ["_" + Upper(w1)] + Underscored(more);
    ConcatCons("_" + Upper(w1), Underscored(more));
  }

  lemma {:induction false} UpperAroundSep(w0: string, j: string)
    ensures Upper(w0 + "_" + j) == Upper(w0) + "_" + Upper(j)
  {
    UpperAppend(w0 + "_", j);
    UpperAppend(w0, "_");
    assert Upper("_") == "_";
  }

  lemma {:induction false} UpperJoin(w0: string, words: seq<string>)
    ensures Upper(Join([w0] + words, "_")) == Upper(w0) + Concat(Underscored(words))
    decreases |words|
  {
    if words == [] {
      assert [w0] + words == [w0];
    } else {
      var w1 := words[0];
      var more := words[1..];
      assert words == [w1] + more;
      UpperJoin(w1, more);
      JoinCons(w0, words, "_");
      UpperAroundSep(w0, Join(words, "_"));
      UnderscoredCons(w1, more);
    }
  }

  lemma {:induction false} SnakeWordsHaveNoUnderscore(words: seq<string>)
    requires forall i :: 0 <= i < |words| ==> SnakeWord(words[i])
    ensures forall i :: 0 <= i < |words| ==> '_' !in words[i]
  {
    forall i | 0 <= i < |words| ensures '_' !in words[i] {
      var w := words[i];
      assert forall k :: 0 <= k < |w| ==> w[k] != '_' by {
        forall k | 0 <= k < |w| ensures w[k] != '_' {
          assert IsLowerAscii(w[k]) || IsDigit(w[k]);
        }
      }
    }
  }

  lemma {:induction false} CamelOfSnakeWords(words: seq<string>)
    requires |words| >= 1
    requires forall i :: 0 <= i < |words| ==> SnakeWord(words[i])
    ensures CamelCase(Join(words, "_")) == words[0] + Concat(CapitalizeAll(words[1..]))
  {
    SnakeWordsHaveNoUnderscore(words);
    SplitJoin(words, '_');
    var w0 := words[0];
    assert forall k :: 0 <= k < |w0| ==> !IsUpperAscii(w0[k]) by {
      forall k | 0 <= k < |w0| ensures !IsUpperAscii(w0[k]) {
        assert IsLowerAscii(w0[k]) || IsDigit(w0[k]);
      }
    }
    LowerOfLowerText(w0);
  }

  lemma {:induction false} UpperSnakeAppend(a: string, b: string)
    requires a != []
    ensures UpperSnake(a + b) == [ToUpper(a[0])] + SnakeTail(a[1..]) + SnakeTail(b)
  {
    assert (a + b)[0] == a[0];
    assert (a + b)[1..] == a[1..] + b;
    SnakeTailAppend(a[1..], b);
  }

  lemma {:induction false} PlainTail(w: string)
    requires SnakeWord(w)
    ensures forall k :: 0 <= k < |w[1..]| ==> IsLowerAscii(w[1..][k]) || IsDigit(w[1..][k])
  {
    forall k | 0 <= k < |w[1..]| ensures IsLowerAscii(w[1..][k]) || IsDigit(w[1..][k]) {
      assert w[1..][k] == w[k + 1];
    }
  }

  lemma {:induction false} SnakeWordsTail(words: seq<string>)
    requires |words| >= 1
    requires forall i :: 0 <= i < |words| ==> SnakeWord(words[i])
    ensures forall i :: 0 <= i < |words[1..]| ==> SnakeWord(words[1..][i])
  {
    forall i | 0 <= i < |words[1..]| ensures SnakeWord(words[1..][i]) {
      assert words[1..][i] == words[i + 1];
    }
  }

  lemma {:induction false} UpperSnakeOfCamel(words: seq<string>)
    requires |words| >= 1 && words[0] != []
    requires forall i :: 0 <= i < |words| ==> SnakeWord(words[i])
    ensures UpperSnake(CamelCase(Join(words, "_")))
         == [ToUpper(words[0][0])] + Upper(words[0][1..]) + Concat(Underscored(words[1..]))
  {
    var w0 := words[0];
    var rest := words[1..];
    SnakeWordsTail(words);
    CamelOfSnakeWords(words);
    UpperSnakeAppend(w0, Concat(CapitalizeAll(rest)));
    PlainTail(w0);
    SnakeTailOfPlain(w0[1..]);
    SnakeTailOfCapitalizedWords(rest);
  }

  lemma {:induction false} UpperOfJoinedWords(words: seq<string>)
    requires |words| >= 1 && words[0] != []
    ensures Upper(Join(words, "_"))
         == [ToUpper(words[0][0])] + Upper(words[0][1..]) + Concat(Underscored(words[1..]))
  {
    assert [words[0]] + words[1..] == words;
    UpperJoin(words[0], words[1..]);
    UpperHead(words[0]);
  }

  /** Converting a snake-case identifier to camel case and back with
      convert_to_upper_snake_case gives the identifier upper-cased. */
  lemma {:induction false} CamelThenUpperSnake(words: seq<string>)
    requires |words| >= 1
    requires forall i :: 0 <= i < |words| ==> SnakeWord(words[i])
    ensures UpperSnake(CamelCase(Join(words, "_"))) == Upper(Join(words, "_"))
  {
    assert SnakeWord(words[0]);
    UpperSnakeOfCamel(words);
    UpperOfJoinedWords(words);
  }

  // ===== line numbers =====

  /** add_line_numbers: each line prefixed with its 1-based number and ": ";
      the string is the concatenation of the list, without separators. */
  function AddLineNumbers(plsql: seq<string>): (r: (string, seq<string>))
    ensures |r.1| == |plsql|
    ensures forall k :: 0 <= k < |plsql| ==> r.1[k] == NatToString(k + 1) + ": " + plsql[k]
    ensures r.0 == Concat(r.1)
  {
    var numbered := seq(|plsql|, k requires 0 <= k < |plsql| => NatToString(k + 1) + ": " + plsql[k]);
    (Concat(numbered), numbered)
  }

  // ===== table identifiers =====

  /** parse_table_identifier: 'SCHEMA.TABLE@DBLINK' split into its parts;
      the schema is empty when there is no '.', the link absent when there is
      no '@' or nothing after it. */
  function ParseTableIdentifier(q: string): (r: (string, string, Option<string>))
    ensures q == [] ==> r == ([], [], None)
    ensures r.2.Some? ==> r.2.value != []
  {
    if q == [] then ([], [], None)
    else
      var (left, link) := SplitFirst(Strip(q), '@');
      var (s, t) := SplitFirst(left, '.');
      var schema := if t.Some? then Strip(s) else [];
      var table := Strip(if t.Some? then t.value else left);
      (schema, table, if link.Some? && link.value != [] then link else None)
  }

  /** The schema holds neither '.' nor '@', the table no '@', and both come
      back without surrounding white space. */
  lemma {:induction false} ParsedPartsAreClean(q: string)
    ensures var r := ParseTableIdentifier(q);
      '@' !in r.0 && '.' !in r.0 && '@' !in r.1 && Strip(r.0) == r.0 && Strip(r.1) == r.1
  {
    if q != [] {
      var (left, link) := SplitFirst(Strip(q), '@');
      var (s, t) := SplitFirst(left, '.');
      assert '@' !in left;
      if t.Some? {
        assert left == s + ['.'] + t.value;
        assert '@' !in s && '@' !in t.value;
        StripKeepsAbsence(s, '@');
        StripKeepsAbsence(s, '.');
        StripKeepsAbsence(t.value, '@');
        StripIdempotent(s);
        StripIdempotent(t.value);
      } else {
        StripKeepsAbsence(left, '@');
        StripIdempotent(left);
        StripOfNonSpaceEnds([]);
      }
    } else {
      StripOfNonSpaceEnds([]);
    }
  }

  lemma {:induction false} StripKeepsAbsence(s: string, c: char)
    requires c !in s
    ensures c !in Strip(s)
  {
    StripLeftSuffix(s);
    StripRightPrefix(StripLeft(s));
  }

  /** The text 'SCHEMA.TABLE@LINK' (schema and link optional). */
  function TableIdentifier(schema: string, table: string, link: Option<string>): string
  {
    (if schema == [] then [] else schema + ".") + table + (if link.Some? then "@" + link.value else [])
  }

  /** Parsing a well-formed identifier gives back its schema, table and link. */
  lemma {:induction false} ParseTableIdentifierRoundTrip(schema: string, table: string, link: Option<string>)
    requires table != [] && Strip(table) == table && Strip(schema) == schema
    requires '.' !in schema && '@' !in schema && '@' !in table
    requires schema == [] ==> '.' !in table
    requires link.Some? ==> link.value != [] && !IsSpace(link.value[|link.value| - 1])
    ensures ParseTableIdentifier(TableIdentifier(schema, table, link)) == (schema, table, link)
  {
    var q := TableIdentifier(schema, table, link);
    var left := (if schema == [] then [] else schema + ".") + table;
    assert q == left + (if link.Some? then "@" + link.value else []);
    assert table[0] == Strip(table)[0];
    assert table[|table| - 1] == Strip(table)[|table| - 1];
    if schema != [] {
      assert schema[0] == Strip(schema)[0];
    }
    assert left[0] == (if schema == [] then table[0] else schema[0]);
    assert !IsSpace(q[0]) && !IsSpace(q[|q| - 1]);
    StripOfNonSpaceEnds(q);
    assert '@' !in left;
    if link.Some? {
      assert q == left + ['@'] + link.value;
      SplitFirstAt(left, '@', link.value);
    } else {
      assert q == left;
    }
    assert SplitFirst(Strip(q), '@') == (left, link);
    if schema != [] {
      assert left == schema + ['.'] + table;
      SplitFirstAt(schema, '.', table);
      assert SplitFirst(left, '.') == (schema, Some(table));
    } else {
      assert left == table;
      assert SplitFirst(left, '.') == (table, None);
    }
  }

  // ===== variable-range helpers =====

  /** The part of a variable node the helpers read: its name, its type and the
      names of its properties, in property order. */
  datatype VariableNode = VariableNode(name: Option<string>, varType: string, keys: seq<string>)

  predicate Named(v: VariableNode) {
    v.name.Some? && v.name.value != []
  }

  predicate AllDigits(s: string) {
    forall i :: 0 <= i < |s| ==> IsDigit(s[i])
  }

  /** `'_' in key and all(part.isdigit() for part in key.split('_'))`. */
  predicate IsRangeProperty(key: string) {
    var parts := Split(key, '_');
    |parts| >= 2 && forall i :: 0 <= i < |parts| ==> parts[i] != [] && AllDigits(parts[i])
  }

  /** The digits of `s` with its underscores removed. */
  function DropUnderscores(s: string): (r: string)
    ensures '_' !in r
  {
    if s == [] then [] else DropUnderscores(s[..|s| - 1]) + (if s[|s| - 1] == '_' then [] else [s[|s| - 1]])
  }

  lemma {:induction false} DropUnderscoresDigits(s: string)
    requires forall i :: 0 <= i < |s| ==> IsDigit(s[i]) || s[i] == '_'
    ensures AllDigits(DropUnderscores(s))
  {
    if s != [] {
      DropUnderscoresDigits(s[..|s| - 1]);
    }
  }

  lemma {:induction false} SplitPartsDigits(key: string)
    requires IsRangeProperty(key)
    ensures forall i :: 0 <= i < |key| ==> IsDigit(key[i]) || key[i] == '_'
  {
    var parts := Split(key, '_');
    JoinSplit(key, '_');
    JoinPartsChars(parts);
  }

  lemma {:induction false} JoinPartsChars(parts: seq<string>)
    requires forall i :: 0 <= i < |parts| ==> AllDigits(parts[i])
    ensures forall i :: 0 <= i < |Join(parts, "_")| ==> IsDigit(Join(parts, "_")[i]) || Join(parts, "_")[i] == '_'
  {
    if |parts| > 1 {
      JoinPartsChars(parts[1..]);
    }
  }

  lemma {:induction false} RangePropertyHalves(key: string)
    requires IsRangeProperty(key)
    ensures '_' in key
    ensures AllDigits(SplitFirst(key, '_').0)
    ensures AllDigits(DropUnderscores(SplitFirst(key, '_').1.value))
  {
    var parts := Split(key, '_');
    SplitPartsDigits(key);
    assert '_' in key by {
      JoinSplit(key, '_');
      assert Join(parts, "_") == parts[0] + "_" + Join(parts[1..], "_");
      assert key[|parts[0]|] == '_';
    }
    var (s, e) := SplitFirst(key, '_');
    assert key == s + ['_'] + e.value;
    assert AllDigits(s) by {
      forall i | 0 <= i < |s| ensures IsDigit(s[i]) {
        assert key[i] == s[i];
      }
    }
    assert forall i :: 0 <= i < |e.value| ==> IsDigit(e.value[i]) || e.value[i] == '_' by {
      forall i | 0 <= i < |e.value| ensures IsDigit(e.value[i]) || e.value[i] == '_' {
        assert key[|s| + 1 + i] == e.value[i];
      }
    }
    DropUnderscoresDigits(e.value);
  }

  /** The start line and the `"start~end"` key that build_variable_index
      derives from a range property: `int(s)` and `int(e)` of
      `key.split('_', 1)`, where `int` ignores the underscores of `e`. */
  function RangeOfProperty(key: string): (nat, string)
    requires IsRangeProperty(key)
  {
    RangePropertyHalves(key);
    var halves := SplitFirst(key, '_');
    var start := DigitsValue(halves.0);
    (start, NatToString(start) + "~" + NatToString(DigitsValue(DropUnderscores(halves.1.value))))
  }

  /** One entry of the variable index under one start line. */
  datatype IndexEntry = IndexEntry(nodes: map<string, seq<string>>, tokens: Option<nat>)

  /** One append the loops of build_variable_index perform:
      start line, range key, and the text "type: name". */
  datatype IndexItem = IndexItem(start: nat, rangeKey: string, text: string)

  /** The item one range property of a named variable contributes. */
  function PropertyItem(v: VariableNode, key: string): IndexItem
    requires Named(v) && IsRangeProperty(key)
  {
    var range := RangeOfProperty(key);
    IndexItem(range.0, range.1, v.varType + ": " + v.name.value)
  }

  /** The items one variable contributes, for the first `n` of its properties. */
  function PropertyItems(v: VariableNode, n: nat): seq<IndexItem>
    requires Named(v) && n <= |v.keys|
  {
    if n == 0 then []
    else PropertyItems(v, n - 1) + (if IsRangeProperty(v.keys[n - 1]) then [PropertyItem(v, v.keys[n - 1])] else [])
  }

  /** The items all variables contribute, in loop order. */
  function VariableItems(vars: seq<VariableNode>): seq<IndexItem>
  {
    if vars == [] then []
    else
      var v := vars[|vars| - 1];
      VariableItems(vars[..|vars| - 1]) + (if Named(v) then PropertyItems(v, |v.keys|) else [])
  }

  /** The index after appending one item (`setdefault` then `append`). */
  function AddItem(index: map<nat, IndexEntry>, it: IndexItem): map<nat, IndexEntry>
  {
    var entry := if it.start in index then index[it.start] else IndexEntry(map[], None);
    var list := if it.rangeKey in entry.nodes then entry.nodes[it.rangeKey] else [];
    index[it.start := entry.(nodes := entry.nodes[it.rangeKey := list + [it.text]])]
  }

  function AddItems(index: map<nat, IndexEntry>, items: seq<IndexItem>): map<nat, IndexEntry>
  {
    if items == [] then index else AddItem(AddItems(index, items[..|items| - 1]), items[|items| - 1])
  }

  /** The texts of the items filed under one start line and range key, in order. */
  function TextsFor(items: seq<IndexItem>, start: nat, rk: string): seq<string>
  {
    if items == [] then []
    else
      var it := items[|items| - 1];
      TextsFor(items[..|items| - 1], start, rk) + (if it.start == start && it.rangeKey == rk then [it.text] else [])
  }

  /** build_variable_index: for every named variable and every range property
      "s_e", "type: name" is appended under index[s]['nodes']["s~e"]. */
  method BuildVariableIndex(vars: seq<VariableNode>) returns (index: map<nat, IndexEntry>)
    ensures index == AddItems(map[], VariableItems(vars))
  {
    index := map[];
    var i := 0;
    while i < |vars|
      invariant 0 <= i <= |vars|
      invariant index == AddItems(map[], VariableItems(vars[..i]))
    {
      var v := vars[i];
      VariableItemsSnoc(vars, i);
      if Named(v) {
        AddItemsAppend(map[], VariableItems(vars[..i]), PropertyItems(v, |v.keys|));
        index := IndexProperties(index, v);
      } else {
        assert VariableItems(vars[..i]) + [] == VariableItems(vars[..i]);
      }
      i := i + 1;
    }
    assert vars[..i] == vars;
  }

  /** The inner loop of build_variable_index, over the properties of one
      named variable. */
  method IndexProperties(index0: map<nat, IndexEntry>, v: VariableNode) returns (index: map<nat, IndexEntry>)
    requires Named(v)
    ensures index == AddItems(index0, PropertyItems(v, |v.keys|))
  {
    index := index0;
    var j := 0;
    while j < |v.keys|
      invariant 0 <= j <= |v.keys|
      invariant index == AddItems(index0, PropertyItems(v, j))
    {
      var key := v.keys[j];
      if IsRangeProperty(key) {
        var it := PropertyItem(v, key);
        assert PropertyItems(v, j + 1) == PropertyItems(v, j) + [it];
        AddItemsSnoc(index0, PropertyItems(v, j), it);
        index := AddItem(index, it);
      } else {
        assert PropertyItems(v, j + 1) == PropertyItems(v, j) + [];
        assert PropertyItems(v, j) + [] == PropertyItems(v, j);
      }
      j := j + 1;
    }
  }

  lemma {:induction false} AddItemsSnoc(m: map<nat, IndexEntry>, items: seq<IndexItem>, it: IndexItem)
    ensures AddItems(m, items + [it]) == AddItem(AddItems(m, items), it)
  {
    assert (items + [it])[..|items|] == items;
  }

  lemma {:induction false} AddItemsAppend(m: map<nat, IndexEntry>, a: seq<IndexItem>, b: seq<IndexItem>)
    ensures AddItems(m, a + b) == AddItems(AddItems(m, a), b)
    decreases |b|
  {
    if b == [] {
      assert a + b == a;
    } else {
      var init := b[..|b| - 1];
      AddItemsAppend(m, a, init);
      assert a + b == (a + init) + [b[|b| - 1]];
      AddItemsSnoc(m, a + init, b[|b| - 1]);
    }
  }

  lemma {:induction false} VariableItemsSnoc(vars: seq<VariableNode>, i: nat)
    requires i < |vars|
    ensures VariableItems(vars[..i + 1])
         == VariableItems(vars[..i]) + (if Named(vars[i]) then PropertyItems(vars[i], |vars[i].keys|) else [])
  {
    assert vars[..i + 1][..i] == vars[..i];
  }

  /** Every entry of the index lists, under each range key, exactly the texts
      of the items with that start line and key, in order, and its token
      count is still unset. */
  lemma {:induction false} AddItemsContents(items: seq<IndexItem>, start: nat, rk: string)
    ensures start in AddItems(map[], items) <==> exists k :: 0 <= k < |items| && items[k].start == start
    ensures start in AddItems(map[], items) ==> AddItems(map[], items)[start].tokens == None
    ensures start in AddItems(map[], items) ==>
      (if rk in AddItems(map[], items)[start].nodes then AddItems(map[], items)[start].nodes[rk] else [])
        == TextsFor(items, start, rk)
  {
    if items != [] {
      var init := items[..|items| - 1];
      AddItemsContents(init, start, rk);
      if start !in AddItems(map[], init) {
        TextsForAbsent(init, start, rk);
      }
      forall k | 0 <= k < |init| ensures init[k] == items[k] {}
    }
  }

  lemma {:induction false} TextsForAbsent(items: seq<IndexItem>, start: nat, rk: string)
    requires forall k :: 0 <= k < |items| ==> items[k].start != start
    ensures TextsFor(items, start, rk) == []
  {
    if items != [] {
      TextsForAbsent(items[..|items| - 1], start, rk);
    }
  }

  /** How the inner loop of collect_variables_in_range ends for one variable:
      a key inside the range was found, none was, or `map(int, ...)` of a key
      with more than two digit groups raised. */
  datatype Scan = Found | NotFound | Malformed

  /** A range property with exactly two digit groups, "s_e". */
  predicate IsPairProperty(key: string) {
    IsRangeProperty(key) && |Split(key, '_')| == 2
  }

  function PairOf(key: string): (r: (nat, nat))
    requires IsPairProperty(key)
  {
    var parts := Split(key, '_');
    (DigitsValue(parts[0]), DigitsValue(parts[1]))
  }

  predicate PairInside(key: string, startLine: int, endLine: int)
    requires IsPairProperty(key)
  {
    startLine <= PairOf(key).0 && PairOf(key).1 <= endLine
  }

  function ScanKeys(keys: seq<string>, startLine: int, endLine: int): Scan
  {
    if keys == [] then NotFound
    else if !IsRangeProperty(keys[0]) then ScanKeys(keys[1..], startLine, endLine)
    else if !IsPairProperty(keys[0]) then Malformed
    else if PairInside(keys[0], startLine, endLine) then Found
    else ScanKeys(keys[1..], startLine, endLine)
  }

  /** The scan finds a key exactly when some well-formed key lies inside the
      range, provided no malformed key stops it first. */
  lemma {:induction false} ScanFindsInside(keys: seq<string>, startLine: int, endLine: int)
    ensures ScanKeys(keys, startLine, endLine) == Found ==>
      exists j :: 0 <= j < |keys| && IsPairProperty(keys[j]) && PairInside(keys[j], startLine, endLine)
    ensures ScanKeys(keys, startLine, endLine) == NotFound ==>
      forall j :: 0 <= j < |keys| && IsPairProperty(keys[j]) ==> !PairInside(keys[j], startLine, endLine)
    ensures (forall j :: 0 <= j < |keys| && IsRangeProperty(keys[j]) ==> IsPairProperty(keys[j])) ==>
      ScanKeys(keys, startLine, endLine) != Malformed
  {
    if keys != [] {
      ScanFindsInside(keys[1..], startLine, endLine);
      if ScanKeys(keys, startLine, endLine) == Found && !(IsPairProperty(keys[0]) && PairInside(keys[0], startLine, endLine)) {
        var j :| 0 <= j < |keys[1..]| && IsPairProperty(keys[1..][j]) && PairInside(keys[1..][j], startLine, endLine);
        assert keys[j + 1] == keys[1..][j];
      }
      if ScanKeys(keys, startLine, endLine) == NotFound {
        forall j | 0 <= j < |keys| && IsPairProperty(keys[j]) ensures !PairInside(keys[j], startLine, endLine) {
          if j > 0 { assert keys[j] == keys[1..][j - 1]; }
        }
      }
      if forall j :: 0 <= j < |keys| && IsRangeProperty(keys[j]) ==> IsPairProperty(keys[j]) {
        forall j | 0 <= j < |keys[1..]| && IsRangeProperty(keys[1..][j]) ensures IsPairProperty(keys[1..][j]) {
          assert keys[1..][j] == keys[j + 1];
        }
      }
    }
  }

  /** One element of the returned list, `{'type': ..., 'name': ...}`. */
  datatype VarRef = VarRef(varType: string, name: string)

  function RefNames(refs: seq<VarRef>): set<string>
  {
    if refs == [] then {} else {refs[0].name} + RefNames(refs[1..])
  }

  /** No two elements share a name, as in a dict keyed by name. */
  predicate DistinctNames(refs: seq<VarRef>)
  {
    refs == [] || (refs[0].name !in RefNames(refs[1..]) && DistinctNames(refs[1..]))
  }

  /** `unique[name] = value` on an insertion-ordered dict held as a list:
      an existing entry is replaced where it stands, a new one appended. */
  function Upsert(refs: seq<VarRef>, r: VarRef): (out: seq<VarRef>)
    ensures RefNames(out) == RefNames(refs) + {r.name}
    ensures DistinctNames(refs) ==> DistinctNames(out)
    ensures r in out
    ensures forall x :: x in out ==> x == r || x in refs
  {
    if refs == [] then [r]
    else if refs[0].name == r.name then [r] + refs[1..]
    else
      var tail := Upsert(refs[1..], r);
      assert ([refs[0]] + tail)[1..] == tail;
      [refs[0]] + tail
  }

  /** A named variable that one of the source's calls would put in the list. */
  predicate Selected(v: VariableNode, startLine: int, endLine: int) {
    Named(v) && ScanKeys(v.keys, startLine, endLine) == Found
  }

  /** The names of the selected variables among the first `n`. */
  function SelectedNames(vars: seq<VariableNode>, n: nat, startLine: int, endLine: int): set<string>
    requires n <= |vars|
  {
    if n == 0 then {}
    else
      var earlier := SelectedNames(vars, n - 1, startLine, endLine);
      if Selected(vars[n - 1], startLine, endLine) then earlier + {vars[n - 1].name.value} else earlier
  }

  /** A name is collected exactly when some variable with that name is
      selected. */
  lemma {:induction false} SelectedNamesMembers(vars: seq<VariableNode>, n: nat, startLine: int, endLine: int, x: string)
    requires n <= |vars|
    ensures x in SelectedNames(vars, n, startLine, endLine) <==>
      exists i :: 0 <= i < n && Selected(vars[i], startLine, endLine) && vars[i].name.value == x
  {
    if n > 0 {
      SelectedNamesMembers(vars, n - 1, startLine, endLine, x);
    }
  }

  /** The loop over one variable's property keys: stops at the first
      "start~end" key inside the range, and fails on a key with more than
      two parts. */
  method ScanVariable(keys: seq<string>, startLine: int, endLine: int) returns (outcome: Scan)
    ensures outcome == ScanKeys(keys, startLine, endLine)
  {
    var j := 0;
    while j < |keys|
      invariant 0 <= j <= |keys|
      invariant ScanKeys(keys, startLine, endLine) == ScanKeys(keys[j..], startLine, endLine)
    {
      var key := keys[j];
      assert keys[j..][0] == key && keys[j..][1..] == keys[j + 1..];
      if IsRangeProperty(key) {
        if !IsPairProperty(key) {
          return Malformed;
        }
        if PairInside(key, startLine, endLine) {
          return Found;
        }
      }
      j := j + 1;
    }
    assert keys[j..] == [];
    return NotFound;
  }

  /** collect_variables_in_range: one entry per variable name having a
      property "s_e" with start_line <= s and e <= end_line; a property with
      more than two digit groups makes the source raise. */
  method CollectVariablesInRange(vars: seq<VariableNode>, startLine: int, endLine: int)
    returns (r: Result<seq<VarRef>>)
    ensures r.Err? <==> exists i :: 0 <= i < |vars| && Named(vars[i]) && ScanKeys(vars[i].keys, startLine, endLine) == Malformed
    ensures r.Ok? ==> DistinctNames(r.value)
    ensures r.Ok? ==> forall x :: x in r.value ==>
      exists i :: 0 <= i < |vars| && Selected(vars[i], startLine, endLine) && x == VarRef(vars[i].varType, vars[i].name.value)
    ensures r.Ok? ==> RefNames(r.value) == SelectedNames(vars, |vars|, startLine, endLine)
  {
    var unique: seq<VarRef> := [];
    var i := 0;
    while i < |vars|
      invariant 0 <= i <= |vars|
      invariant forall k :: 0 <= k < i && Named(vars[k]) ==> ScanKeys(vars[k].keys, startLine, endLine) != Malformed
      invariant DistinctNames(unique)
      invariant forall x :: x in unique ==>
        exists k :: 0 <= k < i && Selected(vars[k], startLine, endLine) && x == VarRef(vars[k].varType, vars[k].name.value)
      invariant RefNames(unique) == SelectedNames(vars, i, startLine, endLine)
    {
      var v := vars[i];
      if Named(v) {
        var outcome := ScanVariable(v.keys, startLine, endLine);
        if outcome == Malformed {
          return Err("ValueError: too many values to unpack");
        }
        if outcome == Found {
          unique := Upsert(unique, VarRef(v.varType, v.name.value));
        }
      }
      i := i + 1;
    }
    r := Ok(unique);
  }

  // ===== query methods used in a range =====

  /** A "start~end" key of the query-method dictionaries, by its two numbers. */
  datatype RangeKey = RangeKey(start: int, end: int)

  /** The dictionary extract_used_query_methods fills in place. */
  class QueryMethodTable {
    var entries: map<RangeKey, string>

    constructor (initial: map<RangeKey, string>)
      ensures entries == initial
    {
      entries := initial;
    }
  }

  /** The entries of `methods` whose range lies inside [startLine, endLine]. */
  function Inside(methods: map<RangeKey, string>, startLine: int, endLine: int): (m: map<RangeKey, string>)
    ensures forall k :: k in m <==> k in methods && startLine <= k.start && k.end <= endLine
    ensures forall k :: k in m ==> m[k] == methods[k]
  {
    map k | k in methods && startLine <= k.start && k.end <= endLine :: methods[k]
  }

  /** extract_used_query_methods: adds to `used` every entry of `methods`
      contained in [startLine, endLine], keeps the rest of `used`, and
      returns `used` itself. */
  method ExtractUsedQueryMethods(startLine: int, endLine: int, methods: map<RangeKey, string>, used: QueryMethodTable)
    returns (r: QueryMethodTable)
    modifies used
    ensures r == used
    ensures used.entries == old(used.entries) + Inside(methods, startLine, endLine)
  {
    var todo := methods.Keys;
    while todo != {}
      invariant todo <= methods.Keys
      invariant used.entries == old(used.entries) + Inside(methods - todo, startLine, endLine)
      decreases todo
    {
      var k :| k in todo;
      if startLine <= k.start && k.end <= endLine {
        used.entries := used.entries[k := methods[k]];
      }
      assert methods - (todo - {k}) == (methods - todo)[k := methods[k]];
      todo := todo - {k};
    }
    assert methods - todo == methods;
    r := used;
  }
}
