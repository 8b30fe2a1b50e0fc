/** The Python string operations the modelled code relies on, restricted to
    ASCII text: case mapping, `strip`, `split` on one character, `join`,
    decimal rendering of integers and `str.replace`. */
module Text {

  import opened Wrappers

  /** Concatenation is associative (stated once so that proofs can name
      the regrouping they need). */
  lemma AppendAssoc<T>(a: seq<T>, b: seq<T>, c: seq<T>)
    ensures a + (b + c) == a + b + c
  {
  }

  // ----- characters -----

  /** `str.isspace()` of one ASCII character: space, tab, the line breaks
      0x0A-0x0D and the separators 0x1C-0x1F. */
  predicate IsSpace(c: char) {
    var n := c as int;
    n == 32 || 9 <= n <= 13 || 28 <= n <= 31
  }

  predicate IsUpperAscii(c: char) { 'A' <= c <= 'Z' }

  predicate IsLowerAscii(c: char) { 'a' <= c <= 'z' }

  predicate IsDigit(c: char) { '0' <= c <= '9' }

  /** `str.upper()` of one character (non-ASCII characters are left alone). */
  function ToUpper(c: char): (u: char)
    ensures !IsLowerAscii(u)
    ensures !IsLowerAscii(c) ==> u == c
  {
    if IsLowerAscii(c) then (c as int - 32) as char else c
  }

  /** `str.lower()` of one character (non-ASCII characters are left alone). */
  function ToLower(c: char): (l: char)
    ensures !IsUpperAscii(l)
    ensures !IsUpperAscii(c) ==> l == c
  {
    if IsUpperAscii(c) then (c as int + 32) as char else c
  }

  lemma {:induction false} UpperOfLower(c: char)
    ensures ToUpper(ToLower(c)) == ToUpper(c)
  {
  }

  // ----- whole strings -----

  function Upper(s: string): (r: string)
    ensures |r| == |s|
    ensures forall i :: 0 <= i < |s| ==> r[i] == ToUpper(s[i])
  {
    seq(|s|, i requires 0 <= i < |s| => ToUpper(s[i]))
  }

  function Lower(s: string): (r: string)
    ensures |r| == |s|
    ensures forall i :: 0 <= i < |s| ==> r[i] == ToLower(s[i])
  {
    seq(|s|, i requires 0 <= i < |s| => ToLower(s[i]))
  }

  lemma {:induction false} UpperAppend(a: string, b: string)
    ensures Upper(a + b) == Upper(a) + Upper(b)
  {
    assert Upper(a + b) == Upper(a) + Upper(b) by {
      forall i | 0 <= i < |a + b| ensures Upper(a + b)[i] == (Upper(a) + Upper(b))[i] {
        if i < |a| { assert (a + b)[i] == a[i]; } else { assert (a + b)[i] == b[i - |a|]; }
      }
    }
  }

  lemma {:induction false} LowerOfLowerText(s: string)
    requires forall i :: 0 <= i < |s| ==> !IsUpperAscii(s[i])
    ensures Lower(s) == s
  {
  }

  /** `str.capitalize()`: first character upper-cased, the rest lower-cased. */
  function Capitalize(w: string): (r: string)
    ensures |r| == |w|
    ensures w != [] ==> r[0] == ToUpper(w[0]) && r[1..] == Lower(w[1..])
  {
    if w == [] then [] else [ToUpper(w[0])] + Lower(w[1..])
  }

  /** Concatenation of a list of strings, `''.join(parts)`. */
  function Concat(parts: seq<string>): string
  {
    if parts == [] then [] else Concat(parts[..|parts| - 1]) + parts[|parts| - 1]
  }

  lemma {:induction false} ConcatAppend(a: seq<string>, b: seq<string>)
    ensures Concat(a + b) == Concat(a) + Concat(b)
    decreases |b|
  {
    if b != [] {
      assert (a + b)[..|a + b| - 1] == a + b[..|b| - 1];
      ConcatAppend(a, b[..|b| - 1]);
    } else {
      assert a + b == a;
    }
  }

  lemma {:induction false} ConcatCons(x: string, rest: seq<string>)
    ensures Concat([x] + rest) == x + Concat(rest)
  {
    ConcatAppend([x], rest);
    assert Concat([x]) == Concat([]) + x;
  }

  /** `sep.join(parts)`. */
  function Join(parts: seq<string>, sep: string): string
  {
    if |parts| == 0 then []
    else if |parts| == 1 then parts[0]
    else parts[0] + sep + Join(parts[1..], sep)
  }

  // ----- strip -----

  /** `str.lstrip()`: drops the leading whitespace and nothing else. */
  function StripLeft(s: string): (r: string)
    ensures |r| <= |s|
    ensures r != [] ==> !IsSpace(r[0])
    ensures forall i :: 0 <= i < |s| - |r| ==> IsSpace(s[i])
  {
    if s != [] && IsSpace(s[0]) then StripLeft(s[1..]) else s
  }

  /** `str.rstrip()`: drops the trailing whitespace and nothing else. */
  function StripRight(s: string): (r: string)
    ensures |r| <= |s|
    ensures r != [] ==> !IsSpace(r[|r| - 1])
    ensures forall i :: |r| <= i < |s| ==> IsSpace(s[i])
  {
    if s != [] && IsSpace(s[|s| - 1]) then StripRight(s[..|s| - 1]) else s
  }

  /** `str.strip()`. */
  function Strip(s: string): string
  {
    StripRight(StripLeft(s))
  }

  /** A string whose `strip()` is empty, i.e. that is falsy after stripping. */
  predicate IsBlank(s: string) {
    forall i :: 0 <= i < |s| ==> IsSpace(s[i])
  }

  /** `lstrip()` keeps a suffix of the string. */
  lemma {:induction false} StripLeftSuffix(s: string)
    ensures StripLeft(s) == s[|s| - |StripLeft(s)|..]
    decreases |s|
  {
    if s != [] && IsSpace(s[0]) {
      StripLeftSuffix(s[1..]);
      assert s[1..][|s| - 1 - |StripLeft(s)|..] == s[|s| - |StripLeft(s)|..];
    }
  }

  /** `rstrip()` keeps a prefix of the string. */
  lemma {:induction false} StripRightPrefix(s: string)
    ensures StripRight(s) == s[..|StripRight(s)|]
    decreases |s|
  {
    if s != [] && IsSpace(s[|s| - 1]) {
      StripRightPrefix(s[..|s| - 1]);
      assert s[..|s| - 1][..|StripRight(s)|] == s[..|StripRight(s)|];
    }
  }

  lemma {:induction false} StripEmptyIffBlank(s: string)
    ensures Strip(s) == [] <==> IsBlank(s)
  {
    StripLeftSuffix(s);
  }

  lemma {:induction false} StripIdempotent(s: string)
    ensures Strip(Strip(s)) == Strip(s)
  {
    var t := Strip(s);
    if t != [] {
      var l := StripLeft(s);
      StripRightPrefix(l);
      assert t == l[..|t|];
      assert t[0] == l[0];
    }
  }

  lemma {:induction false} StripOfNonSpaceEnds(s: string)
    requires s != [] ==> !IsSpace(s[0]) && !IsSpace(s[|s| - 1])
    ensures Strip(s) == s
  {
  }

  /** `str.strip('"')`: drops double quotes at both ends. */
  function StripQuotes(s: string): (r: string)
    ensures |r| <= |s|
    ensures r != [] ==> r[0] != '"' && r[|r| - 1] != '"'
    decreases |s|
  {
    if s != [] && s[0] == '"' then StripQuotes(s[1..])
    else if s != [] && s[|s| - 1] == '"' then StripQuotes(s[..|s| - 1])
    else s
  }

  // ----- split on one character -----

  /** `s.split(sep)` for a one-character separator: always at least one part. */
  function Split(s: string, sep: char): (parts: seq<string>)
    ensures |parts| >= 1
    ensures forall i :: 0 <= i < |parts| ==> sep !in parts[i]
  {
    if s == [] then [[]]
    else
      var rest := Split(s[1..], sep);
      if s[0] == sep then [[]] + rest
      else [[s[0]] + rest[0]] + rest[1..]
  }

  lemma {:induction false} JoinSplit(s: string, sep: char)
    ensures Join(Split(s, sep), [sep]) == s
  {
    if s != [] {
      var rest := Split(s[1..], sep);
      JoinSplit(s[1..], sep);
      if s[0] == sep {
        assert Split(s, sep) == [[]] + rest;
        assert Join([[]] + rest, [sep]) == [] + [sep] + Join(rest, [sep]);
      } else {
        var parts := Split(s, sep);
        assert parts == [[s[0]] + rest[0]] + rest[1..];
        if |rest| == 1 {
          assert Join(parts, [sep]) == [s[0]] + rest[0];
        } else {
          assert Join(rest, [sep]) == rest[0] + [sep] + Join(rest[1..], [sep]);
          assert parts[1..] == rest[1..];
          assert Join(parts, [sep]) == [s[0]] + rest[0] + [sep] + Join(rest[1..], [sep]);
        }
      }
    }
  }

  lemma {:induction false} SplitJoin(parts: seq<string>, sep: char)
    requires |parts| >= 1
    requires forall i :: 0 <= i < |parts| ==> sep !in parts[i]
    ensures Split(Join(parts, [sep]), sep) == parts
    decreases |parts|, |parts[0]|
  {
    var p0 := parts[0];
    if |parts| == 1 {
      SplitNoSep(p0, sep);
    } else if p0 == [] {
      var tail := parts[1..];
      SplitJoin(tail, sep);
      assert Join(parts, [sep]) == [sep] + Join(tail, [sep]);
      assert ([sep] + Join(tail, [sep]))[1..] == Join(tail, [sep]);
    } else {
      var shorter := [p0[1..]] + parts[1..];
      assert forall i :: 0 <= i < |shorter| ==> sep !in shorter[i] by {
        forall i | 0 <= i < |shorter| ensures sep !in shorter[i] {
          if i == 0 {
            assert forall k :: 0 <= k < |p0[1..]| ==> p0[1..][k] == p0[k + 1];
          } else {
            assert shorter[i] == parts[i];
          }
        }
      }
      SplitJoin(shorter, sep);
      var j := Join(parts, [sep]);
      assert j == p0 + [sep] + Join(parts[1..], [sep]);
      assert shorter[1..] == parts[1..];
      assert Join(shorter, [sep]) == p0[1..] + [sep] + Join(parts[1..], [sep]);
      assert j[1..] == Join(shorter, [sep]);
      assert j[0] == p0[0] && p0[0] != sep;
      assert [p0[0]] + p0[1..] == p0;
    }
  }

  lemma {:induction false} SplitNoSep(s: string, sep: char)
    requires sep !in s
    ensures Split(s, sep) == [s]
  {
    if s != [] {
      SplitNoSep(s[1..], sep);
      assert [s[0]] + s[1..] == s;
    }
  }

  /** `s.split(sep)` has one part more than `s` has separators. */
  lemma {:induction false} SplitCount(s: string, sep: char)
    ensures |Split(s, sep)| == multiset(s)[sep] + 1
  {
    if s != [] {
      SplitCount(s[1..], sep);
      assert s == [s[0]] + s[1..];
      assert multiset(s) == multiset([s[0]]) + multiset(s[1..]);
    }
  }

  /** Upper-casing keeps the number of occurrences of a character that is
      not an ASCII letter. */
  lemma {:induction false} UpperKeepsCount(s: string, c: char)
    requires !IsLowerAscii(c) && !IsUpperAscii(c)
    ensures multiset(Upper(s))[c] == multiset(s)[c]
  {
    if s != [] {
      UpperKeepsCount(s[1..], c);
      assert s == [s[0]] + s[1..];
      UpperAppend([s[0]], s[1..]);
      assert Upper([s[0]]) == [ToUpper(s[0])];
      assert multiset(Upper(s)) == multiset([ToUpper(s[0])]) + multiset(Upper(s[1..]));
      assert multiset(s) == multiset([s[0]]) + multiset(s[1..]);
      assert (ToUpper(s[0]) == c) == (s[0] == c);
    }
  }

  /** `textwrap.indent(text, prefix)` for text whose line breaks are '\n':
      the prefix goes in front of every line that is not blank. */
  function Indent(text: string, prefix: string): (r: string)
  {
    var lines := Split(text, '\n');
    Join(seq(|lines|, i requires 0 <= i < |lines| => if IsBlank(lines[i]) then lines[i] else prefix + lines[i]), "\n")
  }

  /** A single line that is not blank gets the prefix in front of it. */
  lemma {:induction false} IndentOneLine(text: string, prefix: string)
    requires '\n' !in text && !IsBlank(text)
    ensures Indent(text, prefix) == prefix + text
  {
    SplitNoSep(text, '\n');
    var lines := Split(text, '\n');
    assert lines == [text];
    assert seq(|lines|, i requires 0 <= i < |lines| => if IsBlank(lines[i]) then lines[i] else prefix + lines[i]) == [prefix + text];
  }

  /** Index of the first occurrence of `c` in `s`. */
  function IndexOf(s: string, c: char): (i: nat)
    requires c in s
    ensures i < |s| && s[i] == c && c !in s[..i]
  {
    if s[0] == c then 0 else 1 + IndexOf(s[1..], c)
  }

  /** `s.split(c, 1)`: the text before the first `c` and, when `c` occurs,
      the text after it. */
  function SplitFirst(s: string, c: char): (r: (string, Option<string>))
    ensures c !in s ==> r == (s, None)
    ensures c in s ==> r.1.Some? && s == r.0 + [c] + r.1.value && c !in r.0
  {
    if c in s then
      var i := IndexOf(s, c);
      assert s == s[..i] + [c] + s[i + 1..];
      (s[..i], Some(s[i + 1..]))
    else (s, None)
  }

  /** Splitting at the first `c` undoes joining with `c` when the left
      part holds none. */
  lemma {:induction false} SplitFirstAt(x: string, c: char, y: string)
    requires c !in x
    ensures SplitFirst(x + [c] + y, c) == (x, Some(y))
  {
    var s := x + [c] + y;
    assert s[|x|] == c;
    var r := SplitFirst(s, c);
    assert s == r.0 + [c] + r.1.value;
    assert |r.0| == |x|;
    assert r.0 == s[..|x|] == x;
    assert r.1.value == s[|x| + 1..] == y;
  }

  // ----- integers as decimal text -----

  function DigitChar(d: nat): (c: char)
    requires d < 10
    ensures IsDigit(c) && c as int - '0' as int == d
  {
    ('0' as int + d) as char
  }

  /** `str(n)` for a natural number. */
  function NatToString(n: nat): (r: string)
    ensures r != []
    ensures forall i :: 0 <= i < |r| ==> IsDigit(r[i])
    ensures |r| > 1 ==> r[0] != '0'
  {
    if n < 10 then [DigitChar(n)] else NatToString(n / 10) + [DigitChar(n % 10)]
  }

  function DigitValue(c: char): (d: nat)
    requires IsDigit(c)
    ensures d < 10
  {
    c as int - '0' as int
  }

  /** The value of a string of decimal digits, as `int()` reads it. */
  function DigitsValue(s: string): nat
    requires forall i :: 0 <= i < |s| ==> IsDigit(s[i])
  {
    if s == [] then 0
    else DigitsValue(s[..|s| - 1]) * 10 + DigitValue(s[|s| - 1])
  }

  lemma {:induction false} DigitsValueOfNatToString(n: nat)
    ensures DigitsValue(NatToString(n)) == n
  {
    var r := NatToString(n);
    if n >= 10 {
      DigitsValueOfNatToString(n / 10);
      assert r[..|r| - 1] == NatToString(n / 10);
    }
  }

  lemma {:induction false} NatToStringInjective(m: nat, n: nat)
    requires NatToString(m) == NatToString(n)
    ensures m == n
  {
    DigitsValueOfNatToString(m);
    DigitsValueOfNatToString(n);
  }

  /** `str(i)` for an integer. */
  function IntToString(i: int): (r: string)
    ensures r != []
  {
    if i < 0 then "-" + NatToString(-i) else NatToString(i)
  }

  // ----- substrings -----

  predicate StartsWith(s: string, p: string) {
    |p| <= |s| && s[..|p|] == p
  }

  /** `p` occurs in `s` starting at index `i`. */
  predicate OccursAt(s: string, p: string, i: int) {
    0 <= i <= |s| - |p| && s[i..i + |p|] == p
  }

  /** `p in s` for strings. */
  predicate Contains(s: string, p: string) {
    exists i :: 0 <= i <= |s| - |p| && OccursAt(s, p, i)
  }

  /** `s.replace(pat, rep)`: every non-overlapping occurrence, left to right. */
  function ReplaceAll(s: string, pat: string, rep: string): string
    requires pat != []
    decreases |s|
  {
    if |s| < |pat| then s
    else if s[..|pat|] == pat then rep + ReplaceAll(s[|pat|..], pat, rep)
    else [s[0]] + ReplaceAll(s[1..], pat, rep)
  }

  lemma {:induction false} ContainsOfTail(s: string, p: string)
    requires |s| >= 1 && Contains(s[1..], p)
    ensures Contains(s, p)
  {
    var t := s[1..];
    var i :| 0 <= i <= |t| - |p| && OccursAt(t, p, i);
    assert s[i + 1..i + 1 + |p|] == t[i..i + |p|];
    assert OccursAt(s, p, i + 1);
  }

  lemma {:induction false} ReplaceAllAbsent(s: string, pat: string, rep: string)
    requires pat != []
    requires !Contains(s, pat)
    ensures ReplaceAll(s, pat, rep) == s
    decreases |s|
  {
    if |s| >= |pat| {
      assert s[0..|pat|] == s[..|pat|];
      assert !OccursAt(s, pat, 0);
      var t := s[1..];
      if Contains(t, pat) {
        ContainsOfTail(s, pat);
      }
      ReplaceAllAbsent(t, pat, rep);
      assert [s[0]] + t == s;
    }
  }

  /** A text without the pattern's first character is left as it is. */
  lemma {:induction false} ReplaceAllWithoutFirstChar(s: string, pat: string, rep: string)
    requires pat != [] && pat[0] !in s
    ensures ReplaceAll(s, pat, rep) == s
  {
    ReplaceAllAbsent(s, pat, rep);
  }

  lemma {:induction false} ReplaceAllSingle(a: string, pat: string, b: string, rep: string)
    requires pat != []
    requires !Contains(a + pat[..|pat| - 1], pat)
    requires !Contains(b, pat)
    ensures ReplaceAll(a + pat + b, pat, rep) == a + rep + b
    decreases |a|
  {
    var s := a + pat + b;
    if a == [] {
      assert s == pat + b;
      assert s[..|pat|] == pat;
      assert s[|pat|..] == b;
      ReplaceAllAbsent(b, pat, rep);
    } else {
      var v := a + pat[..|pat| - 1];
      assert v[..|pat|] == s[..|pat|];
      assert s[..|pat|] != pat by {
        assert v[0..|pat|] == v[..|pat|];
        assert !OccursAt(v, pat, 0);
      }
      var a' := a[1..];
      assert v[1..] == a' + pat[..|pat| - 1];
      if Contains(a' + pat[..|pat| - 1], pat) {
        ContainsOfTail(v, pat);
      }
      ReplaceAllSingle(a', pat, b, rep);
      assert s[1..] == a' + pat + b;
      assert [a[0]] + a' == a;
    }
  }

  // ----- Python slicing -----

  /** The index Python uses for a slice bound `k` on a sequence of length `n`. */
  function SliceBound(k: int, n: nat): (b: nat)
    ensures b <= n
  {
    if k < 0 then (if k + n < 0 then 0 else k + n) else if k > n then n else k
  }

  /** `s[a:b]` with Python's clamping and negative-index rules. */
  function PySlice<T>(s: seq<T>, a: int, b: int): (r: seq<T>)
    ensures 0 <= a <= b <= |s| ==> r == s[a..b]
  {
    var lo := SliceBound(a, |s|);
    var hi := SliceBound(b, |s|);
    if lo <= hi then s[lo..hi] else []
  }
}
