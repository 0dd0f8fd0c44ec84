/**
 * The Python `str` operations that ogiri.py relies on, over `string`
 * (a sequence of Unicode scalar values, as a Python `str` is):
 *   - `str.isspace` on one character and `str.strip()` with no argument,
 *   - `str.splitlines()` with no argument,
 *   - `sep.join(xs)`,
 *   - `s.split(sep, 1)[-1]` for a one-character separator.
 * The whitespace and line-boundary tables are Python 3's, written out in full.
 */
module PyText {

  datatype Option<+T> = None | Some(value: T)

  /**
   * The characters for which Python's `str.isspace()` is true: "\t" "\n"
   * "\x0b" "\x0c" "\r", "\x1c" to "\x1f", " ", "\x85", "\xa0", "\u1680",
   * "\u2000" to "\u200a", "\u2028", "\u2029", "\u202f", "\u205f", "\u3000".
   * None of them is a digit or a '.', so `strip()` never removes an answer
   * number or the '.' after it.
   */
  predicate IsSpace(c: char): (r: bool)
    ensures r ==> c != '.' && !('0' <= c <= '9')
  {
    ('\t' <= c <= '\r') || ('\U{1C}' <= c <= ' ') || c == '\U{85}' || c == '\U{A0}' || c == '\U{1680}'
    || ('\U{2000}' <= c <= '\U{200A}') || c == '\U{2028}' || c == '\U{2029}' || c == '\U{202F}'
    || c == '\U{205F}' || c == '\U{3000}'
  }

  /**
   * The characters at which Python's `str.splitlines()` ends a line: "\n"
   * "\x0b" "\x0c" "\r", "\x1c" "\x1d" "\x1e", "\x85", "\u2028", "\u2029"
   * ("\r\n" counts as one boundary). Every one of them is whitespace, so
   * `strip()` removes line boundaries at either end.
   */
  predicate IsLineBreak(c: char): (r: bool)
    ensures r ==> IsSpace(c)
  {
    ('\n' <= c <= '\r') || ('\U{1C}' <= c <= '\U{1E}') || c == '\U{85}' || c == '\U{2028}' || c == '\U{2029}'
  }

  ghost predicate AllSpace(s: string)
  {
    forall k :: 0 <= k < |s| ==> IsSpace(s[k])
  }

  ghost predicate NoBreak(s: string)
  {
    forall k :: 0 <= k < |s| ==> !IsLineBreak(s[k])
  }

  /** No line boundary in any of `lines`. */
  ghost predicate NoBreaks(lines: seq<string>)
  {
    forall k :: 0 <= k < |lines| ==> NoBreak(lines[k])
  }

  lemma NoBreakConcat(a: string, b: string)
    requires NoBreak(a) && NoBreak(b)
    ensures NoBreak(a + b)
  {
    forall k | 0 <= k < |a + b| ensures !IsLineBreak((a + b)[k]) {
      if k < |a| {
        assert (a + b)[k] == a[k];
      } else {
        assert (a + b)[k] == b[k - |a|];
      }
    }
  }

  lemma NoBreaksAppend(a: seq<string>, b: seq<string>)
    requires NoBreaks(a) && NoBreaks(b)
    ensures NoBreaks(a + b)
  {
    forall k | 0 <= k < |a + b| ensures NoBreak((a + b)[k]) {
      if k < |a| {
        assert (a + b)[k] == a[k];
      } else {
        assert (a + b)[k] == b[k - |a|];
      }
    }
  }

  lemma NoBreaks2(a: string, b: string)
    requires NoBreak(a) && NoBreak(b)
    ensures NoBreaks([a, b])
  {
  }

  lemma NoBreaks5(a: string, b: string, c: string, d: string, e: string)
    requires NoBreak(a) && NoBreak(b) && NoBreak(c) && NoBreak(d) && NoBreak(e)
    ensures NoBreaks([a, b, c, d, e])
  {
  }

  /** `needle in hay` for two strings: `needle` occurs somewhere in `hay`. */
  ghost predicate Occurs(needle: string, hay: string)
  {
    exists i :: 0 <= i <= |hay| && needle <= hay[i..]
  }

  /** `a + b + c + d` ends with `d`, and `b` occurs in it. */
  lemma ConcatFacts(a: string, b: string, c: string, d: string)
    ensures (a + b + c + d)[|a + b + c + d| - |d|..] == d
    ensures Occurs(b, a + b + c + d)
  {
    assert b <= (a + b + c + d)[|a|..];
  }

  /** No whitespace at either end: what `strip()` leaves behind. */
  ghost predicate IsStripped(s: string)
  {
    s == [] || (!IsSpace(s[0]) && !IsSpace(s[|s| - 1]))
  }

  // ---------------------------------------------------------------------------
  // str.strip()
  // ---------------------------------------------------------------------------

  /** The length of the longest all-whitespace prefix of `s`. */
  function LeadingSpace(s: string): (n: nat)
    ensures n <= |s|
    decreases |s|
  {
    if s != [] && IsSpace(s[0]) then 1 + LeadingSpace(s[1..]) else 0
  }

  lemma {:induction false} LeadingSpaceIsMaximal(s: string)
    ensures AllSpace(s[..LeadingSpace(s)])
    ensures LeadingSpace(s) < |s| ==> !IsSpace(s[LeadingSpace(s)])
    decreases |s|
  {
    if s != [] && IsSpace(s[0]) {
      LeadingSpaceIsMaximal(s[1..]);
      var n := LeadingSpace(s);
      assert forall k :: 1 <= k < n ==> s[k] == s[1..][k - 1];
    }
  }

  /** The index at which the longest all-whitespace suffix of `s` begins. */
  function TrailingSpace(s: string): (m: nat)
    ensures m <= |s|
    decreases |s|
  {
    if s != [] && IsSpace(s[|s| - 1]) then TrailingSpace(s[..|s| - 1]) else |s|
  }

  lemma {:induction false} TrailingSpaceIsMaximal(s: string)
    ensures AllSpace(s[TrailingSpace(s)..])
    ensures 0 < TrailingSpace(s) ==> !IsSpace(s[TrailingSpace(s) - 1])
    decreases |s|
  {
    if s != [] && IsSpace(s[|s| - 1]) {
      TrailingSpaceIsMaximal(s[..|s| - 1]);
      var m := TrailingSpace(s);
      assert forall k :: m <= k < |s| - 1 ==> s[k] == s[..|s| - 1][k];
    }
  }

  /** `s.strip()`: `s` without the whitespace at either end. */
  function Strip(s: string): (r: string)
    ensures |r| <= |s|
    ensures IsStripped(r)
  {
    var i := LeadingSpace(s);
    if i == |s| then
      []
    else
      LeadingSpaceIsMaximal(s);
      TrailingSpaceIsMaximal(s);
      var j := TrailingSpace(s);
      assert i < j;
      s[i..j]
  }

  /**
   * What `strip()` removes is whitespace and only whitespace: `s.strip()` is
   * a slice of `s` with nothing but whitespace before it and after it.
   */
  lemma StripTrims(s: string)
    ensures exists i :: 0 <= i <= |s| - |Strip(s)| && Strip(s) == s[i..i + |Strip(s)|]
                        && AllSpace(s[..i]) && AllSpace(s[i + |Strip(s)|..])
  {
    var i := LeadingSpace(s);
    LeadingSpaceIsMaximal(s);
    TrailingSpaceIsMaximal(s);
    if i == |s| {
      assert s[..i] == s && s[i..i] == [];
    } else {
      var j := TrailingSpace(s);
      assert s[i..j] == s[i..i + (j - i)];
    }
  }

  lemma {:induction false} LeadingSpaceOf(pre: string, rest: string)
    requires AllSpace(pre)
    requires rest == [] || !IsSpace(rest[0])
    ensures LeadingSpace(pre + rest) == |pre|
    decreases |pre|
  {
    if pre == [] {
      assert pre + rest == rest;
    } else {
      assert (pre + rest)[1..] == pre[1..] + rest;
      LeadingSpaceOf(pre[1..], rest);
    }
  }

  lemma {:induction false} TrailingSpaceOf(front: string, post: string)
    requires AllSpace(post)
    requires front == [] || !IsSpace(front[|front| - 1])
    ensures TrailingSpace(front + post) == |front|
    decreases |post|
  {
    if post == [] {
      assert front + post == front;
    } else {
      assert (front + post)[..|front + post| - 1] == front + post[..|post| - 1];
      TrailingSpaceOf(front, post[..|post| - 1]);
    }
  }

  /**
   * `strip()` removes exactly the whitespace around a stripped core: whatever
   * whitespace surrounds `w`, stripping gives `w` back.
   */
  lemma StripExact(pre: string, w: string, post: string)
    requires AllSpace(pre) && AllSpace(post) && IsStripped(w)
    ensures Strip(pre + w + post) == w
  {
    var s := pre + w + post;
    if w == [] {
      assert s == pre + post;
      LeadingSpaceOf(pre + post, []);
      assert pre + post + [] == pre + post;
    } else {
      assert s == pre + (w + post);
      LeadingSpaceOf(pre, w + post);
      TrailingSpaceOf(pre + w, post);
      assert s[|pre|..|pre + w|] == w;
    }
  }

  /** Stripping any tail of `s` leaves a piece of `s`. */
  lemma StripOfSuffixOccurs(s: string, n: nat)
    requires n <= |s|
    ensures Occurs(Strip(s[n..]), s)
  {
    var t := s[n..];
    var i := LeadingSpace(t);
    if i == |t| {
      assert Strip(t) <= s[0..];
    } else {
      LeadingSpaceIsMaximal(t);
      TrailingSpaceIsMaximal(t);
      var j := TrailingSpace(t);
      assert i < j;
      assert Strip(t) == t[i..j];
      assert Strip(t) <= s[n + i..];
    }
  }

  /** Stripping twice strips nothing more. */
  lemma StripIdempotent(s: string)
    ensures Strip(Strip(s)) == Strip(s)
  {
    var r := Strip(s);
    var t := Strip(r);
    StripTrims(r);
    var i :| 0 <= i <= |r| - |t| && t == r[i..i + |t|] && AllSpace(r[..i]) && AllSpace(r[i + |t|..]);
  }

  // ---------------------------------------------------------------------------
  // str.splitlines()
  // ---------------------------------------------------------------------------

  /** The first line boundary at or after `from`, or `|s|` when there is none. */
  function LineEnd(s: string, from: nat): (e: nat)
    requires from <= |s|
    ensures from <= e <= |s|
    decreases |s| - from
  {
    if from == |s| || IsLineBreak(s[from]) then from else LineEnd(s, from + 1)
  }

  lemma {:induction false} LineEndIsFirstBreak(s: string, from: nat)
    requires from <= |s|
    ensures NoBreak(s[from..LineEnd(s, from)])
    ensures LineEnd(s, from) < |s| ==> IsLineBreak(s[LineEnd(s, from)])
    decreases |s| - from
  {
    if from < |s| && !IsLineBreak(s[from]) {
      LineEndIsFirstBreak(s, from + 1);
      var e := LineEnd(s, from);
      assert forall k :: from + 1 <= k < e ==> s[k] == s[from + 1..e][k - (from + 1)];
    }
  }

  /** How many characters the boundary at `s[e]` takes: two for "\r\n", one otherwise. */
  function BreakWidth(s: string, e: nat): nat
    requires e < |s|
  {
    if s[e] == '\r' && e + 1 < |s| && s[e + 1] == '\n' then 2 else 1
  }

  /**
   * `s.splitlines()`: the lines of `s` without their boundaries; a last line
   * with no boundary after it is kept only when it is not empty.
   */
  function SplitLines(s: string): (lines: seq<string>)
    ensures |lines| <= |s|
    ensures forall k :: 0 <= k < |lines| ==> NoBreak(lines[k])
    decreases |s|
  {
    if s == [] then
      []
    else
      var e := LineEnd(s, 0);
      LineEndIsFirstBreak(s, 0);
      if e == |s| then
        [s]
      else
        [s[..e]] + SplitLines(s[e + BreakWidth(s, e)..])
  }

  /** The text made of `lines`, each followed by "\n". */
  function Lines(lines: seq<string>): string
  {
    if lines == [] then "" else lines[0] + "\n" + Lines(lines[1..])
  }

  lemma LinesCons(line: string, rest: seq<string>)
    ensures Lines([line] + rest) == line + "\n" + Lines(rest)
  {
    assert ([line] + rest)[1..] == rest;
  }

  lemma Lines2(a: string, b: string)
    ensures Lines([a, b]) == a + "\n" + b + "\n"
  {
    LinesCons(a, [b]);
    LinesCons(b, []);
    assert [a, b] == [a] + [b] && [b] == [b] + [];
  }

  lemma Lines5(a: string, b: string, c: string, d: string, e: string)
    ensures Lines([a, b, c, d, e]) == a + "\n" + b + "\n" + c + "\n" + d + "\n" + e + "\n"
  {
    Lines2(d, e);
    LinesCons(c, [d, e]);
    LinesCons(b, [c, d, e]);
    LinesCons(a, [b, c, d, e]);
    assert [a, b, c, d, e] == [a] + [b, c, d, e];
    assert [b, c, d, e] == [b] + [c, d, e];
    assert [c, d, e] == [c] + [d, e];
  }

  lemma {:induction false} LinesAppend(a: seq<string>, b: seq<string>)
    ensures Lines(a + b) == Lines(a) + Lines(b)
    decreases |a|
  {
    if a == [] {
      assert a + b == b;
    } else {
      assert (a + b)[1..] == a[1..] + b;
      LinesAppend(a[1..], b);
      calc {
        Lines(a + b);
        (a + b)[0] + "\n" + Lines((a + b)[1..]);
        a[0] + "\n" + (Lines(a[1..]) + Lines(b));
        (a[0] + "\n" + Lines(a[1..])) + Lines(b);
      }
    }
  }

  /** The first boundary at or after `from` is at `e` when `s[from..e]` holds none and one (or the end) is at `e`. */
  lemma {:induction false} LineEndAt(s: string, from: nat, e: nat)
    requires from <= e <= |s|
    requires forall k :: from <= k < e ==> !IsLineBreak(s[k])
    requires e == |s| || IsLineBreak(s[e])
    ensures LineEnd(s, from) == e
    decreases e - from
  {
    if from < e {
      LineEndAt(s, from + 1, e);
    }
  }

  /** A line holding no boundary, followed by "\n", is split off as the first line. */
  lemma SplitFirstLine(line: string, rest: string)
    requires NoBreak(line)
    ensures SplitLines(line + "\n" + rest) == [line] + SplitLines(rest)
  {
    var s := line + "\n" + rest;
    assert forall k :: 0 <= k < |line| ==> s[k] == line[k];
    assert s[|line|] == '\n';
    LineEndAt(s, 0, |line|);
    assert s[..|line|] == line;
    assert BreakWidth(s, |line|) == 1;
    assert s[|line| + 1..] == rest;
  }

  /** A non-empty line holding no boundary splits into just itself. */
  lemma SplitOnlyLine(line: string)
    requires line != [] && NoBreak(line)
    ensures SplitLines(line) == [line]
  {
    LineEndAt(line, 0, |line|);
  }

  /**
   * Writing out lines that hold no boundary, each with a "\n" after it, and
   * splitting the text again gives back exactly those lines.
   */
  lemma {:induction false} SplitLinesOfLines(lines: seq<string>)
    requires forall k :: 0 <= k < |lines| ==> NoBreak(lines[k])
    ensures SplitLines(Lines(lines)) == lines
    decreases |lines|
  {
    if lines != [] {
      SplitFirstLine(lines[0], Lines(lines[1..]));
      SplitLinesOfLines(lines[1..]);
      assert lines == [lines[0]] + lines[1..];
    }
  }

  /** The first of several lines, written out in front of any text. */
  lemma LinesThen(lines: seq<string>, rest: string)
    requires lines != []
    ensures Lines(lines) + rest == lines[0] + "\n" + (Lines(lines[1..]) + rest)
  {
  }

  /**
   * Lines holding no boundary, written out each followed by "\n" in front of
   * any text, are split off ahead of that text's own lines, whatever it holds.
   */
  lemma {:induction false} SplitLinesAfterLines(lines: seq<string>, rest: string)
    requires NoBreaks(lines)
    ensures SplitLines(Lines(lines) + rest) == lines + SplitLines(rest)
    decreases |lines|
  {
    if lines == [] {
      assert Lines(lines) + rest == rest;
    } else {
      var tail := lines[1..];
      assert NoBreaks(tail) by {
        assert forall k :: 0 <= k < |tail| ==> tail[k] == lines[k + 1];
      }
      SplitLinesAfterLines(tail, rest);
      LinesThen(lines, rest);
      SplitFirstLine(lines[0], Lines(tail) + rest);
      ConsAppend(lines[0], tail, SplitLines(rest));
      assert lines == [lines[0]] + tail;
    }
  }

  lemma ConsAppend<T>(x: T, a: seq<T>, b: seq<T>)
    ensures [x] + (a + b) == ([x] + a) + b
  {
  }

  /**
   * Joining lines that hold no boundary with "\n" and splitting the text
   * again gives back exactly those lines, provided the last one is not empty
   * (`splitlines()` drops an empty last line).
   */
  lemma {:induction false} SplitLinesOfJoin(lines: seq<string>)
    requires lines != [] && lines[|lines| - 1] != []
    requires forall k :: 0 <= k < |lines| ==> NoBreak(lines[k])
    ensures SplitLines(Join("\n", lines)) == lines
    decreases |lines|
  {
    if |lines| == 1 {
      assert Join("\n", lines) == lines[0];
      SplitOnlyLine(lines[0]);
    } else {
      var rest := lines[1..];
      assert rest[|rest| - 1] == lines[|lines| - 1];
      assert forall k :: 0 <= k < |rest| ==> rest[k] == lines[k + 1];
      SplitLinesOfJoin(rest);
      assert Join("\n", lines) == lines[0] + "\n" + Join("\n", rest);
      SplitFirstLine(lines[0], Join("\n", rest));
      assert lines == [lines[0]] + rest;
    }
  }

  // ---------------------------------------------------------------------------
  // sep.join(xs)
  // ---------------------------------------------------------------------------

  /**
   * `sep.join(xs)`: the items of `xs` with `sep` between each two neighbours.
   * Nothing is joined into "", and a join starts with the first item.
   */
  function Join(sep: string, xs: seq<string>): (r: string)
    ensures xs == [] ==> r == ""
    ensures xs != [] ==> xs[0] <= r
    decreases |xs|
  {
    if xs == [] then ""
    else if |xs| == 1 then xs[0]
    else xs[0] + sep + Join(sep, xs[1..])
  }

  /**
   * Joining with "\n" followed by a prefix and adding that prefix in front and a
   * "\n" at the end puts each item, prefixed, on a line of its own.
   */
  lemma {:induction false} JoinAsLines(prefix: string, xs: seq<string>)
    requires xs != []
    ensures prefix + Join("\n" + prefix, xs) + "\n" == Lines(seq(|xs|, k requires 0 <= k < |xs| => prefix + xs[k]))
    decreases |xs|
  {
    var ls := seq(|xs|, k requires 0 <= k < |xs| => prefix + xs[k]);
    if |xs| == 1 {
      assert ls == [prefix + xs[0]];
      assert Lines(ls[1..]) == "";
    } else {
      JoinAsLines(prefix, xs[1..]);
      assert ls[1..] == seq(|xs[1..]|, k requires 0 <= k < |xs[1..]| => prefix + xs[1..][k]);
      calc {
        prefix + Join("\n" + prefix, xs) + "\n";
        prefix + xs[0] + "\n" + (prefix + Join("\n" + prefix, xs[1..]) + "\n");
        ls[0] + "\n" + Lines(ls[1..]);
      }
    }
  }

  // ---------------------------------------------------------------------------
  // s.split(sep, 1)[-1]
  // ---------------------------------------------------------------------------

  /** The index of the first `c` in `s`, or `|s|` when `c` does not occur. */
  function IndexOf(s: string, c: char, from: nat): (i: nat)
    requires from <= |s|
    ensures from <= i <= |s|
    decreases |s| - from
  {
    if from == |s| || s[from] == c then from else IndexOf(s, c, from + 1)
  }

  lemma {:induction false} IndexOfIsFirst(s: string, c: char, from: nat)
    requires from <= |s|
    ensures forall k :: from <= k < IndexOf(s, c, from) ==> s[k] != c
    ensures IndexOf(s, c, from) < |s| ==> s[IndexOf(s, c, from)] == c
    decreases |s| - from
  {
    if from < |s| && s[from] != c {
      IndexOfIsFirst(s, c, from + 1);
    }
  }

  /**
   * `s.split(sep, 1)[-1]`: a suffix of `s`, shorter than `s` exactly when `sep`
   * occurs in it.
   */
  function AfterFirst(s: string, sep: char): (r: string)
    ensures |r| <= |s| && r == s[|s| - |r|..]
    ensures sep in s <==> |r| < |s|
  {
    IndexOfIsFirst(s, sep, 0);
    var i := IndexOf(s, sep, 0);
    if i == |s| then s else s[i + 1..]
  }

  /**
   * `s.split(sep, 1)[-1]` is the text after the first `sep`, or the whole of
   * `s` when `sep` does not occur in it (the split then has a single part).
   */
  lemma AfterFirstCases(s: string, sep: char)
    ensures sep !in s ==> AfterFirst(s, sep) == s
    ensures forall i :: 0 <= i < |s| && s[i] == sep && sep !in s[..i] ==> AfterFirst(s, sep) == s[i + 1..]
  {
    var j := IndexOf(s, sep, 0);
    IndexOfIsFirst(s, sep, 0);
    forall i | 0 <= i < |s| && s[i] == sep && sep !in s[..i] ensures AfterFirst(s, sep) == s[i + 1..] {
    }
  }
}
