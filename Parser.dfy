/**
 * The response parser of ogiri.py (the loop at the end of `generate_bokes`),
 * taken out as a parser over the completion text: split the text into lines,
 * keep a line when its stripped form starts with one of '1'..'5', take what
 * follows the first '.' of the line (the whole line when there is none),
 * strip it, and collect it when it is not empty.
 */
module Parser {
  import opened PyText
  import Prompt

  /**
   * `s.startswith(tuple("12345"))`: `s` begins with an answer number 1 to 5,
   * which is a visible character, so such an `s` has no leading whitespace.
   */
  predicate StartsWithRank(s: string): (r: bool)
    ensures r ==> s != [] && !IsSpace(s[0])
  {
    |s| > 0 && '1' <= s[0] <= '5'
  }

  /**
   * The punchline ("boke") one line of the completion contributes, if any:
   * when the stripped line starts with '1'..'5', the stripped text after the
   * line's first '.' (the whole line when it has no '.'), unless that is empty.
   * A punchline is always a piece of its line.
   */
  function LineBoke(line: string): (r: Option<string>)
    ensures r.Some? ==> Occurs(r.value, line)
  {
    if StartsWithRank(Strip(line)) then
      var after := AfterFirst(line, '.');
      StripOfSuffixOccurs(line, |line| - |after|);
      var boke := Strip(after);
      if boke != [] then Some(boke) else None
    else
      None
  }

  /** What one line contributes: the value it yields, or nothing. */
  function Values(o: Option<string>): seq<string>
  {
    if o.Some? then [o.value] else []
  }

  /**
   * The values `f` yields on `lines`, in line order, at most one per line:
   * the list a loop builds by appending `f(line).value` for each line where
   * `f(line)` is present.
   */
  function Collect(f: string -> Option<string>, lines: seq<string>): (r: seq<string>)
    ensures |r| <= |lines|
    decreases |lines|
  {
    if lines == [] then []
    else
      Collect(f, lines[..|lines| - 1]) + Values(f(lines[|lines| - 1]))
  }

  /** The punchlines collected from `lines`, in line order, at most one per line. */
  function Bokes(lines: seq<string>): (r: seq<string>)
    ensures |r| <= |lines|
  {
    Collect(LineBoke, lines)
  }

  /**
   * The parsing loop of `generate_bokes` over the completion `text`: walk the
   * lines of `text` in order and append the punchline of each line that has
   * one. The result is the punchlines of the lines of `text`, none of them
   * empty or surrounded by whitespace.
   */
  method ParseBokes(text: string) returns (bokes: seq<string>)
    ensures bokes == Bokes(SplitLines(text))
    ensures |bokes| <= |SplitLines(text)|
    ensures forall k :: 0 <= k < |bokes| ==> bokes[k] != [] && IsStripped(bokes[k])
  {
    var lines := SplitLines(text);
    bokes := [];
    for i := 0 to |lines|
      invariant bokes == Bokes(lines[..i])
    {
      BokesPrefixStep(lines, i);
      var boke := LineBoke(lines[i]);
      if boke.Some? {
        bokes := bokes + [boke.value];
      }
    }
    assert lines[..|lines|] == lines;
    BokesAreStripped(lines);
  }

  /** The punchlines of the first `i + 1` lines are those of the first `i` and then line `i`'s. */
  lemma BokesPrefixStep(lines: seq<string>, i: nat)
    requires i < |lines|
    ensures Bokes(lines[..i + 1]) == Bokes(lines[..i]) + Values(LineBoke(lines[i]))
  {
    assert lines[..i + 1][..i] == lines[..i];
  }

  /** Collecting from lines followed by one more line. */
  lemma CollectSnoc(f: string -> Option<string>, init: seq<string>, line: string)
    ensures Collect(f, init + [line]) == Collect(f, init) + Values(f(line))
  {
    assert (init + [line])[..|init|] == init;
  }

  /** Parsing one more line adds what that line contributes. */
  lemma BokesSnoc(lines: seq<string>, line: string)
    ensures Bokes(lines + [line]) == Bokes(lines) + Values(LineBoke(line))
  {
    CollectSnoc(LineBoke, lines, line);
  }

  // ---------------------------------------------------------------------------
  // Which lines count, and what they give
  // ---------------------------------------------------------------------------

  /**
   * A line yields something only when its stripped form starts with '1'..'5',
   * and what it yields is never empty and has no whitespace at either end.
   */
  lemma LineBokeIsStripped(line: string)
    ensures LineBoke(line).Some? ==> StartsWithRank(Strip(line))
    ensures LineBoke(line).Some? ==> LineBoke(line).value != [] && IsStripped(LineBoke(line).value)
  {
  }

  /**
   * A line whose stripped form does not start with '1'..'5' (a blank line, a
   * preamble, a line led by '0' or '6'..'9') contributes nothing.
   */
  lemma UnnumberedLineIgnored(line: string)
    requires !StartsWithRank(Strip(line))
    ensures LineBoke(line) == None
  {
  }

  /**
   * A kept line whose first '.' is at `i` gives the stripped text after that
   * '.', or nothing when that text is blank.
   */
  lemma KeptLineWithDot(line: string, i: nat)
    requires StartsWithRank(Strip(line))
    requires i < |line| && line[i] == '.' && '.' !in line[..i]
    ensures LineBoke(line) == if Strip(line[i + 1..]) == [] then None else Some(Strip(line[i + 1..]))
  {
    AfterFirstCases(line, '.');
  }

  /**
   * A kept line with no '.' gives the whole stripped line, its leading answer
   * number included: "1 foo" gives "1 foo".
   */
  lemma KeptLineWithoutDot(line: string)
    requires StartsWithRank(Strip(line))
    requires '.' !in line
    ensures LineBoke(line) == Some(Strip(line))
    ensures '1' <= LineBoke(line).value[0] <= '5'
  {
    AfterFirstCases(line, '.');
  }

  // ---------------------------------------------------------------------------
  // The collected list
  // ---------------------------------------------------------------------------

  /** A value is collected exactly when some line yields it. */
  lemma {:induction false} CollectValues(f: string -> Option<string>, lines: seq<string>)
    ensures forall x :: x in Collect(f, lines) <==> exists j :: 0 <= j < |lines| && f(lines[j]) == Some(x)
    decreases |lines|
  {
    if lines != [] {
      var init := lines[..|lines| - 1];
      CollectValues(f, init);
      assert forall j :: 0 <= j < |init| ==> init[j] == lines[j];
    }
  }

  /** Collecting from two runs of lines one after the other concatenates what is collected. */
  lemma {:induction false} CollectAppend(f: string -> Option<string>, a: seq<string>, b: seq<string>)
    ensures Collect(f, a + b) == Collect(f, a) + Collect(f, b)
    decreases |b|
  {
    if b == [] {
      assert a + b == a;
    } else {
      var b' := b[..|b| - 1];
      assert (a + b)[..|a + b| - 1] == a + b';
      CollectAppend(f, a, b');
    }
  }

  /** Nothing is collected exactly when no line yields a value. */
  lemma {:induction false} CollectEmpty(f: string -> Option<string>, lines: seq<string>)
    ensures Collect(f, lines) == [] <==> forall j :: 0 <= j < |lines| ==> f(lines[j]).None?
    decreases |lines|
  {
    if lines != [] {
      var init := lines[..|lines| - 1];
      CollectEmpty(f, init);
      assert forall j :: 0 <= j < |init| ==> init[j] == lines[j];
    }
  }

  /** When every line yields a value, every value is collected, in line order. */
  lemma {:induction false} CollectAll(f: string -> Option<string>, lines: seq<string>)
    requires forall j :: 0 <= j < |lines| ==> f(lines[j]).Some?
    ensures |Collect(f, lines)| == |lines|
    ensures forall j :: 0 <= j < |lines| ==> Collect(f, lines)[j] == f(lines[j]).value
    decreases |lines|
  {
    if lines != [] {
      var init := lines[..|lines| - 1];
      assert forall j :: 0 <= j < |init| ==> init[j] == lines[j];
      CollectAll(f, init);
    }
  }

  /** Parsing two runs of lines one after the other concatenates their punchlines. */
  lemma BokesAppend(a: seq<string>, b: seq<string>)
    ensures Bokes(a + b) == Bokes(a) + Bokes(b)
  {
    CollectAppend(LineBoke, a, b);
  }

  /** Every punchline collected is non-empty and has no whitespace at either end. */
  lemma BokesAreStripped(lines: seq<string>)
    ensures forall k :: 0 <= k < |Bokes(lines)| ==> Bokes(lines)[k] != [] && IsStripped(Bokes(lines)[k])
  {
    var r := Bokes(lines);
    CollectValues(LineBoke, lines);
    forall k | 0 <= k < |r| ensures r[k] != [] && IsStripped(r[k]) {
      assert r[k] in r;
      var j :| 0 <= j < |lines| && LineBoke(lines[j]) == Some(r[k]);
      LineBokeIsStripped(lines[j]);
    }
  }

  /**
   * Removing a line that yields nothing (for one, a line whose stripped form
   * does not start with an answer number) leaves the result unchanged: such
   * lines are skipped wherever they stand.
   */
  lemma SkippedLineAnywhere(before: seq<string>, line: string, after: seq<string>)
    requires LineBoke(line) == None
    ensures Bokes(before + [line] + after) == Bokes(before + after)
  {
    SilentLine(line);
    BokesAppend(before + [line], after);
    BokesAppend(before, [line]);
    BokesAppend(before, after);
    assert Bokes(before) + Bokes([line]) == Bokes(before);
  }

  /** A line that yields nothing, parsed on its own, gives an empty list. */
  lemma SilentLine(line: string)
    requires LineBoke(line) == None
    ensures Bokes([line]) == []
  {
    CollectSnoc(LineBoke, [], line);
    assert [] + [line] == [line];
  }

  /** `x` is collected exactly when some line yields `x`. */
  lemma BokesMembership(lines: seq<string>, x: string)
    ensures x in Bokes(lines) <==> exists j :: 0 <= j < |lines| && LineBoke(lines[j]) == Some(x)
  {
    CollectValues(LineBoke, lines);
  }

  /**
   * The result is empty exactly when no line yields a punchline; in
   * particular text with no numbered line gives an empty list, not an error.
   */
  lemma BokesEmpty(lines: seq<string>)
    ensures Bokes(lines) == [] <==> forall j :: 0 <= j < |lines| ==> LineBoke(lines[j]) == None
  {
    CollectEmpty(LineBoke, lines);
  }

  /**
   * There is no cap and no de-duplication: when every line yields a punchline,
   * there are as many punchlines as lines, repeats included, in line order.
   */
  lemma EveryLineKept(lines: seq<string>)
    requires forall j :: 0 <= j < |lines| ==> LineBoke(lines[j]).Some?
    ensures |Bokes(lines)| == |lines|
    ensures forall j :: 0 <= j < |lines| ==> Bokes(lines)[j] == LineBoke(lines[j]).value
  {
    CollectAll(LineBoke, lines);
  }

  // ---------------------------------------------------------------------------
  // Lines in the shape the prompt asks for
  // ---------------------------------------------------------------------------

  /**
   * A line "H. text", where H starts with one of '1'..'5' and holds no '.',
   * gives `text` when it is stripped and non-empty; H may be longer than one
   * digit, as in "10. x".
   */
  lemma RankedLine(line: string, head: string, text: string)
    requires line == head + ". " + text
    requires head != [] && '1' <= head[0] <= '5' && '.' !in head
    requires text != [] && IsStripped(text)
    ensures LineBoke(line) == Some(text)
  {
    RankedLineIsStripped(line, head, text);
    RankedLineAfterDot(line, head, text);
    StripExact(" ", text, "");
    assert " " + text + "" == " " + text;
  }

  lemma RankedLineIsStripped(line: string, head: string, text: string)
    requires line == head + ". " + text
    requires head != [] && '1' <= head[0] <= '5'
    requires text != [] && IsStripped(text)
    ensures Strip(line) == line
  {
    assert line[0] == head[0];
    assert line[|line| - 1] == text[|text| - 1];
    StripExact("", line, "");
    assert "" + line + "" == line;
  }

  lemma RankedLineAfterDot(line: string, head: string, text: string)
    requires line == head + ". " + text
    requires '.' !in head
    ensures AfterFirst(line, '.') == " " + text
  {
    var i := |head|;
    assert line[..i] == head;
    assert line[i] == '.';
    assert line[i + 1..] == " " + text;
    AfterFirstCases(line, '.');
  }

  /** "N. text" with N in 1..5 and stripped, non-empty text gives that text. */
  lemma NumberedLine(line: string, n: char, text: string)
    requires line == [n] + ". " + text
    requires '1' <= n <= '5'
    requires text != [] && IsStripped(text)
    ensures LineBoke(line) == Some(text)
  {
    RankedLine(line, [n], text);
  }

  /** A bare answer number "N." gives nothing: nothing follows its '.'. */
  lemma BareNumber(line: string, n: char)
    requires line == [n] + "."
    requires '1' <= n <= '5'
    ensures LineBoke(line) == None
  {
    assert line[1] == '.' && '.' !in line[..1];
    StripExact("", line, "");
    assert "" + line + "" == line;
    KeptLineWithDot(line, 1);
    assert line[2..] == [];
  }

  /** A line whose stripped form is `line` itself and starts with a non-digit yields nothing. */
  lemma ProseLine(line: string)
    requires line != [] && IsStripped(line) && !('1' <= line[0] <= '5')
    ensures LineBoke(line) == None
  {
    StripExact("", line, "");
    assert "" + line + "" == line;
  }

  /** Whatever the line function, lines that each give a value give those values in order. */
  lemma CollectExactly(f: string -> Option<string>, lines: seq<string>, items: seq<string>)
    requires |lines| == |items|
    requires forall k :: 0 <= k < |lines| ==> f(lines[k]) == Some(items[k])
    ensures Collect(f, lines) == items
  {
    CollectAll(f, lines);
  }

  /** The lines "N. item" for the answer numbers `ranks` and the items `items`. */
  function Numbered(ranks: seq<char>, items: seq<string>): seq<string>
    requires |ranks| == |items|
  {
    seq(|items|, k requires 0 <= k < |items| => [ranks[k]] + ". " + items[k])
  }

  /** The bare answer numbers "N." the prompt ends with. */
  function BareNumbers(ranks: seq<char>): seq<string>
  {
    seq(|ranks|, k requires 0 <= k < |ranks| => [ranks[k]] + ".")
  }

  /**
   * Any run of "N. item" lines gives back every item, in order: there is no
   * cap at five, and a repeated number or item is kept each time.
   */
  lemma NumberedItemsKept(ranks: seq<char>, items: seq<string>)
    requires |ranks| == |items|
    requires forall k :: 0 <= k < |ranks| ==> '1' <= ranks[k] <= '5'
    requires forall k :: 0 <= k < |items| ==> items[k] != [] && IsStripped(items[k])
    ensures Bokes(Numbered(ranks, items)) == items
  {
    var lines := Numbered(ranks, items);
    forall k | 0 <= k < |lines| ensures LineBoke(lines[k]) == Some(items[k]) {
      NumberedLine(lines[k], ranks[k], items[k]);
    }
    CollectExactly(LineBoke, lines, items);
  }

  /** Bare answer numbers, an unfilled scaffold, give nothing. */
  lemma BareNumbersGiveNothing(ranks: seq<char>)
    requires forall k :: 0 <= k < |ranks| ==> '1' <= ranks[k] <= '5'
    ensures Bokes(BareNumbers(ranks)) == []
  {
    var lines := BareNumbers(ranks);
    forall k | 0 <= k < |lines| ensures LineBoke(lines[k]) == None {
      BareNumber(lines[k], ranks[k]);
    }
    BokesEmpty(lines);
  }

  /** A single-line item that needs no stripping. */
  ghost predicate PlainItem(x: string)
  {
    x != [] && IsStripped(x) && NoBreak(x)
  }

  lemma NumberedNoBreak(n: char, x: string)
    requires '1' <= n <= '5' && NoBreak(x)
    ensures NoBreak([n] + ". " + x)
  {
    var line := [n] + ". " + x;
    forall i | 0 <= i < |line| ensures !IsLineBreak(line[i]) {
      if i >= 3 {
        assert line[i] == x[i - 3];
      }
    }
  }

  /**
   * Round trip: a reply written in the requested shape, one "N. item" line
   * per item joined with "\n", is parsed back into exactly those items.
   */
  lemma WellFormedAnswer(ranks: seq<char>, items: seq<string>)
    requires |ranks| == |items|
    requires forall k :: 0 <= k < |ranks| ==> '1' <= ranks[k] <= '5'
    requires forall k :: 0 <= k < |items| ==> PlainItem(items[k])
    ensures Bokes(SplitLines(Join("\n", Numbered(ranks, items)))) == items
  {
    var lines := Numbered(ranks, items);
    if items == [] {
      assert lines == [];
      assert SplitLines("") == [];
    } else {
      forall k | 0 <= k < |lines| ensures NoBreak(lines[k]) {
        NumberedNoBreak(ranks[k], items[k]);
      }
      SplitLinesOfJoin(lines);
      NumberedItemsKept(ranks, items);
    }
  }

  // ---------------------------------------------------------------------------
  // Worked examples
  // ---------------------------------------------------------------------------

  /** A well-formed five-item answer gives its five punchlines. */
  lemma FiveAnswers()
    ensures Bokes(SplitLines("1. a\n2. b\n3. c\n4. d\n5. e")) == ["a", "b", "c", "d", "e"]
  {
    FiveAnswersLines();
    FiveAnswersItems();
    WellFormedAnswer("12345", ["a", "b", "c", "d", "e"]);
  }

  lemma FiveAnswersLines()
    ensures Numbered("12345", ["a", "b", "c", "d", "e"]) == ["1. a", "2. b", "3. c", "4. d", "5. e"]
    ensures Join("\n", ["1. a", "2. b", "3. c", "4. d", "5. e"]) == "1. a\n2. b\n3. c\n4. d\n5. e"
  {
    var lines := Numbered("12345", ["a", "b", "c", "d", "e"]);
    assert lines[0] == "1. a" && lines[1] == "2. b" && lines[2] == "3. c";
    assert lines[3] == "4. d" && lines[4] == "5. e";
    FiveAnswersText();
  }

  /** The reply text, as the join of its lines; kept apart because it evaluates literals. */
  lemma FiveAnswersText()
    ensures Join("\n", ["1. a", "2. b", "3. c", "4. d", "5. e"]) == "1. a\n2. b\n3. c\n4. d\n5. e"
  {
  }

  lemma FiveAnswersItems()
    ensures forall k :: 0 <= k < 5 ==> '1' <= "12345"[k] <= '5' && PlainItem(["a", "b", "c", "d", "e"][k])
  {
    var items := ["a", "b", "c", "d", "e"];
    forall k | 0 <= k < 5 ensures PlainItem(items[k]) {
      assert |items[k]| == 1;
    }
  }

  /** Lines that give nothing may stand before and between the numbered ones. */
  lemma ProseInterleaved(pre: string, first: seq<string>, aside: string, second: seq<string>)
    requires LineBoke(pre) == None && LineBoke(aside) == None
    ensures Bokes([pre] + first + [aside] + second) == Bokes(first + second)
  {
    var rest := first + [aside] + second;
    assert [] + [pre] + rest == [pre] + first + [aside] + second;
    assert [] + rest == rest;
    SkippedLineAnywhere([], pre, rest);
    SkippedLineAnywhere(first, aside, second);
  }

  /** A preamble and an interjected line are skipped. */
  lemma PreambleSkipped()
    ensures Bokes(SplitLines("Sure:\n1. foo\nblah\n2. bar")) == ["foo", "bar"]
  {
    PreambleLines();
    PreambleProse();
    PreambleItems();
    ProseInterleaved("Sure:", ["1. foo"], "blah", ["2. bar"]);
    NumberedItemsKept("12", ["foo", "bar"]);
  }

  lemma PreambleLines()
    ensures SplitLines("Sure:\n1. foo\nblah\n2. bar") == ["Sure:", "1. foo", "blah", "2. bar"]
  {
    var lines := ["Sure:", "1. foo", "blah", "2. bar"];
    PreambleText();
    assert forall k :: 0 <= k < 4 ==> NoBreak(lines[k]);
    SplitLinesOfJoin(lines);
  }

  /** The reply text, as the join of its lines; kept apart because it evaluates literals. */
  lemma PreambleText()
    ensures Join("\n", ["Sure:", "1. foo", "blah", "2. bar"]) == "Sure:\n1. foo\nblah\n2. bar"
  {
  }

  lemma PreambleProse()
    ensures LineBoke("Sure:") == None && LineBoke("blah") == None
  {
    ProseLine("Sure:");
    ProseLine("blah");
  }

  /** How the preamble reply regroups around its prose lines; kept apart because it evaluates literals. */
  lemma PreambleItems()
    ensures ["Sure:", "1. foo", "blah", "2. bar"] == ["Sure:"] + ["1. foo"] + ["blah"] + ["2. bar"]
    ensures Numbered("12", ["foo", "bar"]) == ["1. foo"] + ["2. bar"]
    ensures forall k :: 0 <= k < 2 ==> '1' <= "12"[k] <= '5'
    ensures forall k :: 0 <= k < 2 ==> ["foo", "bar"][k] != [] && IsStripped(["foo", "bar"][k])
  {
    var numbered := Numbered("12", ["foo", "bar"]);
    assert numbered[0] == "1. foo" && numbered[1] == "2. bar";
  }

  /**
   * Neither five items nor distinct items are enforced: a repeated number is
   * kept twice, and "10. x" counts because it starts with '1'.
   */
  lemma NoCapNoDedup()
    ensures Bokes(["1. a", "1. a", "2. b", "3. c", "4. d", "5. e", "10. x"]) == ["a", "a", "b", "c", "d", "e", "x"]
  {
    var six := ["1. a", "1. a", "2. b", "3. c", "4. d", "5. e"];
    NoCapNoDedupLines();
    NumberedItemsKept("112345", ["a", "a", "b", "c", "d", "e"]);
    TenthLine();
    BokesSnoc(six, "10. x");
  }

  lemma NoCapNoDedupLines()
    ensures Numbered("112345", ["a", "a", "b", "c", "d", "e"]) == ["1. a", "1. a", "2. b", "3. c", "4. d", "5. e"]
    ensures ["1. a", "1. a", "2. b", "3. c", "4. d", "5. e"] + ["10. x"] == ["1. a", "1. a", "2. b", "3. c", "4. d", "5. e", "10. x"]
    ensures ["a", "a", "b", "c", "d", "e"] + ["x"] == ["a", "a", "b", "c", "d", "e", "x"]
    ensures forall k :: 0 <= k < 6 ==> '1' <= "112345"[k] <= '5'
    ensures forall k :: 0 <= k < 6 ==> ["a", "a", "b", "c", "d", "e"][k] != [] && IsStripped(["a", "a", "b", "c", "d", "e"][k])
  {
    var lines := Numbered("112345", ["a", "a", "b", "c", "d", "e"]);
    assert lines[0] == "1. a" && lines[1] == "1. a" && lines[2] == "2. b";
    assert lines[3] == "3. c" && lines[4] == "4. d" && lines[5] == "5. e";
    var items := ["a", "a", "b", "c", "d", "e"];
    forall k | 0 <= k < 6 ensures items[k] != [] && IsStripped(items[k]) {
      assert |items[k]| == 1;
    }
  }

  /** The prompt's own answer scaffold, echoed back unfilled, gives no punchline. */
  lemma EchoedScaffoldGivesNothing()
    ensures Bokes(SplitLines(Prompt.Scaffold)) == []
  {
    ScaffoldLines();
    ScaffoldBare();
    BareNumbersGiveNothing("12345");
  }

  lemma ScaffoldLines()
    ensures SplitLines(Prompt.Scaffold) == BareNumbers("12345")
  {
    var lines := ["1.", "2.", "3.", "4.", "5."];
    ScaffoldBare();
    Prompt.AnswersHaveNoBreak();
    Prompt.ScaffoldIsLines();
    SplitLinesOfLines(lines);
  }

  lemma ScaffoldBare()
    ensures BareNumbers("12345") == ["1.", "2.", "3.", "4.", "5."]
    ensures forall k :: 0 <= k < 5 ==> '1' <= "12345"[k] <= '5'
  {
    var bare := BareNumbers("12345");
    assert bare[0] == "1." && bare[1] == "2." && bare[2] == "3." && bare[3] == "4." && bare[4] == "5.";
  }

  /** "10. x" gives "x": it counts because it starts with '1'. */
  lemma TenthLine()
    ensures LineBoke("10. x") == Some("x")
  {
    assert "10. x" == "10" + ". " + "x";
    RankedLine("10. x", "10", "x");
  }

  /** A numbered line without a '.' keeps its number: "1 foo" gives "1 foo". */
  lemma NumberWithoutDot()
    ensures LineBoke("1 foo") == Some("1 foo")
  {
    StripExact("", "1 foo", "");
    assert "" + "1 foo" + "" == "1 foo";
    KeptLineWithoutDot("1 foo");
  }
}
