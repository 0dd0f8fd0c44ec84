/**
 * The prompt builder of ogiri.py (`build_prompt`): a rules block made from the
 * selected rule phrases and an optional free-text rule, placed in a fixed
 * Japanese template together with the topic and a five-line answer scaffold.
 */
module Prompt {
  import opened PyText

  /** The fixed lines of the template, in the order they appear. */
  const Intro := "あなたは一流の大喜利芸人AIです。"
  const Request := "以下のお題に対して、観客から高評価を得られそうなボケを5つ考えてください。"
  const RulesHeading := "【ルール】"
  const LengthRule := "・1ボケにつき1～2文以内"
  const TopicHeading := "【お題】"
  const AnswerHeading := "【回答】"
  /** The bullet that opens every rule line. */
  const Bullet := "・"
  /** The answer scaffold the model is asked to fill in. */
  const Scaffold := "1.\n2.\n3.\n4.\n5.\n"

  /**
   * The rule lines as the prompt is meant to show them: one bulleted line per
   * selected rule, in the given order, then, when a custom rule was typed, one
   * bulleted line holding it without surrounding whitespace.
   */
  function RuleLines(rules: seq<string>, customRule: string): (ls: seq<string>)
    ensures |ls| == |rules| + (if customRule != "" then 1 else 0)
    ensures forall k :: 0 <= k < |ls| ==> Bullet <= ls[k]
  {
    seq(|rules|, k requires 0 <= k < |rules| => Bullet + rules[k])
    + (if customRule != "" then [Bullet + Strip(customRule)] else [])
  }

  /**
   * `rule_text` as build_prompt assembles it: the selected rules joined by
   * "\n・" behind a first "・" with a "\n" at the end, then the custom rule.
   * The custom rule is checked for emptiness before it is stripped, so a
   * whitespace-only custom rule still gives a bare "・" line.
   */
  function RuleText(rules: seq<string>, customRule: string): (r: string)
    ensures r == Lines(RuleLines(rules, customRule))
    ensures r == "" <==> rules == [] && customRule == ""
  {
    var selected := if rules != [] then Bullet + Join("\n" + Bullet, rules) + "\n" else "";
    var custom := if customRule != "" then Bullet + Strip(customRule) + "\n" else "";
    var bullets := seq(|rules|, k requires 0 <= k < |rules| => Bullet + rules[k]);
    var extra := if customRule != "" then [Bullet + Strip(customRule)] else [];
    assert selected == Lines(bullets) by {
      if rules != [] { JoinAsLines(Bullet, rules); }
    }
    assert custom == Lines(extra);
    LinesAppend(bullets, extra);
    selected + custom
  }

  /**
   * The lines of the prompt: an empty first line, the two instruction lines, the
   * rules block, the fixed length rule, the topic under its heading and the
   * answer scaffold "1." to "5.". Seventeen fixed lines surround the rule
   * lines; the topic is the eighth line from the end, the last five are the
   * scaffold.
   */
  function PromptLines(topic: string, rules: seq<string>, customRule: string): (ls: seq<string>)
    ensures |ls| == 17 + |rules| + (if customRule != "" then 1 else 0)
    ensures ls[|ls| - 8] == topic
    ensures ls[|ls| - 5..] == ["1.", "2.", "3.", "4.", "5."]
  {
    ["", Intro, Request, "", RulesHeading]
    + RuleLines(rules, customRule)
    + ["", LengthRule, "", TopicHeading, topic, "", AnswerHeading, "1.", "2.", "3.", "4.", "5."]
  }

  /**
   * `build_prompt(topic, rules, custom_rule)`: the template with `rule_text`
   * and the topic substituted. The prompt always ends with the answer scaffold
   * and always holds the topic, verbatim, between the topic heading's line
   * break and the line break after it.
   */
  function BuildPrompt(topic: string, rules: seq<string>, customRule: string): (p: string)
    ensures |Scaffold| <= |p| && p[|p| - |Scaffold|..] == Scaffold
    ensures Occurs(TopicHeading + "\n" + topic + "\n", p)
  {
    var rulesBlock := "\n" + Intro + "\n" + Request + "\n\n" + RulesHeading + "\n" + RuleText(rules, customRule);
    var topicBlock := TopicHeading + "\n" + topic + "\n";
    ConcatFacts(rulesBlock + ("\n" + LengthRule + "\n\n"), topicBlock, "\n" + AnswerHeading + "\n", Scaffold);
    rulesBlock + ("\n" + LengthRule + "\n\n") + topicBlock + ("\n" + AnswerHeading + "\n") + Scaffold
  }

  /** The prompt is the prompt lines, each ended by "\n". */
  lemma BuildPromptIsLines(topic: string, rules: seq<string>, customRule: string)
    ensures BuildPrompt(topic, rules, customRule) == Lines(PromptLines(topic, rules, customRule))
  {
    var before := ["", Intro, Request, "", RulesHeading];
    var rl := RuleLines(rules, customRule);
    var middle := ["", LengthRule, "", TopicHeading, topic, "", AnswerHeading];
    var answers := ["1.", "2.", "3.", "4.", "5."];
    assert PromptLines(topic, rules, customRule) == before + rl + (middle + answers);
    HeadAsLines(Intro, Request, RulesHeading);
    MiddleAsLines(LengthRule, TopicHeading, topic, AnswerHeading);
    ScaffoldIsLines();
    LinesAppend(middle, answers);
    LinesAppend(before + rl, middle + answers);
    LinesAppend(before, rl);
    Regroup("\n" + Intro + "\n" + Request + "\n\n" + RulesHeading + "\n", RuleText(rules, customRule),
            "\n" + LengthRule + "\n\n", TopicHeading + "\n" + topic + "\n", "\n" + AnswerHeading + "\n", Scaffold);
  }

  /**
   * Regrouping of the prompt's pieces, kept apart from the template's literal
   * text so that the solver reasons about it symbolically.
   */
  lemma Regroup(head: string, ruleText: string, middle: string, topicBlock: string, answer: string, scaffold: string)
    ensures (head + ruleText) + ((middle + topicBlock + answer) + scaffold)
         == head + ruleText + middle + topicBlock + answer + scaffold
  {
  }

  /** The opening lines of the template, up to the rules heading. */
  lemma HeadAsLines(intro: string, request: string, heading: string)
    ensures Lines(["", intro, request, "", heading]) == "\n" + intro + "\n" + request + "\n\n" + heading + "\n"
  {
    Lines5("", intro, request, "", heading);
  }

  /** The lines between the rules block and the answer scaffold. */
  lemma MiddleAsLines(lengthRule: string, topicHeading: string, topic: string, answerHeading: string)
    ensures Lines(["", lengthRule, "", topicHeading, topic, "", answerHeading])
         == ("\n" + lengthRule + "\n\n") + (topicHeading + "\n" + topic + "\n") + ("\n" + answerHeading + "\n")
  {
    var first := ["", lengthRule, "", topicHeading, topic];
    var second := ["", answerHeading];
    assert first + second == ["", lengthRule, "", topicHeading, topic, "", answerHeading];
    LinesAppend(first, second);
    Lines5("", lengthRule, "", topicHeading, topic);
    Lines2("", answerHeading);
  }

  /** The answer scaffold is the five lines "1." to "5.". */
  lemma ScaffoldIsLines()
    ensures Lines(["1.", "2.", "3.", "4.", "5."]) == Scaffold
  {
    Lines5("1.", "2.", "3.", "4.", "5.");
  }

  /** None of the template's fixed lines holds a line break. */
  lemma FixedLinesHaveNoBreak()
    ensures NoBreak(Intro) && NoBreak(Request) && NoBreak(RulesHeading) && NoBreak(LengthRule)
    ensures NoBreak(TopicHeading) && NoBreak(AnswerHeading) && NoBreak(Bullet)
  {
    IntroHasNoBreak();
    RequestHasNoBreak();
  }

  /** Each long instruction line is checked in a lemma of its own, as it evaluates a literal. */
  lemma IntroHasNoBreak()
    ensures NoBreak(Intro)
  {
  }

  lemma RequestHasNoBreak()
    ensures NoBreak(Request)
  {
  }

  /**
   * No line break in the topic, the selected rules or the stripped custom rule
   * (only the stripped custom rule reaches the prompt).
   */
  ghost predicate SingleLineInputs(topic: string, rules: seq<string>, customRule: string)
  {
    NoBreak(topic) && NoBreak(Strip(customRule)) && forall k :: 0 <= k < |rules| ==> NoBreak(rules[k])
  }

  /**
   * When no input holds a line break, splitting the prompt into lines gives
   * exactly the prompt lines: every selected rule on a line of its own, and the
   * topic on the line after the topic heading.
   */
  lemma PromptSplitsIntoLines(topic: string, rules: seq<string>, customRule: string)
    requires SingleLineInputs(topic, rules, customRule)
    ensures SplitLines(BuildPrompt(topic, rules, customRule)) == PromptLines(topic, rules, customRule)
  {
    PromptLinesHaveNoBreak(topic, rules, customRule);
    SplitLinesOfLines(PromptLines(topic, rules, customRule));
    BuildPromptIsLines(topic, rules, customRule);
  }

  /** When no input holds a line break, no prompt line does. */
  lemma PromptLinesHaveNoBreak(topic: string, rules: seq<string>, customRule: string)
    requires SingleLineInputs(topic, rules, customRule)
    ensures NoBreaks(PromptLines(topic, rules, customRule))
  {
    var before := ["", Intro, Request, "", RulesHeading];
    var rl := RuleLines(rules, customRule);
    var middle := ["", LengthRule, "", TopicHeading, topic];
    var answer := ["", AnswerHeading];
    var answers := ["1.", "2.", "3.", "4.", "5."];
    assert PromptLines(topic, rules, customRule) == before + rl + (middle + (answer + answers));
    FixedLinesHaveNoBreak();
    assert NoBreak("");
    NoBreaks5("", Intro, Request, "", RulesHeading);
    RuleLinesHaveNoBreak(rules, customRule);
    NoBreaks5("", LengthRule, "", TopicHeading, topic);
    NoBreaks2("", AnswerHeading);
    AnswersHaveNoBreak();
    NoBreaksAppend(answer, answers);
    NoBreaksAppend(middle, answer + answers);
    NoBreaksAppend(before, rl);
    NoBreaksAppend(before + rl, middle + (answer + answers));
  }

  lemma AnswersHaveNoBreak()
    ensures NoBreaks(["1.", "2.", "3.", "4.", "5."])
  {
    NoBreaks5("1.", "2.", "3.", "4.", "5.");
  }

  /** When the rules hold no line break, no rule line does. */
  lemma RuleLinesHaveNoBreak(rules: seq<string>, customRule: string)
    requires NoBreak(Strip(customRule)) && forall k :: 0 <= k < |rules| ==> NoBreak(rules[k])
    ensures NoBreaks(RuleLines(rules, customRule))
  {
    var rl := RuleLines(rules, customRule);
    FixedLinesHaveNoBreak();
    forall k | 0 <= k < |rl| ensures NoBreak(rl[k]) {
      if k < |rules| {
        NoBreakConcat(Bullet, rules[k]);
      } else {
        NoBreakConcat(Bullet, Strip(customRule));
      }
    }
  }

  /**
   * With no selected rule and no custom rule the rules block is empty: the
   * rules heading is followed by an empty line and then only the fixed length
   * rule. The topic comes later in the prompt, so this holds whatever the
   * topic holds; a topic without line breaks gives 17 lines in all.
   */
  lemma NoRulesLeavesOnlyLengthRule(topic: string)
    ensures RuleText([], "") == ""
    ensures var ls := SplitLines(BuildPrompt(topic, [], ""));
            |ls| >= 9 && ls[..9] == ["", Intro, Request, "", RulesHeading, "", LengthRule, "", TopicHeading]
    ensures NoBreak(topic) ==> |SplitLines(BuildPrompt(topic, [], ""))| == 17
  {
    var opening := ["", Intro, Request, "", RulesHeading, "", LengthRule, "", TopicHeading];
    var after := [topic, "", AnswerHeading, "1.", "2.", "3.", "4.", "5."];
    NoRulesPromptSplits(topic);
    OpeningHasNoBreak();
    SplitLinesAfterLines(opening, Lines(after));
    var ls := SplitLines(BuildPrompt(topic, [], ""));
    assert ls == opening + SplitLines(Lines(after));
    assert ls[..9] == opening;
    if NoBreak(topic) {
      PromptSplitsIntoLines(topic, [], "");
    }
  }

  /** With no rules, the prompt is the opening lines written out in front of the rest. */
  lemma NoRulesPromptSplits(topic: string)
    ensures BuildPrompt(topic, [], "")
         == Lines(["", Intro, Request, "", RulesHeading, "", LengthRule, "", TopicHeading])
          + Lines([topic, "", AnswerHeading, "1.", "2.", "3.", "4.", "5."])
  {
    var opening := ["", Intro, Request, "", RulesHeading, "", LengthRule, "", TopicHeading];
    var after := [topic, "", AnswerHeading, "1.", "2.", "3.", "4.", "5."];
    assert RuleLines([], "") == [];
    assert PromptLines(topic, [], "") == opening + after;
    BuildPromptIsLines(topic, [], "");
    LinesAppend(opening, after);
  }

  /** The lines before the topic, in a prompt with no rules, hold no line break. */
  lemma OpeningHasNoBreak()
    ensures NoBreaks(["", Intro, Request, "", RulesHeading, "", LengthRule, "", TopicHeading])
  {
    var head := ["", Intro, Request, "", RulesHeading];
    var lengthRule := ["", LengthRule];
    var topicHeading := ["", TopicHeading];
    FixedLinesHaveNoBreak();
    assert NoBreak("");
    NoBreaks5("", Intro, Request, "", RulesHeading);
    NoBreaks2("", LengthRule);
    NoBreaks2("", TopicHeading);
    NoBreaksAppend(lengthRule, topicHeading);
    NoBreaksAppend(head, lengthRule + topicHeading);
    assert head + (lengthRule + topicHeading) == ["", Intro, Request, "", RulesHeading, "", LengthRule, "", TopicHeading];
  }

  /**
   * A custom rule made only of whitespace is not empty, so it still adds a
   * line, and that line is the bare bullet.
   */
  lemma BlankCustomRuleAddsBareBullet(rules: seq<string>, customRule: string)
    requires customRule != "" && AllSpace(customRule)
    ensures RuleText(rules, customRule) == RuleText(rules, "") + Bullet + "\n"
  {
    var r := Strip(customRule);
    StripTrims(customRule);
    var i :| 0 <= i <= |customRule| - |r| && r == customRule[i..i + |r|] && AllSpace(customRule[..i]) && AllSpace(customRule[i + |r|..]);
    assert Bullet + r == Bullet;
    var bullets := seq(|rules|, k requires 0 <= k < |rules| => Bullet + rules[k]);
    assert RuleLines(rules, customRule) == bullets + [Bullet];
    assert RuleLines(rules, "") == bullets;
    LinesAppend(bullets, [Bullet]);
  }
}
