# ogiri: prompt builder and punchline parser

ogiri is a small Streamlit app for *ōgiri*, the Japanese comedy game where
players answer a prompt (the *odai*, お題) with punchlines (*boke*, ボケ).
The app sends the topic and some style rules to a chat-completion model and
shows the punchlines it gets back. This project models the two pieces of
logic in `ogiri.py` that do not depend on the UI or the network:

- `build_prompt(topic, rules, custom_rule)` builds the instruction text from a
  fixed Japanese template. The template holds a rules block made of the
  selected rule phrases and an optional free-text rule, the topic, and a
  five-line answer scaffold "1." to "5.".
- The parsing loop at the end of `generate_bokes` turns the completion text
  into a list of punchlines. It walks the text's lines and keeps each line
  whose stripped form starts with '1' to '5'. From such a line it takes the
  text after the first '.', strips it, and collects it when the result is
  not empty.

The model is in three modules:

- `PyText.dfy` holds the Python `str` operations the code relies on, over
  Dafny strings: `str.isspace` with Python 3's full whitespace table,
  `strip()`, `splitlines()` with its full table of line boundaries (including
  "\r\n"), `sep.join(xs)`, and `s.split(sep, 1)[-1]`.
- `Prompt.dfy` holds `build_prompt`, as pure functions over the template's
  constants, together with its line structure.
- `Parser.dfy` holds the parser:
  - `LineBoke` gives what one line contributes;
  - `Bokes` is the specification of the whole loop;
  - `ParseBokes` is the loop itself, a method proved against `Bokes`;
  - the lemmas cover skipping, ordering, no cap and no de-duplication, the
    round trip from a reply in the requested shape, and worked examples.

## Model

| member | source | states |
|---|---|---|
| PyText.IsSpace | ogiri.py:57-58 | the characters `strip()` removes are Python's whitespace table, and none of them is a digit or a '.', so stripping never removes an answer number or its '.'; `Strip` and the lemmas on it below pin down how the table is used |
| PyText.IsLineBreak | ogiri.py:56 | the characters `splitlines()` ends a line at are Python's line-boundary table, and every one of them is whitespace; `SplitLines`, `LineEndIsFirstBreak` and `SplitFirstLine` pin down how the table is used |
| PyText.Strip | ogiri.py:57 | `strip()` never lengthens its input, and its result has no whitespace at either end |
| PyText.StripTrims | ogiri.py:57 | the stripped string is a contiguous slice of the input, and everything cut off on either side is whitespace |
| PyText.StripExact | ogiri.py:58 | stripping whitespace from around a string with no whitespace at its ends gives that string back exactly |
| PyText.StripOfSuffixOccurs | ogiri.py:58 | stripping any tail of a string leaves a piece of that string |
| PyText.StripIdempotent | ogiri.py:57 | stripping twice gives the same result as stripping once |
| PyText.LeadingSpaceIsMaximal | ogiri.py:57 | the leading run `strip()` removes is all whitespace and is followed by a non-whitespace character or the end |
| PyText.TrailingSpaceIsMaximal | ogiri.py:57 | the trailing run `strip()` removes is all whitespace and is preceded by a non-whitespace character or the start |
| PyText.SplitLines | ogiri.py:56 | `splitlines()` gives no more lines than the text has characters, and no line holds a line boundary |
| PyText.LineEndIsFirstBreak | ogiri.py:56 | a line ends at the first line boundary: nothing before it is a boundary, and a boundary stands where it stops |
| PyText.LineEndAt | ogiri.py:56 | a line ends at the first position holding a boundary, or at the end of the text when no boundary follows |
| PyText.SplitFirstLine | ogiri.py:56 | a line with no boundary, followed by "\n", is split off as the first line, and the rest of the text is split on its own |
| PyText.SplitOnlyLine | ogiri.py:56 | a non-empty text with no boundary is a single line |
| PyText.SplitLinesOfLines | ogiri.py:56 | writing out lines that hold no boundary, each followed by "\n", and splitting again gives exactly those lines |
| PyText.SplitLinesAfterLines | ogiri.py:56 | lines holding no boundary, each followed by "\n", are split off ahead of whatever text follows them, and that text is split on its own |
| PyText.SplitLinesOfJoin | ogiri.py:56 | joining lines that hold no boundary with "\n" and splitting again gives exactly those lines when the last line is not empty |
| PyText.Join | ogiri.py:22 | `sep.join(xs)`: joining nothing gives "", and a join starts with the first item; `JoinAsLines` and `SplitLinesOfJoin` pin down the rest |
| PyText.JoinAsLines | ogiri.py:22 | "・" followed by the rules joined with "\n・", plus a final "\n", puts every rule on a bulleted line of its own |
| PyText.IndexOfIsFirst | ogiri.py:58 | the separator index found is its first occurrence: no earlier character is the separator |
| PyText.AfterFirst | ogiri.py:58 | `split('.', 1)[-1]` is a tail of the line, shorter than the line exactly when the line holds a '.'; `AfterFirstCases` fixes which tail |
| PyText.AfterFirstCases | ogiri.py:58 | `split('.', 1)[-1]` is the whole line when it holds no '.', and otherwise the text after its first '.' |
| PyText.NoBreakConcat | ogiri.py:22 | two strings with no line boundary concatenate into one with none |
| PyText.NoBreaksAppend | ogiri.py:26-43 | two runs of lines with no boundary form one run with none |
| Prompt.RuleLines | ogiri.py:21-24 | the rule lines the rules block is meant to show: one per selected rule plus one for a typed custom rule, each opening with the bullet "・"; `RuleText` is proved to write them out |
| Prompt.RuleText | ogiri.py:20-24 | the rules block is the rule lines, each followed by "\n"; it is empty exactly when no rule is selected and the custom rule is empty |
| Prompt.BuildPrompt | ogiri.py:26-43 | the prompt always ends with the scaffold "1.\n2.\n3.\n4.\n5.\n" and holds the topic verbatim on its own line right after 【お題】 |
| Prompt.PromptLines | ogiri.py:26-43 | the lines of the prompt: seventeen fixed lines around the rule lines, the topic eighth from the end, the scaffold "1." to "5." last; `BuildPromptIsLines` and `PromptSplitsIntoLines` tie them to the prompt text |
| Prompt.BuildPromptIsLines | ogiri.py:26-43 | the prompt is the prompt lines, each followed by "\n": an empty first line, the instructions, the rules heading, the rule lines, the fixed length rule, the topic under its heading, and the answer scaffold |
| Prompt.HeadAsLines | ogiri.py:26-30 | the opening of the template, up to the rules heading, is five lines, the first of them empty |
| Prompt.MiddleAsLines | ogiri.py:31-37 | the text between the rules block and the scaffold is the empty line, the length rule, the topic block and the answer heading, as lines |
| Prompt.ScaffoldIsLines | ogiri.py:38-43 | the answer scaffold is the five lines "1." to "5." |
| Prompt.FixedLinesHaveNoBreak | ogiri.py:27-37 | no fixed line of the template, and not the bullet either, holds a line boundary |
| Prompt.PromptLinesHaveNoBreak | ogiri.py:19-43 | when the topic, the selected rules and the stripped custom rule hold no line boundary, no prompt line does |
| Prompt.RuleLinesHaveNoBreak | ogiri.py:21-24 | when the selected rules and the stripped custom rule hold no line boundary, no rule line does |
| Prompt.PromptSplitsIntoLines | ogiri.py:19-43 | for inputs without line boundaries, splitting the prompt into lines gives exactly the prompt lines, so each rule is on a line of its own and the topic is the line after 【お題】 |
| Prompt.NoRulesLeavesOnlyLengthRule | ogiri.py:20-35 | with no selected rule and no custom rule, whatever the topic, the rules block is empty and the prompt's first nine lines are the opening, the rules heading, an empty line, the length rule, an empty line and 【お題】; a topic without line breaks gives 17 lines in all |
| Prompt.NoRulesPromptSplits | ogiri.py:20-43 | with no rules, the prompt is the nine opening lines written out in front of the topic line, the answer heading and the scaffold |
| Prompt.OpeningHasNoBreak | ogiri.py:26-34 | the lines before the topic in a prompt with no rules hold no line boundary |
| Prompt.BlankCustomRuleAddsBareBullet | ogiri.py:23-24 | a whitespace-only custom rule is not empty, so it still adds a line holding only the bullet "・" |
| Parser.StartsWithRank | ogiri.py:57 | `startswith(tuple("12345"))`: a line that starts with an answer number has no leading whitespace; `UnnumberedLineIgnored`, `ProseLine` and `NumberedLine` pin down the test's effect |
| Parser.LineBoke | ogiri.py:57-60 | what one line of the reply contributes: a punchline is always a piece of its line; `KeptLineWithDot`, `KeptLineWithoutDot`, `UnnumberedLineIgnored` and `LineBokeIsStripped` fix every case |
| Parser.Collect | ogiri.py:55-61 | collecting gives at most one value per line |
| Parser.Bokes | ogiri.py:55-61 | at most one punchline per line of the reply |
| Parser.ParseBokes | ogiri.py:55-61 | the loop's result is the punchlines of the lines of the text, in line order; there are no more of them than lines; each is non-empty and has no whitespace at either end |
| Parser.BokesPrefixStep | ogiri.py:56-60 | one more pass of the loop appends exactly what that line contributes |
| Parser.CollectSnoc | ogiri.py:56-60 | collecting from one more line appends exactly what that line yields |
| Parser.BokesSnoc | ogiri.py:56-60 | parsing one more line appends exactly that line's punchline, if it has one |
| Parser.LineBokeIsStripped | ogiri.py:57-60 | a line yields a punchline only when its stripped form starts with '1'..'5', and that punchline is non-empty with no whitespace at either end |
| Parser.UnnumberedLineIgnored | ogiri.py:57 | a line whose stripped form does not start with '1'..'5' yields nothing |
| Parser.KeptLineWithDot | ogiri.py:57-60 | a numbered line whose first '.' is at `i` yields the stripped text after that '.', or nothing when that text is blank |
| Parser.KeptLineWithoutDot | ogiri.py:57-60 | a numbered line with no '.' yields the whole stripped line, number included |
| Parser.CollectValues | ogiri.py:55-61 | a value is collected exactly when some line yields it |
| Parser.CollectAppend | ogiri.py:55-61 | collecting from two runs of lines, one after the other, concatenates the two results |
| Parser.CollectEmpty | ogiri.py:55-61 | nothing is collected exactly when no line yields a value |
| Parser.CollectAll | ogiri.py:55-61 | when every line yields a value, all of them are collected, in line order |
| Parser.CollectExactly | ogiri.py:55-61 | lines that yield given items, one each, are collected as exactly those items |
| Parser.BokesAppend | ogiri.py:55-61 | parsing two runs of lines, one after the other, concatenates their punchlines |
| Parser.BokesAreStripped | ogiri.py:58-60 | every collected punchline is non-empty and has no whitespace at either end |
| Parser.SkippedLineAnywhere | ogiri.py:57-59 | removing a line that yields nothing, wherever it stands, does not change the result |
| Parser.SilentLine | ogiri.py:57-59 | a line that yields nothing, parsed on its own, gives an empty list |
| Parser.BokesMembership | ogiri.py:55-61 | a string is among the punchlines exactly when some line yields it |
| Parser.BokesEmpty | ogiri.py:55-61 | the result is empty exactly when no line yields a punchline |
| Parser.EveryLineKept | ogiri.py:55-61 | no cap and no de-duplication: when every line yields a punchline, there are as many punchlines as lines, repeats included, in line order |
| Parser.RankedLine | ogiri.py:57-60 | "H. text", where H starts with '1'..'5' and holds no '.', yields `text` when `text` is stripped and non-empty; H may be "10" |
| Parser.RankedLineIsStripped | ogiri.py:57 | a line "H. text" starting with a digit and ending with a non-space character is already stripped |
| Parser.RankedLineAfterDot | ogiri.py:58 | in "H. text", where H holds no '.', the text after the first '.' is " text" |
| Parser.NumberedLine | ogiri.py:57-60 | "N. text", with N in 1..5 and `text` stripped and non-empty, yields `text` |
| Parser.BareNumber | ogiri.py:57-59 | a bare answer number "N." yields nothing, because nothing follows its '.' |
| Parser.ProseLine | ogiri.py:57 | a stripped line that does not start with '1'..'5' yields nothing |
| Parser.NumberedItemsKept | ogiri.py:55-61 | any run of "N. item" lines gives back every item, in order, with no cap at five and repeats kept |
| Parser.BareNumbersGiveNothing | ogiri.py:55-61 | a run of bare answer numbers, an unfilled scaffold, gives an empty list |
| Parser.NumberedNoBreak | ogiri.py:56 | "N. item" holds no line boundary when the item holds none |
| Parser.WellFormedAnswer | ogiri.py:55-61 | round trip: a reply in the requested shape, one "N. item" line per item joined with "\n", parses back into exactly those items, the empty reply into an empty list |
| Parser.FiveAnswers | ogiri.py:55-61 | "1. a\n2. b\n3. c\n4. d\n5. e" gives ["a", "b", "c", "d", "e"] |
| Parser.ProseInterleaved | ogiri.py:57 | lines that yield nothing may stand before and between the numbered lines without changing the result |
| Parser.PreambleSkipped | ogiri.py:55-61 | "Sure:\n1. foo\nblah\n2. bar" gives ["foo", "bar"] |
| Parser.NoCapNoDedup | ogiri.py:55-61 | seven numbered lines, with a repeat and a "10. x", give seven punchlines, repeat and "x" included |
| Parser.EchoedScaffoldGivesNothing | ogiri.py:38-43 | the prompt's own answer scaffold, echoed back unfilled, gives no punchline |
| Parser.TenthLine | ogiri.py:57-58 | "10. x" gives "x": it counts because it starts with '1' |
| Parser.NumberWithoutDot | ogiri.py:58 | "1 foo" gives "1 foo": with no '.', the number stays in the punchline |

## Left out

- The password gate (ogiri.py:7-12) is a UI and secrets concern and holds no logic to model.
- Reading the API key and creating the OpenAI client (ogiri.py:15-16) are I/O, so they are not modelled.
- The chat-completion call (ogiri.py:48-53) is a network call to a model whose output is unknown; the model name "gpt-4o" and the temperature 0.95 only configure that call. The parser instead takes the completion text as its input, so every property of the parser holds for any text the model could return.
- `response.choices[0].message.content` can be `None`, and then `splitlines()` raises. This is not modelled, because the parser's input is always a string.
- The Streamlit UI (ogiri.py:64-88) is not modelled. It covers the rule option list, the `button and topic` guard that skips generation for an empty topic, the spinner, and the numbered display of the results.
- Parser.ParseBokes: the loop body calls `LineBoke` for the per-line check and extraction (the nested `if` of ogiri.py:57-59), rather than repeating those statements inline.
- Prompt.PromptSplitsIntoLines: the exact line list is stated only when the topic, the selected rules and the stripped custom rule hold no line boundary. For other inputs the ensures of `Prompt.BuildPrompt` still hold (scaffold at the end, topic after its heading), and with no rules `Prompt.NoRulesLeavesOnlyLengthRule` fixes the first nine lines whatever the topic.
- Parser.WellFormedAnswer: the round trip is stated for one-character answer numbers and items that are already stripped and single-line. Longer numbers are covered by `Parser.RankedLine`.
- Strings are sequences of Unicode scalar values. A Python `str` holding a lone surrogate code point cannot be represented.
