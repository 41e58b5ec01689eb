/**
 * The compiled topic generator: a prompt that also carries the previous
 * topic, the single-quote escaping that embeds the prompt in a shell
 * command, and the treatment of the model's raw output. The escaping is
 * checked against the quoting rules of the shell: a backslash outside
 * quotes keeps the next character literally, and single quotes keep every
 * character up to the next single quote literally (sections 2.2.1 and
 * 2.2.2 of the Shell Command Language, IEEE Std 1003.1).
 */
module DistTopicGenerator {
  import opened Wrappers
  import opened Strings
  import opened TopicGenerator

  /** The first line's tail and the format instructions, up to where the continuity text goes. */
  const FormatInstructions: string :=
    ", generate a terse topic line.\n\nFormat: \"<theme>: <activity>\" where:\n"
    + "- THEME: Meta-level area of work (2-4 words). Should be STABLE across multiple generations.\n"
    + "- ACTIVITY: Current specific focus (2-3 words max gerund phrase, e.g., \"fixing tests\", \"adding auth\")"

  /** The examples, from the end of the continuity text to the context heading. */
  const ExamplesBlock: string :=
    "\n\nExamples:\n- Database migration: updating schema\n- API endpoints: fixing validation\n"
    + "- React components: adding hooks\n- TypeScript: refactoring types\n\n"

  const PreviousTopicOpening: string := "\nPrevious topic: \""

  /** What follows the quoted previous topic. */
  const ContinuityGuidance: string :=
    "\n\nIMPORTANT: Keep the THEME (first part before \":\") STABLE unless the session has "
    + "fundamentally shifted to a different area of work. Only update the ACTIVITY (part after \":\") "
    + "to reflect current focus. The theme should span multiple generations and capture the meta-level "
    + "work, while activity captures what's happening right now.\n\nIf the session is still working on "
    + "the same general area (same theme), preserve that theme exactly and only update the activity. "
    + "Only change the theme if the work has moved to a completely different area."

  const FirstGenerationText: string :=
    "\nThis is the first topic generation. Choose a theme that will be stable across multiple work items."

  /**
   * The fixed texts of the prompt. The prompt functions take them as a
   * value so that their properties hold whatever the wording;
   * `SourceText` is the wording the compiled module uses.
   */
  datatype PromptText = PromptText(
    format: string,          // the format instructions after the first-line label
    examples: string,        // the examples, up to the context heading
    previousOpening: string, // what comes before the quoted previous topic
    guidance: string,        // what follows the quoted previous topic
    firstGeneration: string) // the note used when there is no previous topic

  const SourceText: PromptText :=
    PromptText(FormatInstructions, ExamplesBlock, PreviousTopicOpening, ContinuityGuidance, FirstGenerationText)

  /** JavaScript truthiness of an optional string: present and non-empty. */
  predicate Truthy(t: Option<string>)
  {
    t.Some? && t.value != ""
  }

  /** The previous topic in quotes, as the continuity instructions open. */
  function QuotedPreviousTopic(text: PromptText, previousTopic: string): string
  {
    text.previousOpening + previousTopic + "\""
  }

  /** The continuity instructions: the quoted previous topic and guidance, or the first-generation note. */
  function ContinuityInstructions(text: PromptText, previousTopic: Option<string>): (c: string)
    ensures Truthy(previousTopic) ==>
              var quoted := QuotedPreviousTopic(text, previousTopic.value);
              |c| == |quoted| + |text.guidance| && c[..|quoted|] == quoted
    ensures !Truthy(previousTopic) ==> c == text.firstGeneration
  {
    if Truthy(previousTopic) then
      var quoted := QuotedPreviousTopic(text, previousTopic.value);
      PrefixOfConcat(quoted, text.guidance);
      quoted + text.guidance
    else text.firstGeneration
  }

  /** The part of the prompt before the continuity instructions. */
  function HistoryPromptHead(text: PromptText, source: string): string
  {
    PromptOpening + SourceLabel(source) + text.format
  }

  /** The part between the continuity instructions and the context. */
  function HistoryPromptMiddle(text: PromptText, source: string): string
  {
    text.examples + ContextLabel(source) + ":\n"
  }

  /** Where the parts of a five-part concatenation sit. */
  lemma FivePartPositions(a: string, b: string, c: string, d: string, e: string)
    ensures var p := a + b + c + d + e;
            |p| == |a| + |b| + |c| + |d| + |e|
            && p[..|a|] == a && p[|a|..|a| + |b|] == b
            && p[|p| - |e| - |d|..|p| - |e|] == d && p[|p| - |e|..] == e
  {
    var p := a + b + c + d + e;
    assert p == a + (b + (c + (d + e)));
    assert p[|a|..][..|b|] == b;
    assert p[|p| - |e| - |d|..] == d + e;
  }

  /**
   * `buildPrompt(source, context, previousTopic)`: the same labels as the
   * TypeScript version, the continuity instructions after the format
   * description, the context verbatim after its heading, and `Topic:` last.
   */
  function BuildPromptWithHistory(text: PromptText, source: string, context: string, previousTopic: Option<string>): (p: string)
    ensures var h := |HistoryPromptHead(text, source)|;
            var cont := ContinuityInstructions(text, previousTopic);
            |p| == h + |cont| + |HistoryPromptMiddle(text, source)| + |context| + |PromptClosing|
            && p[..h] == HistoryPromptHead(text, source) && p[h..h + |cont|] == cont
    ensures p[|p| - |PromptClosing| - |context|..|p| - |PromptClosing|] == context
    ensures p[|p| - |PromptClosing|..] == PromptClosing
  {
    var head := HistoryPromptHead(text, source);
    var cont := ContinuityInstructions(text, previousTopic);
    FivePartPositions(head, cont, HistoryPromptMiddle(text, source), context, PromptClosing);
    head + cont + HistoryPromptMiddle(text, source) + context + PromptClosing
  }

  /** The prompt opens with the same first-line label as the TypeScript version, keyed on the same source. */
  lemma HistoryPromptOpening(text: PromptText, source: string, context: string, previousTopic: Option<string>)
    ensures var p := BuildPromptWithHistory(text, source, context, previousTopic);
            var k := |PromptOpening| + |SourceLabel(source)|;
            |p| >= k && p[..k] == PromptOpening + SourceLabel(source)
  {
    var head := HistoryPromptHead(text, source);
    PrefixOfConcat(PromptOpening + SourceLabel(source), text.format);
    PrefixChain(BuildPromptWithHistory(text, source, context, previousTopic), head, |PromptOpening| + |SourceLabel(source)|);
  }

  /** The context can be read back from the prompt: different contexts give different prompts. */
  lemma ContextRecoverable(text: PromptText, source: string, c1: string, c2: string, previousTopic: Option<string>)
    requires BuildPromptWithHistory(text, source, c1, previousTopic) == BuildPromptWithHistory(text, source, c2, previousTopic)
    ensures c1 == c2
  {
    var p := BuildPromptWithHistory(text, source, c1, previousTopic);
    assert |c1| == |c2|;
    assert c1 == p[|p| - |PromptClosing| - |c1|..|p| - |PromptClosing|] == c2;
  }

  /** Different previous topics (both truthy) give different prompts: the topic can be read back. */
  lemma PreviousTopicRecoverable(text: PromptText, source: string, context: string, t1: string, t2: string)
    requires t1 != "" && t2 != ""
    requires BuildPromptWithHistory(text, source, context, Some(t1)) == BuildPromptWithHistory(text, source, context, Some(t2))
    ensures t1 == t2
  {
    var p := BuildPromptWithHistory(text, source, context, Some(t1));
    var h := |HistoryPromptHead(text, source)|;
    var c1 := ContinuityInstructions(text, Some(t1));
    var c2 := ContinuityInstructions(text, Some(t2));
    assert c1 == p[h..h + |c1|] == c2;
    var q1 := QuotedPreviousTopic(text, t1);
    var q2 := QuotedPreviousTopic(text, t2);
    assert |q1| == |q2|;
    assert q1 == c1[..|q1|] == q2;
    var k := |text.previousOpening|;
    assert t1 == q1[k..k + |t1|] == q2[k..k + |t2|] == t2;
  }

  /** A truthy previous topic appears quoted in the prompt; otherwise the prompt says this is the first generation. */
  lemma PreviousTopicShown(text: PromptText, source: string, context: string, previousTopic: Option<string>)
    ensures var p := BuildPromptWithHistory(text, source, context, previousTopic);
            var h := |HistoryPromptHead(text, source)|;
            if Truthy(previousTopic) then
              var quoted := QuotedPreviousTopic(text, previousTopic.value);
              |p| >= h + |quoted| && p[h..h + |quoted|] == quoted
            else
              |p| >= h + |text.firstGeneration| && p[h..h + |text.firstGeneration|] == text.firstGeneration
  {
    var p := BuildPromptWithHistory(text, source, context, previousTopic);
    var h := |HistoryPromptHead(text, source)|;
    var cont := ContinuityInstructions(text, previousTopic);
    if Truthy(previousTopic) {
      var quoted := QuotedPreviousTopic(text, previousTopic.value);
      SliceOfSlice(p, h, cont, |quoted|);
    }
  }

  /** An empty previous topic is treated like a missing one. */
  lemma EmptyPreviousTopicIsFirstGeneration(text: PromptText, source: string, context: string)
    ensures BuildPromptWithHistory(text, source, context, Some("")) == BuildPromptWithHistory(text, source, context, None)
  {
  }

  /** The escape of one single quote: close the quotes, a backslash-escaped quote, reopen the quotes. */
  const QuoteEscape: string := "'\\''"

  /** `prompt.replace(/'/g, "'\\''")`. */
  function Escape(s: string): (e: string)
    ensures |e| >= |s|
    ensures '\'' !in s ==> e == s
  {
    if |s| == 0 then ""
    else (if s[0] == '\'' then QuoteEscape else [s[0]]) + Escape(s[1..])
  }

  /** Each quote grows by three characters; nothing else changes length. */
  lemma {:induction false} EscapedLength(s: string)
    ensures |Escape(s)| == |s| + 3 * multiset(s)['\'']
  {
    if |s| > 0 {
      EscapedLength(s[1..]);
      assert s == [s[0]] + s[1..];
      assert multiset(s) == multiset{s[0]} + multiset(s[1..]);
    }
  }

  /** `Some((c + word, rest))` when `r` is `Some((word, rest))`. */
  function Prepend(c: char, r: Option<(string, string)>): Option<(string, string)>
  {
    match r
    case None => None
    case Some(wr) => Some(([c] + wr.0, wr.1))
  }

  /**
   * How the shell reads one word from the front of `w`, for the subset of
   * the grammar the command uses: single-quoted runs, backslash-escaped
   * characters, and a blank that ends the word. The result is the word's
   * value and what follows it; nothing when `w` leaves that subset or a
   * quote is left open.
   */
  function ReadWord(w: string, inQuote: bool): (r: Option<(string, string)>)
    decreases |w|
  {
    if |w| == 0 then (if inQuote then None else Some(("", "")))
    else if inQuote then
      if w[0] == '\'' then ReadWord(w[1..], false) else Prepend(w[0], ReadWord(w[1..], true))
    else if w[0] == ' ' then Some(("", w))
    else if w[0] == '\'' then ReadWord(w[1..], true)
    else if w[0] == '\\' && |w| >= 2 && w[1] != '\n' then Prepend(w[1], ReadWord(w[2..], false))
    else None
  }

  /** Inside open quotes, an escaped quote closes the quotes, yields a literal quote, and reopens them. */
  lemma ReadQuoteEscape(inner: string)
    ensures ReadWord(QuoteEscape + inner, true) == Prepend('\'', ReadWord(inner, true))
  {
    var w := QuoteEscape + inner;
    assert w[0] == '\'';
    var w1 := w[1..];
    assert ReadWord(w, true) == ReadWord(w1, false);
    assert w1[0] == '\\' && w1[1] == '\'' && |w1| >= 2;
    var w2 := w1[2..];
    assert ReadWord(w1, false) == Prepend('\'', ReadWord(w2, false));
    assert w2[0] == '\'';
    assert w2[1..] == inner;
    assert ReadWord(w2, false) == ReadWord(inner, true);
  }

  /** Inside open quotes, any character but a quote is taken literally. */
  lemma ReadQuotedChar(c: char, inner: string)
    requires c != '\''
    ensures ReadWord([c] + inner, true) == Prepend(c, ReadWord(inner, true))
  {
    assert ([c] + inner)[1..] == inner;
  }

  /** Closing the quotes and meeting a blank or the end finishes the word. */
  lemma ReadClosingQuote(rest: string)
    requires rest == "" || rest[0] == ' '
    ensures ReadWord("'" + rest, true) == Some(("", rest))
  {
    assert ("'" + rest)[1..] == rest;
  }

  /** Regrouping a four-piece concatenation around its first piece. */
  lemma Regroup(a: string, b: string, c: string, d: string)
    ensures a + b + c + d == a + (b + c + d)
  {
  }

  /** One step of `ReadEscaped`: from the reading of the tail to the reading of the whole. */
  lemma ReadEscapedStep(p: string, rest: string)
    requires |p| > 0
    requires ReadWord(Escape(p[1..]) + "'" + rest, true) == Some((p[1..], rest))
    ensures ReadWord(Escape(p) + "'" + rest, true) == Some((p, rest))
  {
    var tail := Escape(p[1..]);
    var inner := tail + "'" + rest;
    var piece := if p[0] == '\'' then QuoteEscape else [p[0]];
    assert p == [p[0]] + p[1..];
    assert Escape(p) == piece + tail;
    Regroup(piece, tail, "'", rest);
    if p[0] == '\'' {
      ReadQuoteEscape(inner);
    } else {
      ReadQuotedChar(p[0], inner);
    }
  }

  /** Inside open quotes, the escaped text and a closing quote read back as the original text. */
  lemma {:induction false} ReadEscaped(p: string, rest: string)
    requires rest == "" || rest[0] == ' '
    ensures ReadWord(Escape(p) + "'" + rest, true) == Some((p, rest))
    decreases |p|
  {
    if |p| == 0 {
      assert Escape(p) + "'" + rest == "'" + rest;
      ReadClosingQuote(rest);
    } else {
      ReadEscaped(p[1..], rest);
      ReadEscapedStep(p, rest);
    }
  }

  /** The single-quoted escaped prompt is one shell word whose value is the prompt itself. */
  lemma ShellWordRoundTrip(p: string, rest: string)
    requires rest == "" || rest[0] == ' '
    ensures ReadWord("'" + Escape(p) + "'" + rest, false) == Some((p, rest))
  {
    var w := "'" + Escape(p) + "'" + rest;
    assert w[1..] == Escape(p) + "'" + rest;
    ReadEscaped(p, rest);
  }

  const PrintfPrefix: string := "printf '%s' "

  const PipeToClaude: string := " " + "| claude --model haiku --print --no-session-persistence --settings \""

  /** The rest of the pipeline after the prompt argument. */
  function PipelineTail(settingsPath: string): (tail: string)
    ensures tail != "" && tail[0] == ' '
  {
    assert PipeToClaude[0] == ' ';
    PipeToClaude + settingsPath + "\" --tools \"\" 2>/dev/null | head -1"
  }

  /** The shell command `generateTopic` runs. */
  function ClaudeCommand(prompt: string, settingsPath: string): string
  {
    PrintfPrefix + "'" + Escape(prompt) + "'" + PipelineTail(settingsPath)
  }

  /**
   * Whatever the prompt holds, `printf` receives it verbatim as its second
   * argument and the pipeline continues unchanged after it: no quote in
   * the prompt can end the argument early.
   */
  lemma CommandPassesPromptVerbatim(prompt: string, settingsPath: string)
    ensures var cmd := ClaudeCommand(prompt, settingsPath);
            |cmd| >= |PrintfPrefix| && cmd[..|PrintfPrefix|] == PrintfPrefix
            && ReadWord(cmd[|PrintfPrefix|..], false) == Some((prompt, PipelineTail(settingsPath)))
  {
    var tail := PipelineTail(settingsPath);
    SplitAfterFirst(PrintfPrefix, "'", Escape(prompt), "'", tail);
    ShellWordRoundTrip(prompt, tail);
  }

  /** A five-piece concatenation splits after its first piece. */
  lemma SplitAfterFirst(a: string, b: string, c: string, d: string, e: string)
    ensures |a| <= |a + b + c + d + e|
    ensures (a + b + c + d + e)[..|a|] == a
    ensures (a + b + c + d + e)[|a|..] == b + c + d + e
  {
    assert a + b + c + d + e == a + (b + c + d + e);
  }

  /** The treatment of the raw output: trimmed, nothing when empty, otherwise the sanitised text. */
  function TopicFromOutput(result: string, sanitize: string -> string): (t: Option<string>)
    ensures t.None? <==> forall i | 0 <= i < |result| :: IsJsWhiteSpace(result[i])
    ensures t.Some? ==> t.value == sanitize(Trim(result))
  {
    var rawTopic := Trim(result);
    if rawTopic != "" then Some(sanitize(rawTopic)) else None
  }

  /**
   * `generateTopic`: build the prompt, run the pipeline through `exec`
   * (nothing when the command throws or times out) and turn its output
   * into a topic; any exception gives no topic.
   */
  function GenerateTopic(text: PromptText, source: string, context: string, previousTopic: Option<string>,
                         settingsPath: string, exec: string -> Option<string>, sanitize: string -> string): (t: Option<string>)
    ensures var cmd := ClaudeCommand(BuildPromptWithHistory(text, source, context, previousTopic), settingsPath);
            (exec(cmd).None? ==> t.None?)
            && (exec(cmd).Some? ==>
                  (t.None? <==> forall i | 0 <= i < |exec(cmd).value| :: IsJsWhiteSpace(exec(cmd).value[i])))
            && (t.Some? ==> t.value == sanitize(Trim(exec(cmd).value)))
  {
    var prompt := BuildPromptWithHistory(text, source, context, previousTopic);
    match exec(ClaudeCommand(prompt, settingsPath))
    case None => None
    case Some(result) => TopicFromOutput(result, sanitize)
  }

  /**
   * Whenever a topic comes back, the command that produced it handed
   * `printf` the full prompt, context included, as one argument.
   */
  lemma TopicComesFromWholePrompt(text: PromptText, source: string, context: string, previousTopic: Option<string>,
                                  settingsPath: string, exec: string -> Option<string>, sanitize: string -> string)
    requires GenerateTopic(text, source, context, previousTopic, settingsPath, exec, sanitize).Some?
    ensures var p := BuildPromptWithHistory(text, source, context, previousTopic);
            var cmd := ClaudeCommand(p, settingsPath);
            exec(cmd).Some?
            && |cmd| >= |PrintfPrefix|
            && ReadWord(cmd[|PrintfPrefix|..], false) == Some((p, PipelineTail(settingsPath)))
            && p[|p| - |PromptClosing| - |context|..|p| - |PromptClosing|] == context
  {
    var p := BuildPromptWithHistory(text, source, context, previousTopic);
    CommandPassesPromptVerbatim(p, settingsPath);
  }
}
