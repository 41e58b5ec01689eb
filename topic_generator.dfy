/**
 * The prompt the topic generator sends to the model, and how the model's
 * output becomes a topic (the TypeScript sources). Running the model is
 * outside the model; its output is a parameter.
 */
module TopicGenerator {
  import opened Wrappers
  import opened Strings

  /** The two context sources the handler can name. */
  const MemorySource: string := "claude-mem"
  const TranscriptSource: string := "transcript"

  /** The label in the prompt's first line. */
  function SourceLabel(source: string): string
  {
    if source == MemorySource then "session observations" else "Claude Code session"
  }

  /** The heading placed right above the context. */
  function ContextLabel(source: string): string
  {
    if source == MemorySource then "Session observations" else "Recent conversation"
  }

  const PromptOpening: string := "Based on these "

  /**
   * The fixed instructions between the first line and the context heading,
   * as the module words them. The prompt functions take the instructions
   * as a parameter, so their properties hold whatever the wording.
   */
  const Instructions: string :=
    ", generate a terse topic line.\n\nFormat: \"<topic>: <activity>\" where:\n"
    + "- Topic captures the overall theme (2-4 words)\n"
    + "- Activity is a SHORT gerund phrase (2-3 words max, e.g., \"fixing tests\", \"adding auth\")\n\n"
    + "Examples:\n- Database migration: updating schema\n- API endpoints: fixing validation\n"
    + "- React components: adding hooks\n- TypeScript: refactoring types\n\n"

  const PromptClosing: string := "\n\nTopic:"

  /** Everything before the context: opening, labels, instructions and the heading line. */
  function PromptHead(instructions: string, source: string): string
  {
    PromptOpening + SourceLabel(source) + instructions + ContextLabel(source) + ":\n"
  }

  /**
   * `buildPrompt(source, context)`, with `Instructions` as `instructions`:
   * the head for the source, the context verbatim, and the closing
   * `Topic:` line.
   */
  function BuildPrompt(instructions: string, source: string, context: string): (p: string)
    ensures |p| == |PromptHead(instructions, source)| + |context| + |PromptClosing|
    ensures p[..|PromptHead(instructions, source)|] == PromptHead(instructions, source)
    ensures p[|PromptHead(instructions, source)|..|p| - |PromptClosing|] == context
    ensures p[|p| - |PromptClosing|..] == PromptClosing
  {
    var head := PromptHead(instructions, source);
    ThreePartPositions(head, context, PromptClosing);
    head + context + PromptClosing
  }

  /** A concatenation of seven pieces starts with its first two. */
  lemma LeadingPair(a: string, b: string, c: string, d: string, e: string, f: string, g: string)
    ensures |a + b| <= |a + b + c + d + e + f + g|
    ensures (a + b + c + d + e + f + g)[..|a + b|] == a + b
  {
    assert a + b + c + d + e + f + g == (a + b) + (c + d + e + f + g);
  }

  /** The prompt's first line opens with the source's label. */
  lemma PromptNamesSource(instructions: string, source: string, context: string)
    ensures var p := BuildPrompt(instructions, source, context);
            var first := PromptOpening + SourceLabel(source);
            |first| <= |p| && p[..|first|] == first
  {
    LeadingPair(PromptOpening, SourceLabel(source), instructions, ContextLabel(source), ":\n", context, PromptClosing);
  }

  /** The context can be read back from the prompt: different contexts give different prompts. */
  lemma BuildPromptInjective(instructions: string, source: string, c1: string, c2: string)
    requires BuildPrompt(instructions, source, c1) == BuildPrompt(instructions, source, c2)
    ensures c1 == c2
  {
    var p := BuildPrompt(instructions, source, c1);
    assert c1 == p[|PromptHead(instructions, source)|..|p| - |PromptClosing|] == c2;
  }

  /** The line right above the context is the context heading of the source. */
  lemma ContextFollowsHeading(instructions: string, source: string, context: string)
    ensures var p := BuildPrompt(instructions, source, context);
            var k := |PromptHead(instructions, source)|;
            var heading := ContextLabel(source) + ":\n";
            k >= |heading| && p[k - |heading|..k] == heading
  {
    var head := PromptHead(instructions, source);
    var heading := ContextLabel(source) + ":\n";
    var before := PromptOpening + SourceLabel(source) + instructions;
    assert head == before + heading;
    var p := BuildPrompt(instructions, source, context);
    SliceOfSlice(p, 0, head, |head|);
    assert p[|before|..|head|] == head[|before|..];
  }

  /**
   * The unit-test vectors: the memory source and the transcript source
   * choose their labels (the prompt begins with the first of each pair, by
   * `BuildPrompt`'s contract, and holds the second right above the context,
   * by `ContextFollowsHeading`).
   */
  lemma PromptLabelVectors()
    ensures SourceLabel(MemorySource) == "session observations"
    ensures ContextLabel(MemorySource) == "Session observations"
    ensures SourceLabel(TranscriptSource) == "Claude Code session"
    ensures ContextLabel(TranscriptSource) == "Recent conversation"
  {
  }

  /**
   * The topic `generateTopic` takes from the model's output: the first line
   * of the trimmed output, or nothing when that line is empty.
   */
  function FirstLineTopic(stdout: string): (t: Option<string>)
    ensures t.None? <==> forall i | 0 <= i < |stdout| :: IsJsWhiteSpace(stdout[i])
    ensures t.Some? ==> t.value != "" && '\n' !in t.value && !IsJsWhiteSpace(t.value[0])
    ensures t.Some? ==> var trimmed := Trim(stdout);
                        |t.value| <= |trimmed| && trimmed[..|t.value|] == t.value
                        && (|t.value| == |trimmed| || trimmed[|t.value|] == '\n')
  {
    var trimmed := Trim(stdout);
    var first := Split(trimmed, '\n')[0];
    assert trimmed != "" ==> first != "" && first[0] == trimmed[0] by {
      if trimmed != "" {
        assert !IsJsWhiteSpace(trimmed[0]);
      }
    }
    if first == "" then None else Some(first)
  }

  /** The first line ends at the first newline: what follows it never reaches the topic. */
  lemma FirstLineIgnoresLaterLines(line: string, rest: string)
    requires line != "" && !IsJsWhiteSpace(line[0]) && !IsJsWhiteSpace(line[|line| - 1])
    requires '\n' !in line
    ensures FirstLineTopic(line + "\n" + rest) == Some(line)
  {
    var s := line + "\n" + rest;
    assert s[0] == line[0];
    assert LeadingSpace(s) == 0;
    var n := TrailingSpace(s);
    assert s[|line| - 1] == line[|line| - 1];
    assert !IsJsWhiteSpace(s[|line| - 1]);
    assert n <= |s| - |line|;
    var trimmed := Trim(s);
    assert trimmed == s[..|s| - n];
    assert trimmed[..|line|] == line;
    assert |trimmed| == |line| || trimmed[|line|] == '\n';
    FirstPieceIsLine(trimmed, line);
  }

  /** Splitting a string that begins with a newline-free `line` followed by a newline (or ending there) yields `line` first. */
  lemma {:induction false} FirstPieceIsLine(s: string, line: string)
    requires |line| <= |s| && s[..|line|] == line && '\n' !in line
    requires |s| == |line| || s[|line|] == '\n'
    ensures Split(s, '\n')[0] == line
  {
    if |line| > 0 {
      assert s[1..][..|line| - 1] == line[1..];
      assert s[1..] == [] || |s[1..]| == |line[1..]| || s[1..][|line[1..]|] == '\n';
      FirstPieceIsLine(s[1..], line[1..]);
    }
  }

  /**
   * `generateTopic(context, source)`: the model runs on the prompt built
   * for the source and context (`run` gives nothing when the command
   * throws or times out), and the topic is the first line of its trimmed
   * output; an exception or an empty first line gives no topic.
   */
  function GenerateTopic(instructions: string, source: string, context: string, run: string -> Option<string>): (t: Option<string>)
    ensures var out := run(BuildPrompt(instructions, source, context));
            (out.None? ==> t.None?)
            && (t.Some? ==> out.Some? && t.value != "" && '\n' !in t.value
                            && |t.value| <= |Trim(out.value)| && Trim(out.value)[..|t.value|] == t.value
                            && (|t.value| == |Trim(out.value)| || Trim(out.value)[|t.value|] == '\n'))
            && (out.Some? ==> (t.None? <==> forall i | 0 <= i < |out.value| :: IsJsWhiteSpace(out.value[i])))
  {
    match run(BuildPrompt(instructions, source, context))
    case None => None
    case Some(stdout) => FirstLineTopic(stdout)
  }
}
