/**
 * Reading conversation context out of a session transcript: where the
 * transcript of a session lives, how the text of one message is
 * extracted, and how the last lines of the JSON-lines file become a short
 * `User: ...` / `Claude: ...` context. The file system is a set of existing
 * paths plus the content of one file; `JSON.parse` of one line is a
 * parameter that yields no message when the line does not parse.
 */
module Transcript {
  import opened Wrappers
  import opened Strings

  /** Lines examined from the end of the transcript, by default. */
  const DefaultContextLines: nat := 50

  /** Characters of message text kept per entry. */
  const EntryTextLimit: nat := 200

  /** Characters of context kept in all. */
  const ContextLimit: nat := 5000

  const UserPrefix: string := "User: "
  const ClaudePrefix: string := "Claude: "

  /** `cwd.replace(/^\//, '')`: one leading slash removed, if there is one. */
  function StripLeadingSlash(cwd: string): (r: string)
    ensures |cwd| > 0 && cwd[0] == '/' ==> r == cwd[1..]
    ensures !(|cwd| > 0 && cwd[0] == '/') ==> r == cwd
  {
    if |cwd| > 0 && cwd[0] == '/' then cwd[1..] else cwd
  }

  /**
   * The project directory name of a working directory: a leading `-`, then
   * the working directory without its leading slash and with every other
   * slash turned into `-`.
   */
  function ProjectDirName(cwd: string): (d: string)
    ensures '/' !in d
    ensures |d| >= 1 && d[0] == '-'
    ensures |cwd| > 0 && cwd[0] == '/' ==> d == ReplaceChar(cwd, '/', '-') && |d| == |cwd|
    ensures !(|cwd| > 0 && cwd[0] == '/') ==> d == "-" + ReplaceChar(cwd, '/', '-') && |d| == |cwd| + 1
  {
    var body := ReplaceChar(StripLeadingSlash(cwd), '/', '-');
    assert forall i | 0 <= i < |body| :: body[i] != '/';
    "-" + body
  }

  /** Different working directories can share a project directory: the mangling is not injective. */
  lemma ProjectDirNameCollides()
    ensures ProjectDirName("/a/b") == ProjectDirName("/a-b") == "-a-b"
  {
    assert ReplaceChar("/a/b", '/', '-') == "-a-b";
    assert ReplaceChar("/a-b", '/', '-') == "-a-b";
  }

  const TranscriptSuffix: string := ".jsonl"
  const ProjectsDir: string := "/.claude/projects/"

  /** `join(homedir(), '.claude', 'projects', prefixedDir, sessionId + '.jsonl')`. */
  function TranscriptPathFor(home: string, cwd: string, sessionId: string): (p: string)
    ensures |p| >= |home| + |ProjectsDir| && p[..|home| + |ProjectsDir|] == home + ProjectsDir
    ensures var d := ProjectDirName(cwd); var base := |home| + |ProjectsDir|;
            |p| == base + |d| + 1 + |sessionId| + |TranscriptSuffix|
            && p[base..base + |d|] == d && p[base + |d|] == '/'
            && p[base + |d| + 1..] == sessionId + TranscriptSuffix
  {
    var d := ProjectDirName(cwd);
    var file := sessionId + TranscriptSuffix;
    PathPositions(home + ProjectsDir, d, file);
    home + ProjectsDir + d + "/" + file
  }

  /** Where the directory, the separator and the file name sit in `base + d + "/" + file`. */
  lemma PathPositions(base: string, d: string, file: string)
    ensures var p := base + d + "/" + file;
            |p| == |base| + |d| + 1 + |file|
            && p[..|base|] == base && p[|base|..|base| + |d|] == d
            && p[|base| + |d|] == '/' && p[|base| + |d| + 1..] == file
  {
    var p := base + d + "/" + file;
    assert p == base + (d + ("/" + file));
    assert p[|base|..] == d + ("/" + file);
  }

  /**
   * When the session id holds no slash, the transcript file is a direct
   * child of the project directory and is named after the session.
   */
  lemma TranscriptFileIsDirectChild(home: string, cwd: string, sessionId: string)
    requires '/' !in sessionId
    ensures var p := TranscriptPathFor(home, cwd, sessionId);
            var k := |p| - |sessionId| - |TranscriptSuffix|;
            k > 0 && p[k - 1] == '/' && p[k..] == sessionId + TranscriptSuffix && '/' !in p[k..]
  {
    var p := TranscriptPathFor(home, cwd, sessionId);
    var k := |p| - |sessionId| - |TranscriptSuffix|;
    assert p[k..] == sessionId + TranscriptSuffix;
    assert '/' !in TranscriptSuffix;
  }

  /** `findTranscriptPath`: the transcript path when a file exists there, otherwise nothing. */
  function FindTranscriptPath(home: string, cwd: string, sessionId: string, files: set<string>): (p: Option<string>)
    ensures p.Some? <==> TranscriptPathFor(home, cwd, sessionId) in files
    ensures p.Some? ==> p.value in files && p.value == TranscriptPathFor(home, cwd, sessionId)
  {
    var path := TranscriptPathFor(home, cwd, sessionId);
    if path in files then Some(path) else None
  }

  /** One element of an array-valued message content: its `type` and optional `text`. */
  datatype Block = Block(kind: string, text: Option<string>)

  /** A message's `content`: a string, an array of blocks, or some other JSON value. */
  datatype Content = TextContent(text: string) | BlockList(blocks: seq<Block>) | OtherContent

  /** One parsed transcript line: its `type`, and `message.content` when `message` is present. */
  datatype Message = Message(kind: string, content: Option<Content>)

  /** `filter(type === 'text').map(text || '')` over the blocks, in order. */
  function BlockTexts(blocks: seq<Block>): (texts: seq<string>)
    ensures |texts| <= |blocks|
  {
    if |blocks| == 0 then []
    else
      var head := if blocks[0].kind == "text" then [blocks[0].text.GetOr("")] else [];
      head + BlockTexts(blocks[1..])
  }

  /** Only text blocks count: none gives no text, and all-text blocks give one text each. */
  lemma {:induction false} BlockTextsFilter(blocks: seq<Block>)
    ensures (forall i | 0 <= i < |blocks| :: blocks[i].kind != "text") ==> BlockTexts(blocks) == []
    ensures (forall i | 0 <= i < |blocks| :: blocks[i].kind == "text") ==> |BlockTexts(blocks)| == |blocks|
  {
    if |blocks| > 0 {
      BlockTextsFilter(blocks[1..]);
      assert forall i | 0 <= i < |blocks| - 1 :: blocks[1..][i] == blocks[i + 1];
    }
  }

  /** The texts of a concatenation are the texts of the parts, in order. */
  lemma {:induction false} BlockTextsAppend(a: seq<Block>, b: seq<Block>)
    ensures BlockTexts(a + b) == BlockTexts(a) + BlockTexts(b)
  {
    if |a| > 0 {
      var head := if a[0].kind == "text" then [a[0].text.GetOr("")] else [];
      assert (a + b)[0] == a[0];
      assert (a + b)[1..] == a[1..] + b;
      calc {
        BlockTexts(a + b);
        head + BlockTexts(a[1..] + b);
        { BlockTextsAppend(a[1..], b); }
        head + (BlockTexts(a[1..]) + BlockTexts(b));
        BlockTexts(a) + BlockTexts(b);
      }
    } else {
      assert a + b == b;
    }
  }

  /** `extractTextFromContent`. */
  function ExtractText(content: Content): (t: string)
    ensures content.TextContent? ==> t == content.text
    ensures content.OtherContent? ==> t == ""
    ensures content.BlockList? && |BlockTexts(content.blocks)| == 1 ==> t == BlockTexts(content.blocks)[0]
  {
    match content
    case TextContent(s) => s
    case BlockList(blocks) => Join(BlockTexts(blocks), " ")
    case OtherContent => ""
  }

  /** One more block adds its `text || ''` at the end exactly when it is a text block. */
  lemma BlockTextsStep(blocks: seq<Block>, b: Block)
    ensures BlockTexts(blocks + [b]) == BlockTexts(blocks) + (if b.kind == "text" then [b.text.GetOr("")] else [])
  {
    BlockTextsAppend(blocks, [b]);
    assert [b][1..] == [];
  }

  /**
   * One more text block adds a space and its text to the extracted text, or
   * is the whole text when no text block precedes it.
   */
  lemma ExtractTextStep(blocks: seq<Block>, text: Option<string>)
    ensures ExtractText(BlockList(blocks + [Block("text", text)]))
            == if BlockTexts(blocks) == [] then text.GetOr("")
               else ExtractText(BlockList(blocks)) + " " + text.GetOr("")
  {
    BlockTextsStep(blocks, Block("text", text));
    JoinSnoc(BlockTexts(blocks), text.GetOr(""), " ");
  }

  /** The texts of a block list do not change when a non-text block is inserted. */
  lemma NonTextBlockSkipped(before: seq<Block>, b: Block, after: seq<Block>)
    requires b.kind != "text"
    ensures BlockTexts(before + [b] + after) == BlockTexts(before + after)
  {
    var single := BlockTexts([b]);
    assert single == [] by {
      assert [b][1..] == [];
    }
    calc {
      BlockTexts(before + [b] + after);
      { BlockTextsAppend(before + [b], after); }
      BlockTexts(before + [b]) + BlockTexts(after);
      { BlockTextsAppend(before, [b]); }
      BlockTexts(before) + single + BlockTexts(after);
      BlockTexts(before) + BlockTexts(after);
      { BlockTextsAppend(before, after); }
      BlockTexts(before + after);
    }
  }

  /** A block that is not a text block can be inserted anywhere without changing the extracted text. */
  lemma NonTextBlockIgnored(before: seq<Block>, b: Block, after: seq<Block>)
    requires b.kind != "text"
    ensures ExtractText(BlockList(before + [b] + after)) == ExtractText(BlockList(before + after))
  {
    NonTextBlockSkipped(before, b, after);
  }

  /** Text blocks contribute their text, separated by single spaces; a missing text counts as empty. */
  lemma TextBlocksJoined(t1: string, t2: Option<string>)
    ensures ExtractText(BlockList([Block("text", Some(t1)), Block("text", t2)])) == t1 + " " + t2.GetOr("")
  {
    var bs := [Block("text", Some(t1)), Block("text", t2)];
    assert bs[1..] == [Block("text", t2)];
    assert BlockTexts(bs) == [t1, t2.GetOr("")];
  }

  /**
   * The entry one parsed line contributes: `User: ` or `Claude: ` and the
   * first 200 characters of the text, for user and assistant messages with
   * non-empty text. A message without `message` throws on access, and the
   * line is skipped like an unparsable one.
   */
  function Entry(m: Message): (e: Option<string>)
    ensures (m.kind != "user" && m.kind != "assistant") || m.content.None? ==> e.None?
    ensures m.kind == "user" && m.content.Some? ==>
              (e.Some? <==> ExtractText(m.content.value) != "")
              && (e.Some? ==> e.value == UserPrefix + Take(ExtractText(m.content.value), EntryTextLimit))
    ensures m.kind == "assistant" && m.content.Some? ==>
              (e.Some? <==> ExtractText(m.content.value) != "")
              && (e.Some? ==> e.value == ClaudePrefix + Take(ExtractText(m.content.value), EntryTextLimit))
    ensures e.Some? ==> |e.value| <= |ClaudePrefix| + EntryTextLimit
  {
    if m.kind != "user" && m.kind != "assistant" then None
    else if m.content.None? then None
    else
      var text := ExtractText(m.content.value);
      if text == "" then None
      else if m.kind == "user" then Some(UserPrefix + Take(text, EntryTextLimit))
      else Some(ClaudePrefix + Take(text, EntryTextLimit))
  }

  /** What one raw line contributes: nothing when it does not parse or yields no entry. */
  function LineEntries(line: string, parse: string -> Option<Message>): (es: seq<string>)
    ensures |es| <= 1
    ensures |es| == 1 <==> parse(line).Some? && Entry(parse(line).value).Some?
    ensures |es| == 1 ==> es[0] == Entry(parse(line).value).value
  {
    match parse(line)
    case None => []
    case Some(m) =>
      match Entry(m)
      case None => []
      case Some(e) => [e]
  }

  /** A well-formed entry: non-empty, prefixed by its speaker, of bounded length. */
  predicate IsEntry(e: string)
  {
    |e| <= |ClaudePrefix| + EntryTextLimit
    && ((|e| >= |UserPrefix| && e[..|UserPrefix|] == UserPrefix)
        || (|e| >= |ClaudePrefix| && e[..|ClaudePrefix|] == ClaudePrefix))
  }

  /** The entries of a run of lines, in line order. */
  function Entries(lines: seq<string>, parse: string -> Option<Message>): (es: seq<string>)
    ensures |es| <= |lines|
    ensures forall i | 0 <= i < |es| :: IsEntry(es[i])
  {
    if |lines| == 0 then []
    else
      var last := lines[|lines| - 1];
      var es := LineEntries(last, parse);
      assert |es| == 1 ==> IsEntry(es[0]) by {
        if |es| == 1 {
          var m := parse(last).value;
          var t := ExtractText(m.content.value);
          assert es[0] == UserPrefix + Take(t, EntryTextLimit) || es[0] == ClaudePrefix + Take(t, EntryTextLimit);
        }
      }
      Entries(lines[..|lines| - 1], parse) + es
  }

  /** Entries keep the order of the lines: the entries of a concatenation are the concatenation of the entries. */
  lemma {:induction false} EntriesAppend(a: seq<string>, b: seq<string>, parse: string -> Option<Message>)
    ensures Entries(a + b, parse) == Entries(a, parse) + Entries(b, parse)
    decreases |b|
  {
    if |b| > 0 {
      var b' := b[..|b| - 1];
      assert (a + b)[..|a + b| - 1] == a + b';
      assert (a + b)[|a + b| - 1] == b[|b| - 1];
      EntriesAppend(a, b', parse);
    } else {
      assert a + b == a;
    }
  }

  /** `lines.slice(-contextLines)`: the last `contextLines` lines; `slice(-0)` is all of them. */
  function RecentLines(lines: seq<string>, contextLines: nat): (recent: seq<string>)
    ensures |recent| <= |lines| && recent == lines[|lines| - |recent|..]
    ensures contextLines == 0 ==> recent == lines
    ensures contextLines > 0 ==> |recent| == if contextLines < |lines| then contextLines else |lines|
  {
    if contextLines == 0 || contextLines >= |lines| then lines
    else lines[|lines| - contextLines..]
  }

  /** Lines older than the window have no influence on which lines are examined. */
  lemma OlderLinesInvisible(older: seq<string>, lines: seq<string>, contextLines: nat)
    requires 0 < contextLines <= |lines|
    ensures RecentLines(older + lines, contextLines) == RecentLines(lines, contextLines)
  {
    assert (older + lines)[|older + lines| - contextLines..] == lines[|lines| - contextLines..];
  }

  /** The entries of the examined window of a file's content. */
  function ContentEntries(content: string, contextLines: nat, parse: string -> Option<Message>): seq<string>
  {
    Entries(RecentLines(Split(Trim(content), '\n'), contextLines), parse)
  }

  /**
   * The pure core of `parseTranscript` for a file with the given content:
   * the entries joined by newlines and cut to 5000 characters, or nothing
   * when that is empty.
   */
  function TranscriptContext(content: string, contextLines: nat, parse: string -> Option<Message>): (r: Option<string>)
    ensures r.None? <==> ContentEntries(content, contextLines, parse) == []
    ensures r.Some? ==> 0 < |r.value| <= ContextLimit
    ensures r.Some? ==> var joined := Join(ContentEntries(content, contextLines, parse), "\n");
                        |r.value| <= |joined| && joined[..|r.value|] == r.value
    ensures r.Some? ==> var joined := Join(ContentEntries(content, contextLines, parse), "\n");
                        |r.value| == if |joined| < ContextLimit then |joined| else ContextLimit
  {
    var messages := ContentEntries(content, contextLines, parse);
    var joined := Join(messages, "\n");
    assert messages != [] ==> messages[0] != "" by {
      if messages != [] {
        assert IsEntry(messages[0]);
      }
    }
    var context := Take(joined, ContextLimit);
    if |context| > 0 then Some(context) else None
  }

  /** One more line of a window adds that line's entries at the end. */
  lemma EntriesStep(lines: seq<string>, i: nat, parse: string -> Option<Message>)
    requires i < |lines|
    ensures Entries(lines[..i + 1], parse) == Entries(lines[..i], parse) + LineEntries(lines[i], parse)
  {
    assert lines[..i + 1][..i] == lines[..i];
  }

  /**
   * `parseTranscript(path, contextLines)`. `file` is the transcript's
   * content, or nothing when no file exists at the path; an empty file is
   * one whose content never appears within the wait.
   */
  method ParseTranscript(file: Option<string>, contextLines: nat, parse: string -> Option<Message>)
    returns (r: Option<string>)
    ensures file.None? || file.value == "" ==> r.None?
    ensures file.Some? && file.value != "" ==> r == TranscriptContext(file.value, contextLines, parse)
  {
    if file.None? {
      return None;
    }
    var content := file.value;
    if content == "" {
      return None;
    }
    var lines := Split(Trim(content), '\n');
    var recentLines := RecentLines(lines, contextLines);
    var messages: seq<string> := [];
    var i := 0;
    while i < |recentLines|
      invariant 0 <= i <= |recentLines|
      invariant messages == Entries(recentLines[..i], parse)
    {
      var entries := ParseLine(recentLines[i], parse);
      EntriesStep(recentLines, i, parse);
      messages := messages + entries;
      i := i + 1;
    }
    assert recentLines[..i] == recentLines;
    assert messages == ContentEntries(content, contextLines, parse);
    var context := Take(Join(messages, "\n"), ContextLimit);
    r := if |context| > 0 then Some(context) else None;
  }

  /**
   * The body of `parseTranscript`'s loop for one line: the entry the line
   * contributes, if any. A line that does not parse, or whose message has
   * no `message` field, is skipped by the `catch`.
   */
  method ParseLine(line: string, parse: string -> Option<Message>) returns (es: seq<string>)
    ensures es == LineEntries(line, parse)
  {
    es := [];
    var parsed := parse(line);
    if parsed.None? {
      return;
    }
    var msg := parsed.value;
    if msg.kind == "user" || msg.kind == "assistant" {
      if msg.content.Some? {
        var text := ExtractText(msg.content.value);
        if text != "" {
          if msg.kind == "user" {
            es := [UserPrefix + Take(text, EntryTextLimit)];
          } else {
            es := [ClaudePrefix + Take(text, EntryTextLimit)];
          }
        }
      }
    }
  }
}
