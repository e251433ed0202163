/** Removal of a Markdown code fence around an LLM reply, as done at the
    start of every provider's `_parse_response`. */
module CodeFence {
  import opened Lines

  /** Three backticks: the opening and closing marker of a code block. */
  const Fence: string := "```"

  predicate StartsWith(s: string, prefix: string) {
    |prefix| <= |s| && s[..|prefix|] == prefix
  }

  /** The lines that survive fence removal: `lines[1:-1]` when the last line
      is exactly the fence, otherwise `lines[1:]`. Python's `lines[1:-1]` of a
      one-line list is the empty list, which is spelled out here. */
  function KeptLines(lines: seq<string>): (kept: seq<string>)
    requires |lines| >= 1
    ensures |kept| <= |lines| - 1
  {
    if lines[|lines| - 1] == Fence then
      if |lines| >= 2 then lines[1..|lines| - 1] else []
    else lines[1..]
  }

  /** The content handed to the JSON decoder: unchanged unless it starts with
      a fence; otherwise the first line is dropped, the last line is dropped
      when it is exactly the fence, and the rest is re-joined with newlines. */
  function StripFence(content: string): (stripped: string)
    ensures !StartsWith(content, Fence) ==> stripped == content
  {
    if StartsWith(content, Fence) then Join(KeptLines(Split(content)))
    else content
  }

  /** The same transformation stated without splitting into lines: the text
      after the first newline, minus its last line when that line is the fence. */
  function StripFenceReference(content: string): string {
    if !StartsWith(content, Fence) then content
    else
      var body := AfterFirstLine(content);
      if LastLine(body) == Fence then BeforeLastLine(body) else body
  }

  /** The split-and-join code and the reference definition agree everywhere. */
  lemma StripFenceMatchesReference(content: string)
    ensures StripFence(content) == StripFenceReference(content)
  {
    if StartsWith(content, Fence) {
      var lines := Split(content);
      SplitHead(content);
      if NL in content {
        var body := AfterFirstLine(content);
        assert lines[1..] == Split(body);
        SplitTail(body);
        assert lines[|lines| - 1] == Split(body)[|Split(body)| - 1];
        if LastLine(body) == Fence {
          assert KeptLines(lines) == Split(body)[..|Split(body)| - 1];
        } else {
          JoinSplit(body);
        }
      } else {
        NoNewlineFirstLine(content);
        assert KeptLines(lines) == [];
      }
    }
  }

  /** The stripped content is a contiguous piece of the original, and strictly
      shorter whenever a fence was present. */
  lemma StripFenceIsInfix(content: string)
    ensures IsInfix(StripFence(content), content)
    ensures |StripFence(content)| <= |content|
    ensures StartsWith(content, Fence) ==> |StripFence(content)| < |content|
  {
    StripFenceMatchesReference(content);
    var r := StripFence(content);
    if !StartsWith(content, Fence) {
      assert content[0..|content|] == content;
    } else {
      var body := AfterFirstLine(content);
      AfterFirstLineIsSuffix(content);
      var start := |content| - |body|;
      if NL !in content {
        NoNewlineFirstLine(content);
      }
      if LastLine(body) == Fence {
        BeforeLastLineIsPrefix(body);
        var m := |BeforeLastLine(body)|;
        assert r == body[..m];
        assert content[start..start + m] == r;
      } else {
        assert content[start..|content|] == r;
      }
    }
  }

  /** A complete code block, whatever its language tag, strips to its body. */
  lemma FencedBlockRoundTrip(tag: string, body: string)
    requires NL !in tag
    ensures StripFence(Fence + tag + [NL] + body + [NL] + Fence) == body
  {
    var opening := Fence + tag;
    var content := opening + [NL] + body + [NL] + Fence;
    assert NL !in opening;
    assert content[..3] == Fence;
    SplitNoNewline(opening);
    SplitNoNewline(Fence);
    SplitAppend(body, Fence);
    assert content == opening + [NL] + (body + [NL] + Fence);
    SplitAppend(opening, body + [NL] + Fence);
    var lines := Split(content);
    assert lines == [opening] + Split(body) + [Fence];
    assert KeptLines(lines) == Split(body);
    JoinSplit(body);
  }

  /** A code block whose closing fence is missing keeps every line after the
      opening one, provided the last of them is not itself the fence. */
  lemma UnclosedBlockRoundTrip(tag: string, body: string)
    requires NL !in tag
    requires LastLine(body) != Fence
    ensures StripFence(Fence + tag + [NL] + body) == body
  {
    var opening := Fence + tag;
    var content := opening + [NL] + body;
    assert NL !in opening;
    assert content[..3] == Fence;
    SplitNoNewline(opening);
    SplitAppend(opening, body);
    var lines := Split(content);
    assert lines == [opening] + Split(body);
    SplitTail(body);
    assert lines[|lines| - 1] == LastLine(body);
    assert KeptLines(lines) == Split(body);
    JoinSplit(body);
  }

  /** A reply that is nothing but an opening fence line strips to "". */
  lemma OpeningLineOnly(tag: string)
    requires NL !in tag
    ensures StripFence(Fence + tag) == ""
  {
    var content := Fence + tag;
    assert NL !in content;
    assert content[..3] == Fence;
    SplitNoNewline(content);
  }
}
