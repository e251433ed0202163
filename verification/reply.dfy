/** What a provider does with the text an LLM sends back: trim it, strip a
    Markdown code fence, and decode it as JSON, falling back to a plain-text
    object when decoding fails. */
module Reply {
  import opened Wrappers
  import opened Lines
  import opened CodeFence

  /** A JSON value as Python's `json.loads` returns it. Objects keep their
      members in order; numbers keep their literal text. */
  datatype Json =
    | JNull
    | JBool(b: bool)
    | JNumber(literal: string)
    | JString(s: string)
    | JArray(items: seq<Json>)
    | JObject(members: seq<(string, Json)>)

  /** `json.loads` is not modelled: a decoder answers `Some(value)` for text
      it accepts and `None` where `json.loads` raises `JSONDecodeError`. */
  type Decoder = string -> Option<Json>

  /** The fallback `{"text": content}`. */
  function TextReply(content: string): Json {
    JObject([("text", JString(content))])
  }

  /** Python's `str.isspace`, the set of characters `str.strip()` removes. */
  predicate IsSpace(c: char) {
    || c == ' ' || c == '\t' || c == '\n' || c == '\r'
    || c == '\U{0B}' || c == '\U{0C}'
    || ('\U{1C}' <= c <= '\U{1F}')
    || c == '\U{85}' || c == '\U{A0}' || c == '\U{1680}'
    || ('\U{2000}' <= c <= '\U{200A}')
    || c == '\U{2028}' || c == '\U{2029}' || c == '\U{202F}'
    || c == '\U{205F}' || c == '\U{3000}'
  }

  ghost predicate AllSpace(s: string) {
    forall k :: 0 <= k < |s| ==> IsSpace(s[k])
  }

  /** `s.lstrip()`: drops leading whitespace and nothing else. */
  function TrimStart(s: string): (t: string)
    ensures |t| <= |s| && t == s[|s| - |t|..]
    ensures AllSpace(s[..|s| - |t|])
    ensures |t| > 0 ==> !IsSpace(t[0])
    decreases |s|
  {
    if |s| > 0 && IsSpace(s[0]) then TrimStart(s[1..]) else s
  }

  /** `s.rstrip()`: drops trailing whitespace and nothing else. */
  function TrimEnd(s: string): (t: string)
    ensures |t| <= |s| && t == s[..|t|]
    ensures AllSpace(s[|t|..])
    ensures |t| > 0 ==> !IsSpace(t[|t| - 1])
    decreases |s|
  {
    if |s| > 0 && IsSpace(s[|s| - 1]) then TrimEnd(s[..|s| - 1]) else s
  }

  /** `s.strip()`, applied to every reply before it is parsed. */
  function Trim(s: string): string {
    TrimEnd(TrimStart(s))
  }

  /** Trimming keeps a contiguous piece of the input with no whitespace at
      either end, and removes only whitespace. */
  lemma TrimSpec(s: string)
    ensures IsInfix(Trim(s), s)
    ensures |Trim(s)| > 0 ==> !IsSpace(Trim(s)[0]) && !IsSpace(Trim(s)[|Trim(s)| - 1])
    ensures exists i, j :: (0 <= i <= j <= |s| && Trim(s) == s[i..j]
                            && AllSpace(s[..i]) && AllSpace(s[j..]))
  {
    var a := TrimStart(s);
    var t := TrimEnd(a);
    var i := |s| - |a|;
    var j := i + |t|;
    assert s[i..j] == t;
    assert AllSpace(s[j..]) by {
      assert s[j..] == a[|t|..];
    }
  }

  /** Whitespace around a text that neither starts nor ends with whitespace
      is exactly what trimming removes. */
  lemma {:induction false} TrimSurrounded(pre: string, s: string, post: string)
    requires AllSpace(pre) && AllSpace(post)
    requires |s| > 0 && !IsSpace(s[0]) && !IsSpace(s[|s| - 1])
    ensures Trim(pre + s + post) == s
  {
    TrimStartSkips(pre, s + post);
    assert pre + s + post == pre + (s + post);
    TrimEndSkips(s, post);
  }

  lemma {:induction false} TrimStartSkips(pre: string, s: string)
    requires AllSpace(pre)
    requires |s| > 0 && !IsSpace(s[0])
    ensures TrimStart(pre + s) == s
    decreases |pre|
  {
    if |pre| > 0 {
      assert (pre + s)[1..] == pre[1..] + s;
      assert AllSpace(pre[1..]) by {
        forall k | 0 <= k < |pre[1..]| ensures IsSpace(pre[1..][k]) {
          assert pre[1..][k] == pre[k + 1];
        }
      }
      TrimStartSkips(pre[1..], s);
    }
  }

  lemma {:induction false} TrimEndSkips(s: string, post: string)
    requires AllSpace(post)
    requires |s| > 0 && !IsSpace(s[|s| - 1])
    ensures TrimEnd(s + post) == s
    decreases |post|
  {
    var n := |post|;
    if n > 0 {
      var p := post[..n - 1];
      assert (s + post)[..|s + post| - 1] == s + p;
      assert AllSpace(p) by {
        forall k | 0 <= k < |p| ensures IsSpace(p[k]) {
          assert p[k] == post[k];
        }
      }
      TrimEndSkips(s, p);
    } else {
      assert s + post == s;
    }
  }

  /** `_parse_response`: strip a code fence, then decode, falling back to
      `{"text": ...}` when the decoder rejects the text. The contract speaks of
      the line-free reference definition of fence stripping. */
  function ParseResponse(decode: Decoder, content: string): (reply: Json)
    ensures var body := StripFenceReference(content);
      decode(body).Some? ==> reply == decode(body).value
    ensures var body := StripFenceReference(content);
      decode(body).None? ==> reply == TextReply(body) && IsInfix(body, content)
  {
    StripFenceMatchesReference(content);
    StripFenceIsInfix(content);
    var stripped := StripFence(content);
    match decode(stripped)
    case Some(value) => value
    case None => TextReply(stripped)
  }

  /** The end of each provider's `generate`: the reply text is trimmed and
      then parsed. */
  function ReplyToJson(decode: Decoder, replyText: string): Json {
    ParseResponse(decode, Trim(replyText))
  }

  /** Text the decoder rejects comes back as `{"text": t}` where `t` is a
      contiguous piece of the content, and all of it when there was no fence. */
  lemma ParseFallback(decode: Decoder, content: string)
    requires decode(StripFence(content)).None?
    ensures ParseResponse(decode, content).JObject?
    ensures |ParseResponse(decode, content).members| == 1
    ensures ParseResponse(decode, content).members[0].0 == "text"
    ensures var v := ParseResponse(decode, content).members[0].1;
      v.JString? && IsInfix(v.s, content)
    ensures !StartsWith(content, Fence) ==> ParseResponse(decode, content) == TextReply(content)
  {
    StripFenceIsInfix(content);
  }

  /** A reply made of a fenced JSON block, with any whitespace around it, is
      decoded from exactly the block's body, whatever the language tag. */
  lemma FencedReplyDecodesBody(decode: Decoder, pre: string, tag: string, body: string, post: string)
    requires AllSpace(pre) && AllSpace(post)
    requires NL !in tag
    ensures var r := ReplyToJson(decode, pre + Fence + tag + [NL] + body + [NL] + Fence + post);
      match decode(body)
      case Some(v) => r == v
      case None => r == TextReply(body)
  {
    var block := Fence + tag + [NL] + body + [NL] + Fence;
    assert block[0] == '`' && block[|block| - 1] == '`';
    assert pre + Fence + tag + [NL] + body + [NL] + Fence + post == pre + block + post;
    TrimSurrounded(pre, block, post);
    FencedBlockRoundTrip(tag, body);
  }
}
