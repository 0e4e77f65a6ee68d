/** The string operations the scripts apply to a model's raw reply before
    handing it to the JSON parser: `str.strip()` and `str.replace(p, "")`. */
module Text {

  /** The characters Python's `str.isspace` accepts, which `str.strip()` removes. */
  predicate IsSpace(c: char) {
    || c == ' ' || c == '\t' || c == '\n' || c == '\r' || c == '\U{B}' || c == '\U{C}'
    || ('\U{1C}' <= c <= '\U{1F}') || c == '\U{85}' || c == '\U{A0}' || c == '\U{1680}'
    || ('\U{2000}' <= c <= '\U{200A}') || c == '\U{2028}' || c == '\U{2029}'
    || c == '\U{202F}' || c == '\U{205F}' || c == '\U{3000}'
  }

  predicate AllSpace(s: string) {
    forall i :: 0 <= i < |s| ==> IsSpace(s[i])
  }

  /** `s.lstrip()`: the longest suffix of `s` that does not start with whitespace. */
  function StripLeft(s: string): (r: string)
    ensures |r| <= |s| && r == s[|s| - |r|..]
    ensures AllSpace(s[..|s| - |r|])
    ensures r == [] || !IsSpace(r[0])
  {
    if |s| == 0 || !IsSpace(s[0]) then s
    else
      var r := StripLeft(s[1..]);
      assert s[1..][..|s[1..]| - |r|] == s[1..|s| - |r|];
      r
  }

  /** `s.rstrip()`: the longest prefix of `s` that does not end with whitespace. */
  function StripRight(s: string): (r: string)
    ensures |r| <= |s| && r == s[..|r|]
    ensures AllSpace(s[|r|..])
    ensures r == [] || !IsSpace(r[|r| - 1])
  {
    if |s| == 0 || !IsSpace(s[|s| - 1]) then s
    else
      var r := StripRight(s[..|s| - 1]);
      assert s[..|s| - 1][|r|..] == s[|r|..|s| - 1];
      r
  }

  /** `s.strip()`. */
  function Strip(s: string): string {
    StripRight(StripLeft(s))
  }

  /** `s.replace(pat, "")`: occurrences of `pat` found scanning left to right,
      without overlap, are deleted. */
  function RemoveAll(s: string, pat: string): (r: string)
    requires |pat| > 0
    ensures |r| <= |s|
    decreases |s|
  {
    if |s| < |pat| then s
    else if s[..|pat|] == pat then RemoveAll(s[|pat|..], pat)
    else [s[0]] + RemoveAll(s[1..], pat)
  }

  const JsonFence: string := "```json"
  const Fence: string := "```"

  /** The cleaning both generators apply to a reply: trim, then drop every
      "```json", then every "```". */
  function CleanReply(raw: string): string {
    RemoveAll(RemoveAll(Strip(raw), JsonFence), Fence)
  }

  /** Text that starts with no character of `pat[0]` passes through unchanged. */
  lemma {:induction false} RemoveAllKeepsPrefix(a: string, b: string, pat: string)
    requires |pat| > 0
    requires pat[0] !in a
    ensures RemoveAll(a + b, pat) == a + RemoveAll(b, pat)
    decreases |a|
  {
    if |a| > 0 {
      assert (a + b)[0] == a[0];
      assert (a + b)[1..] == a[1..] + b;
      if |a + b| >= |pat| {
        assert (a + b)[..|pat|][0] != pat[0];
      }
      RemoveAllKeepsPrefix(a[1..], b, pat);
      assert a == [a[0]] + a[1..];
    } else {
      assert a + b == b;
    }
  }

  /** Removing a pattern from text that cannot contain it changes nothing. */
  lemma RemoveAllAbsent(s: string, pat: string)
    requires |pat| > 0
    requires pat[0] !in s
    ensures RemoveAll(s, pat) == s
  {
    RemoveAllKeepsPrefix(s, [], pat);
    assert s + [] == s;
    assert RemoveAll([], pat) == [];
  }

  /** A reply without backticks is only trimmed. */
  lemma CleanUnfenced(raw: string)
    requires '`' !in raw
    ensures CleanReply(raw) == Strip(raw)
  {
    var t := Strip(raw);
    var l := StripLeft(raw);
    assert forall c :: c in t ==> c in l;
    assert forall c :: c in l ==> c in raw;
    RemoveAllAbsent(t, JsonFence);
    RemoveAllAbsent(t, Fence);
  }

  /** Trimming text that is surrounded by whitespace only and has
      non-whitespace ends returns the text itself. */
  lemma StripPadded(pre: string, body: string, post: string)
    requires AllSpace(pre) && AllSpace(post)
    requires |body| > 0 && !IsSpace(body[0]) && !IsSpace(body[|body| - 1])
    ensures Strip(pre + body + post) == body
  {
    var rest := body + post;
    assert pre + body + post == pre + rest;
    StripLeftPadded(pre, rest);
    StripRightPadded(body, post);
  }

  lemma {:induction false} StripLeftPadded(pre: string, rest: string)
    requires AllSpace(pre)
    requires |rest| > 0 && !IsSpace(rest[0])
    ensures StripLeft(pre + rest) == rest
    decreases |pre|
  {
    if |pre| == 0 {
      assert pre + rest == rest;
    } else {
      assert (pre + rest)[1..] == pre[1..] + rest;
      StripLeftPadded(pre[1..], rest);
    }
  }

  lemma {:induction false} StripRightPadded(rest: string, post: string)
    requires AllSpace(post)
    requires |rest| > 0 && !IsSpace(rest[|rest| - 1])
    ensures StripRight(rest + post) == rest
    decreases |post|
  {
    if |post| == 0 {
      assert rest + post == rest;
    } else {
      var s := rest + post;
      assert s[..|s| - 1] == rest + post[..|post| - 1];
      StripRightPadded(rest, post[..|post| - 1]);
    }
  }

  /** The first pass drops the opening fence and nothing else. */
  lemma DropOpeningFence(payload: string)
    requires '`' !in payload
    ensures RemoveAll(JsonFence + payload + Fence, JsonFence) == payload + Fence
  {
    var body := JsonFence + payload + Fence;
    assert body[..|JsonFence|] == JsonFence;
    assert body[|JsonFence|..] == payload + Fence;
    RemoveAllKeepsPrefix(payload, Fence, JsonFence);
    assert |Fence| < |JsonFence|;
  }

  /** The second pass drops the closing fence. */
  lemma DropClosingFence(payload: string)
    requires '`' !in payload
    ensures RemoveAll(payload + Fence, Fence) == payload
  {
    RemoveAllKeepsPrefix(payload, Fence, Fence);
    assert Fence[..|Fence|] == Fence;
    assert Fence[|Fence|..] == [];
    assert payload + [] == payload;
  }

  /** A JSON payload wrapped in a "```json" ... "```" markdown fence, with any
      surrounding whitespace, is recovered exactly by the cleaning step. */
  lemma CleanFencedPayload(pre: string, payload: string, post: string)
    requires AllSpace(pre) && AllSpace(post)
    requires '`' !in payload
    ensures CleanReply(pre + JsonFence + payload + Fence + post) == payload
  {
    var body := JsonFence + payload + Fence;
    assert pre + JsonFence + payload + Fence + post == pre + body + post;
    assert body[0] == '`' && body[|body| - 1] == '`';
    StripPadded(pre, body, post);
    DropOpeningFence(payload);
    DropClosingFence(payload);
  }
}
