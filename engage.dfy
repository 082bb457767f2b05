/** Conversation engagement: rewriting `@name` mentions into platform
    mentions, building the completion request from the channel window, and
    turning the model's tool calls into messages. */
module Engage {
  import opened Wrappers
  import OpenRouter

  /** The characters of the regular expression class `\w`: ASCII letters,
      digits and underscore. */
  predicate IsWordChar(c: char) {
    'a' <= c <= 'z' || 'A' <= c <= 'Z' || '0' <= c <= '9' || c == '_'
  }

  /** A non-empty run of word characters: what `@(\w+)` can capture. */
  predicate IsName(s: string) {
    |s| > 0 && forall i :: 0 <= i < |s| ==> IsWordChar(s[i])
  }

  /** Length of the longest run of word characters at the front of `s`. */
  function WordRun(s: string): (n: nat)
    ensures n <= |s|
    ensures forall i :: 0 <= i < n ==> IsWordChar(s[i])
    ensures n < |s| ==> !IsWordChar(s[n])
    decreases |s|
  {
    if |s| == 0 || !IsWordChar(s[0]) then 0 else 1 + WordRun(s[1..])
  }

  /** The text that replaces the mention `@name`. */
  function MentionFor(name: string, cache: map<string, string>): string {
    if name in cache then "<@" + cache[name] + ">" else "@" + name
  }

  /** `mentionRegex.ReplaceAllStringFunc` with the cache lookup: scanning
      left to right, each `@` followed by a maximal run of word characters
      becomes `<@ID>` when the run is a cached name and stays as it was
      otherwise; every other character is copied. */
  function Rewrite(s: string, cache: map<string, string>): string
    decreases |s|
  {
    if |s| == 0 then ""
    else if s[0] == '@' && WordRun(s[1..]) > 0 then
      var n := WordRun(s[1..]);
      MentionFor(s[1..1 + n], cache) + Rewrite(s[1 + n..], cache)
    else [s[0]] + Rewrite(s[1..], cache)
  }

  /** A text with no `@` comes back unchanged. */
  lemma {:induction false} RewriteWithoutAt(s: string, cache: map<string, string>)
    requires '@' !in s
    ensures Rewrite(s, cache) == s
    decreases |s|
  {
    if |s| > 0 {
      RewriteWithoutAt(s[1..], cache);
      assert s == [s[0]] + s[1..];
    }
  }

  /** When no cached name could ever be captured (in particular for an empty
      cache), every mention is unknown and the text comes back unchanged. */
  lemma {:induction false} RewriteUnknownNames(s: string, cache: map<string, string>)
    requires forall k :: k in cache ==> !IsName(k)
    ensures Rewrite(s, cache) == s
    decreases |s|
  {
    if |s| > 0 {
      var m := UnknownStep(s, cache);
      RewriteUnknownNames(s[m..], cache);
      TakeDrop(s, m);
    }
  }

  lemma TakeDrop<T>(s: seq<T>, m: nat)
    requires m <= |s|
    ensures s[..m] + s[m..] == s
  {
  }

  /** With no capturable name cached, the first token of a non-empty text (a
      mention with its name, or one character) is copied as it is. */
  lemma UnknownStep(s: string, cache: map<string, string>) returns (m: nat)
    requires |s| > 0
    requires forall k :: k in cache ==> !IsName(k)
    ensures 1 <= m <= |s|
    ensures Rewrite(s, cache) == s[..m] + Rewrite(s[m..], cache)
  {
    if s[0] == '@' && WordRun(s[1..]) > 0 {
      var n := WordRun(s[1..]);
      m := 1 + n;
      var name := s[1..m];
      RunIsName(s[1..]);
      assert name == s[1..][..n];
      UnknownMention(name, cache);
      assert s[..m] == "@" + name;
    } else {
      m := 1;
      assert s[..1] == [s[0]];
    }
  }

  /** A non-empty run of word characters at the front is a name. */
  lemma RunIsName(s: string)
    requires WordRun(s) > 0
    ensures IsName(s[..WordRun(s)])
  {
    var n := WordRun(s);
    forall i | 0 <= i < n ensures IsWordChar(s[..n][i]) {
      assert s[..n][i] == s[i];
    }
  }

  /** A name the cache cannot hold is left as it was. */
  lemma UnknownMention(name: string, cache: map<string, string>)
    requires IsName(name)
    requires forall k :: k in cache ==> !IsName(k)
    ensures MentionFor(name, cache) == "@" + name
  {
  }

  lemma {:induction false} WordRunOfName(name: string, rest: string)
    requires IsName(name)
    requires |rest| == 0 || !IsWordChar(rest[0])
    ensures WordRun(name + rest) == |name|
    decreases |name|
  {
    if |name| > 1 {
      assert (name + rest)[1..] == name[1..] + rest;
      WordRunOfName(name[1..], rest);
    }
  }

  /** A cached name after `@`, ended by a non-word character or the end of
      the text, becomes the platform mention of its ID. */
  lemma KnownMentionRewritten(name: string, rest: string, cache: map<string, string>)
    requires IsName(name) && name in cache
    requires |rest| == 0 || !IsWordChar(rest[0])
    ensures Rewrite("@" + name + rest, cache) == "<@" + cache[name] + ">" + Rewrite(rest, cache)
  {
    var s := "@" + name + rest;
    assert s[1..] == name + rest;
    WordRunOfName(name, rest);
    assert s[1..1 + |name|] == name;
    assert s[1 + |name|..] == rest;
  }

  /** A name after `@` that the cache does not hold, ended by a non-word
      character or the end of the text, is left exactly as it was, and the
      rest is rewritten on. */
  lemma UnknownMentionKept(name: string, rest: string, cache: map<string, string>)
    requires IsName(name) && name !in cache
    requires |rest| == 0 || !IsWordChar(rest[0])
    ensures Rewrite("@" + name + rest, cache) == "@" + name + Rewrite(rest, cache)
  {
    var s := "@" + name + rest;
    assert s[1..] == name + rest;
    WordRunOfName(name, rest);
    assert s[1..1 + |name|] == name;
    assert s[1 + |name|..] == rest;
  }

  /** processToolCall with the work behind the search (decoding the
      arguments, the web search, encoding its results) as a parameter: only
      the `search` function is known, and a successful result is a `tool`
      message answering the call's ID. */
  function ProcessToolCall(call: OpenRouter.ToolCall, search: Result<string, string>): (r: Result<OpenRouter.Message, string>)
    ensures call.call.name != "search" ==> r == Failure("unknown function: " + call.call.name)
    ensures r.Success? <==> call.call.name == "search" && search.Success?
    ensures r.Success? ==> && r.value.role == "tool" && r.value.name == "search"
                           && r.value.toolCallId == call.id && r.value.content == search.value
  {
    if call.call.name == "search" then
      match search
      case Success(content) => Success(OpenRouter.Message("tool", "search", content, call.id, []))
      case Failure(e) => Failure(e)
    else Failure("unknown function: " + call.call.name)
  }

  /** The assistant message that carries exactly one tool call. */
  function CallMessage(call: OpenRouter.ToolCall): OpenRouter.Message {
    OpenRouter.Message("assistant", "", "", "", [call])
  }

  /** The messages the tool-call loop appends: for each call, the assistant
      message carrying it, then its result when processing succeeded. */
  function ToolMessages(calls: seq<OpenRouter.ToolCall>, searches: seq<Result<string, string>>): seq<OpenRouter.Message>
    requires |searches| == |calls|
    decreases |calls|
  {
    if |calls| == 0 then []
    else
      var n := |calls| - 1;
      var result := ProcessToolCall(calls[n], searches[n]);
      ToolMessages(calls[..n], searches[..n]) + [CallMessage(calls[n])] + (if result.Success? then [result.value] else [])
  }

  /** Number of calls whose processing succeeds. */
  function Answered(calls: seq<OpenRouter.ToolCall>, searches: seq<Result<string, string>>): (n: nat)
    requires |searches| == |calls|
    ensures n <= |calls|
    decreases |calls|
  {
    if |calls| == 0 then 0
    else
      var k := |calls| - 1;
      Answered(calls[..k], searches[..k]) + (if ProcessToolCall(calls[k], searches[k]).Success? then 1 else 0)
  }

  /** Each call contributes its assistant message and at most one result:
      the loop appends one message per call plus one per answered call. */
  lemma {:induction false} ToolMessagesCount(calls: seq<OpenRouter.ToolCall>, searches: seq<Result<string, string>>)
    requires |searches| == |calls|
    ensures |ToolMessages(calls, searches)| == |calls| + Answered(calls, searches)
    ensures |calls| <= |ToolMessages(calls, searches)| <= 2 * |calls|
    decreases |calls|
  {
    if |calls| > 0 {
      var n := |calls| - 1;
      ToolMessagesCount(calls[..n], searches[..n]);
    }
  }

  /** Tool results are never assistant messages, so the loop appends exactly
      as many assistant messages as there were calls. */
  lemma {:induction false} ToolMessagesAssistants(calls: seq<OpenRouter.ToolCall>, searches: seq<Result<string, string>>)
    requires |searches| == |calls|
    ensures CountRole(ToolMessages(calls, searches), "assistant") == |calls|
    decreases |calls|
  {
    if |calls| > 0 {
      var n := |calls| - 1;
      ToolMessagesAssistants(calls[..n], searches[..n]);
      var result := ProcessToolCall(calls[n], searches[n]);
      var prefix := ToolMessages(calls[..n], searches[..n]);
      var call := [CallMessage(calls[n])];
      var answer := if result.Success? then [result.value] else [];
      assert ToolMessages(calls, searches) == prefix + call + answer;
      assert CountRole(call, "assistant") == 1 by {
        assert call[..0] == [];
      }
      assert CountRole(answer, "assistant") == 0 by {
        if result.Success? {
          assert answer[..0] == [];
        }
      }
      CountRoleAppend(prefix, call, "assistant");
      CountRoleAppend(prefix + call, answer, "assistant");
    }
  }

  /** Number of messages with the given role. */
  function CountRole(ms: seq<OpenRouter.Message>, role: string): nat
    decreases |ms|
  {
    if |ms| == 0 then 0 else CountRole(ms[..|ms| - 1], role) + (if ms[|ms| - 1].role == role then 1 else 0)
  }

  lemma {:induction false} CountRoleAppend(a: seq<OpenRouter.Message>, b: seq<OpenRouter.Message>, role: string)
    ensures CountRole(a + b, role) == CountRole(a, role) + CountRole(b, role)
    decreases |b|
  {
    if |b| > 0 {
      CountRoleAppend(a, b[..|b| - 1], role);
      assert (a + b)[..|a + b| - 1] == a + b[..|b| - 1];
    } else {
      assert a + b == a;
    }
  }

  /** The tool-call loop of `engageFromMention`: for each call in turn,
      append the assistant message carrying it, then its result when
      processing succeeded. The messages already in the request stay. */
  method AppendToolMessages(req: OpenRouter.Request, calls: seq<OpenRouter.ToolCall>, searches: seq<Result<string, string>>)
    requires |searches| == |calls|
    modifies req`messages
    ensures req.messages == old(req.messages) + ToolMessages(calls, searches)
  {
    var i := 0;
    while i < |calls|
      invariant 0 <= i <= |calls|
      invariant req.messages == old(req.messages) + ToolMessages(calls[..i], searches[..i])
    {
      req.messages := req.messages + [CallMessage(calls[i])];
      var result := ProcessToolCall(calls[i], searches[i]);
      if result.Success? {
        req.messages := req.messages + [result.value];
      }
      assert calls[..i + 1][..i] == calls[..i];
      assert searches[..i + 1][..i] == searches[..i];
      i := i + 1;
    }
    assert calls[..i] == calls;
    assert searches[..i] == searches;
  }

  /** The request of `engageWithMessage` and `engageFromMention`: the system
      message, then the channel window in order, then exactly one user
      prompt (whose wording is not modelled). It always passes Send's guard. */
  method EngageRequest(o: OpenRouter.Client, history: seq<OpenRouter.Message>, prompt: string)
    returns (req: OpenRouter.Request)
    ensures fresh(req)
    ensures req.messages == [OpenRouter.Plain("system", o.systemPrompt)] + history + [OpenRouter.Plain("user", prompt)]
    ensures OpenRouter.Sendable(req.messages, req.prompt)
  {
    req := OpenRouter.NewRequest(o);
    req.AddMessages(history);
    req.AddMessage("user", prompt);
  }
}
