/** `extract_user_intent` of challenges/01_extraction.py: the code around one
    chat-completion call. The call's outcome and `json.loads` are inputs; what
    is modelled is the code-fence stripping and the error record that replaces
    every exception. */
module Extraction {
  import opened Wrappers
  import opened JsonValues

  /** The marker of a Markdown code block. */
  const Fence: string := "```"
  /** The opening marker of a JSON-tagged code block. */
  const JsonFence: string := "```json"

  /** `s.startswith(p)`. */
  predicate StartsWith(s: string, p: string) {
    |p| <= |s| && s[..|p|] == p
  }

  /** `p in s` for strings: `p` occurs somewhere in `s`. */
  predicate Contains(s: string, p: string)
    decreases |s|
  {
    StartsWith(s, p) || (s != [] && Contains(s[1..], p))
  }

  /** `s.replace(p, "")`: occurrences of `p` are found scanning left to
      right, never overlapping, and each is deleted. */
  function RemoveAll(s: string, p: string): string
    requires p != []
    decreases |s|
  {
    if s == [] then []
    else if StartsWith(s, p) then RemoveAll(s[|p|..], p)
    else [s[0]] + RemoveAll(s[1..], p)
  }

  /** The fence stripping at line 87-88: only a reply that opens with a fence
      is rewritten, first without "```json", then without "```". */
  function StripFence(content: string): (r: string)
    ensures !StartsWith(content, Fence) ==> r == content
    ensures StartsWith(content, Fence) ==> !Contains(r, Fence)
    ensures |r| <= |content|
  {
    if StartsWith(content, Fence) then
      var once := RemoveAll(content, JsonFence);
      RemoveShortens(content, JsonFence);
      RemoveShortens(once, Fence);
      NoFenceLeft(once);
      RemoveAll(once, Fence)
    else content
  }

  /** Deleting occurrences never makes a string longer. */
  lemma {:induction false} RemoveShortens(s: string, p: string)
    requires p != []
    ensures |RemoveAll(s, p)| <= |s|
    decreases |s|
  {
    if s == [] {
    } else if StartsWith(s, p) {
      RemoveShortens(s[|p|..], p);
    } else {
      RemoveShortens(s[1..], p);
    }
  }

  /** Text in which no occurrence of `p` starts within its first |c|
      characters keeps those characters: deletion only ever starts at an
      occurrence found by the left-to-right scan. */
  lemma {:induction false} RemoveClean(c: string, rest: string, p: string)
    requires p != []
    requires forall j :: 0 <= j < |c| ==> !StartsWith((c + rest)[j..], p)
    ensures RemoveAll(c + rest, p) == c + RemoveAll(rest, p)
    decreases |c|
  {
    if c != [] {
      assert (c + rest)[0..] == c + rest;
      assert (c + rest)[1..] == c[1..] + rest;
      forall j | 0 <= j < |c[1..]|
        ensures !StartsWith((c[1..] + rest)[j..], p)
      {
        assert (c[1..] + rest)[j..] == (c + rest)[j + 1..];
      }
      RemoveClean(c[1..], rest, p);
      assert RemoveAll(c + rest, p) == [c[0]] + RemoveAll(c[1..] + rest, p);
      assert RemoveAll(c + rest, p) == [c[0]] + (c[1..] + RemoveAll(rest, p));
      assert [c[0]] + (c[1..] + RemoveAll(rest, p)) == c + RemoveAll(rest, p);
    } else {
      assert c + rest == rest;
    }
  }

  /** The scan's view of `s.replace(p, "")`: the text before the first
      occurrence is kept, that occurrence is deleted, and the scan resumes
      right after it. */
  lemma RemoveFirstOccurrence(c: string, rest: string, p: string)
    requires p != []
    requires forall j :: 0 <= j < |c| ==> !StartsWith((c + p + rest)[j..], p)
    ensures RemoveAll(c + p + rest, p) == c + RemoveAll(rest, p)
  {
    assert c + p + rest == c + (p + rest);
    RemoveClean(c, p + rest, p);
    assert StartsWith(p + rest, p) && (p + rest)[|p|..] == rest;
  }

  /** Text without backticks holds no occurrence of a pattern that opens
      with one, wherever it is followed by. */
  lemma TicklessClean(c: string, rest: string, p: string)
    requires p != [] && p[0] == '`' && '`' !in c
    ensures forall j :: 0 <= j < |c| ==> !StartsWith((c + rest)[j..], p)
  {
    forall j | 0 <= j < |c|
      ensures !StartsWith((c + rest)[j..], p)
    {
      assert (c + rest)[j..][0] == c[j];
    }
  }

  /** A payload without backticks inside "```json" ... "```" comes out
      exactly; so does one inside "```" ... "```", unless it starts with
      "json" (then the opening marker reads as "```json"). */
  lemma StripKeepsPayload(body: string)
    requires '`' !in body
    ensures StripFence(JsonFence + body + Fence) == body
    ensures !StartsWith(body, "json") ==> StripFence(Fence + body + Fence) == body
  {
    JsonFencedPayload(body);
    if !StartsWith(body, "json") {
      PlainFencedPayload(body);
    }
  }

  /** The "```json" ... "```" half of StripKeepsPayload. */
  lemma JsonFencedPayload(body: string)
    requires '`' !in body
    ensures StripFence(JsonFence + body + Fence) == body
  {
    var s := JsonFence + body + Fence;
    assert s[..3] == Fence && s[..7] == JsonFence;
    assert s[|JsonFence|..] == body + Fence;
    ClosingFenceKept(body);
    assert RemoveAll(s, JsonFence) == body + Fence;
    ClosingFenceGoes(body);
  }

  /** The "```" ... "```" half of StripKeepsPayload. */
  lemma PlainFencedPayload(body: string)
    requires '`' !in body && !StartsWith(body, "json")
    ensures StripFence(Fence + body + Fence) == body
  {
    var t := Fence + body + Fence;
    assert t[..3] == Fence;
    FencedBodyClean(body);
    RemoveClean(Fence + body, Fence, JsonFence);
    ClosingFenceKept([]);
    assert RemoveAll(t, JsonFence) == t;
    assert t[|Fence|..] == body + Fence;
    ClosingFenceGoes(body);
  }

  /** The second pass deletes the closing "```" after a tickless payload. */
  lemma ClosingFenceGoes(body: string)
    requires '`' !in body
    ensures RemoveAll(body + Fence, Fence) == body
  {
    TicklessClean(body, Fence + [], Fence);
    assert body + Fence + [] == body + Fence;
    RemoveFirstOccurrence(body, [], Fence);
  }

  /** The first pass keeps a tickless payload and the "```" after it. */
  lemma ClosingFenceKept(body: string)
    requires '`' !in body
    ensures RemoveAll(body + Fence, JsonFence) == body + Fence
  {
    TicklessClean(body, Fence, JsonFence);
    RemoveClean(body, Fence, JsonFence);
    TooShortToContain(Fence, JsonFence);
    RemoveAbsent(Fence, JsonFence);
  }

  /** In "```" + body + "```" no "```json" starts before the closing fence
      when the payload has no backtick and does not start with "json". */
  lemma FencedBodyClean(body: string)
    requires '`' !in body && !StartsWith(body, "json")
    ensures forall j :: 0 <= j < |Fence + body| ==> !StartsWith((Fence + body + Fence)[j..], JsonFence)
  {
    var t := Fence + body + Fence;
    forall j | 0 <= j < |Fence + body|
      ensures !StartsWith(t[j..], JsonFence)
    {
      if j >= 3 {
        assert t[j..][0] == body[j - 3];
      } else if body == [] {
        assert |t[j..]| < |JsonFence|;
      } else if j > 0 {
        assert t[j..][3 - j] == body[0];
      } else if |body| >= 4 {
        OpeningNotJsonFence(body);
      } else {
        assert t[3 + |body|] == '`';
      }
    }
  }

  /** "```" + body does not open with "```json" when body does not open
      with "json". */
  lemma OpeningNotJsonFence(body: string)
    requires |body| >= 4 && !StartsWith(body, "json")
    ensures !StartsWith(Fence + body + Fence, JsonFence)
  {
    var t := Fence + body + Fence;
    assert t[3..] == body + Fence;
    assert t[3..7] == body[..4] != JsonFence[3..];
  }

  /** A string without `p` is left as it is. */
  lemma {:induction false} RemoveAbsent(s: string, p: string)
    requires p != [] && !Contains(s, p)
    ensures RemoveAll(s, p) == s
    decreases |s|
  {
    if s != [] {
      RemoveAbsent(s[1..], p);
    }
  }

  /** Number of backticks `s` opens with. */
  function LeadingTicks(s: string): nat
    decreases |s|
  {
    if s != [] && s[0] == '`' then 1 + LeadingTicks(s[1..]) else 0
  }

  /** Removing every "```" leaves no "```". The second conjunct carries the
      induction: a string that does not open with a fence keeps no more
      leading backticks than it had, so at most two. */
  lemma {:induction false} NoFenceLeft(s: string)
    ensures !Contains(RemoveAll(s, Fence), Fence)
    ensures !StartsWith(s, Fence) ==> LeadingTicks(RemoveAll(s, Fence)) <= LeadingTicks(s)
    decreases |s|
  {
    var r := RemoveAll(s, Fence);
    if s == [] {
    } else if StartsWith(s, Fence) {
      NoFenceLeft(s[3..]);
    } else {
      var t := RemoveAll(s[1..], Fence);
      NoFenceLeft(s[1..]);
      assert r == [s[0]] + t;
      assert r[1..] == t;
      if s[0] == '`' {
        // s opens with one or two backticks only, so t opens with at most one
        if |s| >= 2 && s[1] == '`' {
          assert !StartsWith(s[1..], Fence);
          assert s[2..] == s[1..][1..];
          assert |s| == 2 || s[2] != '`';
          LeadingTicksHead(s[1..]);
          LeadingTicksHead(s);
          assert LeadingTicks(t) <= 1;
        } else {
          LeadingTicksHead(s[1..]);
          assert LeadingTicks(t) == 0;
        }
        assert !StartsWith(r, Fence);
      } else {
        assert !StartsWith(r, Fence);
      }
      assert LeadingTicks(r) <= LeadingTicks(s) by {
        LeadingTicksHead(s);
      }
    }
  }

  /** LeadingTicks of a string that does not open with a backtick is 0;
      LeadingTicks of one whose second character is not a backtick is at most 1. */
  lemma LeadingTicksHead(s: string)
    ensures s == [] || s[0] != '`' ==> LeadingTicks(s) == 0
    ensures |s| >= 2 && s[0] == '`' && s[1] != '`' ==> LeadingTicks(s) == 1
    ensures |s| == 1 ==> LeadingTicks(s) <= 1
  {
    if |s| >= 1 {
      assert LeadingTicks(s[1..]) == (if |s[1..]| > 0 && s[1..][0] == '`' then 1 + LeadingTicks(s[1..][1..]) else 0);
    }
  }

  /** Stripping twice is stripping once: a stripped reply either did not open
      with a fence, or no longer holds any fence. */
  lemma StripIdempotent(content: string)
    ensures StripFence(StripFence(content)) == StripFence(content)
  {
    var r := StripFence(content);
    if StartsWith(content, Fence) {
      assert !StartsWith(r, Fence);
    }
  }

  /** The usual fenced reply loses both markers but keeps its line breaks. */
  lemma FencedExample()
    ensures StripFence("```json\n{}\n```") == "\n{}\n"
  {
    var s := "```json\n{}\n```";
    assert StartsWith(s, Fence);
    JsonFencePass();
    FencePass();
  }

  /** First pass of the example: only the opening "```json" goes. */
  lemma JsonFencePass()
    ensures RemoveAll("```json\n{}\n```", JsonFence) == "\n{}\n```"
  {
    var s := "```json\n{}\n```";
    var body := "\n{}\n```";
    assert StartsWith(s, JsonFence) && s[7..] == body;
    assert !Contains(body, JsonFence) by {
      assert body[..7][0] != JsonFence[0];
      TooShortToContain(body[1..], JsonFence);
    }
    RemoveAbsent(body, JsonFence);
  }

  /** Second pass of the example: the closing "```" goes. */
  lemma FencePass()
    ensures RemoveAll("\n{}\n```", Fence) == "\n{}\n"
  {
    var body := "\n{}\n```";
    assert body[4..] == Fence && Fence[3..] == [];
    assert RemoveAll(body[4..], Fence) == [];
    assert RemoveAll(body[3..], Fence) == ['\n'];
    assert RemoveAll(body[2..], Fence) == ['}', '\n'];
    assert RemoveAll(body[1..], Fence) == ['{', '}', '\n'];
  }

  /** A string shorter than `p` does not contain it. */
  lemma {:induction false} TooShortToContain(s: string, p: string)
    requires |s| < |p|
    ensures !Contains(s, p)
    decreases |s|
  {
    if s != [] {
      TooShortToContain(s[1..], p);
    }
  }

  /** What the chat-completion call produced: it raised (with its message),
      or it returned a message whose content may be `None`. */
  datatype ApiReply = CallFailed(message: string) | Replied(content: Option<string>)

  /** The message of the AttributeError raised by `None.startswith`. */
  const NoneHasNoStartswith: string := "'NoneType' object has no attribute 'startswith'"

  /** The record returned instead of an exception (line 92). */
  function ErrorRecord(message: string, raw: Json): (r: Json)
    ensures r.JObject? && Keys(r.fields) == ["error", "raw_content"]
    ensures Lookup(r.fields, "error") == Some(JString(message))
    ensures Lookup(r.fields, "raw_content") == Some(raw)
  {
    JObject([("error", JString(message)), ("raw_content", raw)])
  }

  /** `extract_user_intent` after the call: `loads` stands for `json.loads`,
      giving the parsed value or the message of the exception it raises. */
  function ExtractUserIntent(reply: ApiReply, loads: string -> Result<Json, string>): (r: Json)
    ensures reply.CallFailed? ==> r == ErrorRecord(reply.message, JString(""))
    ensures reply == Replied(None) ==> r == ErrorRecord(NoneHasNoStartswith, JNull)
    ensures reply.Replied? && reply.content.Some? ==>
              var text := StripFence(reply.content.value);
              (loads(text).Ok? ==> r == loads(text).value) &&
              (loads(text).Err? ==> r == ErrorRecord(loads(text).error, JString(text)))
  {
    match reply
    case CallFailed(message) => ErrorRecord(message, JString(""))
    case Replied(None) => ErrorRecord(NoneHasNoStartswith, JNull)
    case Replied(Some(content)) =>
      var text := StripFence(content);
      match loads(text)
      case Ok(value) => value
      case Err(message) => ErrorRecord(message, JString(text))
  }
}
