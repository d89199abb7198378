/** The writer loop of challenges/02_workflow.py (`step2_generate_content_loop`,
    lines 115-164, and `_update_context_summary`, lines 166-223) as functions:
    one step per chapter, and the run over the first k chapters. The loop
    itself is `Workflow.LongArticleAgent.GenerateContentLoop`.

    Both remote calls are oracle inputs: `replies[i]` is what the chapter call
    for chapter i gave (None when it raised), `digests[i]` what the summary
    call made while handling chapter i gave. `show` stands for Python's
    `str()` of a chapter, which the section heading uses. */
module ContextWriter {
  import opened Wrappers
  import opened JsonValues

  /** The running summary before the first chapter (line 121). */
  const Opening: string := "文章开始。"

  /** The section appended for a chapter (line 154): the heading renders the
      whole chapter value, not its title. */
  function Section(show: Json -> string, chapter: Json, content: string): string
  {
    "## " + show(chapter) + "\n\n" + content
  }

  /** A section opens with "## " and the rendered chapter, and ends with the
      chapter text verbatim after a blank line. */
  lemma SectionShape(show: Json -> string, chapter: Json, content: string)
    ensures var r := Section(show, chapter, content);
            |r| == |show(chapter)| + |content| + 5 &&
            r[..3] == "## " && r[3..3 + |show(chapter)|] == show(chapter) &&
            r[|r| - |content| - 2..] == "\n\n" + content
  {
  }

  /** Line 128 reads `chapter['key_points']` and iterates it outside any
      `try`: only a dict holding that key, with a list, string or dict under
      it, gets past; anything else raises out of the loop. */
  predicate KeyPointsReadable(chapter: Json)
  {
    chapter.JObject? &&
    var kp := Lookup(chapter.fields, "key_points");
    kp.Some? && (kp.value.JArray? || kp.value.JString? || kp.value.JObject?)
  }

  /** The request the summary call sends: for chapter 0 a digest of the
      title and the new text alone (lines 169-181), for later chapters a
      merge of the current summary with the new text (lines 196-208). */
  datatype Request = Digest(title: Json, content: string) | Merge(summary: string, content: string)

  function SummaryRequest(current: string, title: Json, content: string, index: nat): (q: Request)
    ensures q.content == content
    ensures index == 0 <==> q.Digest?
    ensures q.Digest? ==> q.title == title
    ensures q.Merge? ==> q.summary == current
  {
    if index == 0 then Digest(title, content) else Merge(current, content)
  }

  /** The exception raised when the summary call fails: both fallbacks
      (lines 193, 220-221) call `self.truncate_context`, which the class
      does not define. */
  datatype Fault = AttributeError(name: string)

  /** `_update_context_summary` given the reply to its request: the reply
      text on success, otherwise the AttributeError its fallback raises. */
  function UpdateContextSummary(reply: Option<string>): (r: Result<string, Fault>)
    ensures r.Ok? <==> reply.Some?
    ensures r.Ok? ==> r.value == reply.value
    ensures r.Err? ==> r.error == AttributeError("truncate_context")
  {
    match reply
    case Some(text) => Ok(text)
    case None => Err(AttributeError("truncate_context"))
  }

  /** The writer's state after some chapters: the sections appended, the
      running summary, the summary requests sent (with the chapter index
      passed), and the index of the chapter whose key points raised, if any. */
  datatype Progress = Progress(sections: seq<string>, summary: string,
                               requests: seq<(nat, Request)>, crashedAt: Option<nat>)

  /** The summary request chapter i sends, if any: only after a successful
      chapter call, and only when `chapter['title']` exists (line 159 reads
      it inside the `try`; a missing key raises before the call). */
  function SentRequest(summary: string, chapter: Json, i: nat, reply: Option<string>): (r: Option<Request>)
    requires chapter.JObject?
    ensures r.Some? <==> reply.Some? && HasKey(chapter.fields, "title")
  {
    if reply.Some? && HasKey(chapter.fields, "title") then
      Some(SummaryRequest(summary, Lookup(chapter.fields, "title").value, reply.value, i))
    else None
  }

  /** The running summary after chapter i: the summary call's reply when
      the request was sent and answered, otherwise the summary as it was
      (a failed summary call raises the AttributeError, caught at line 163). */
  function NextSummary(summary: string, chapter: Json, i: nat, reply: Option<string>, digest: Option<string>): (s: string)
    requires chapter.JObject?
    ensures s == summary || (digest.Some? && s == digest.value)
  {
    if SentRequest(summary, chapter, i, reply).Some? && UpdateContextSummary(digest).Ok? then
      UpdateContextSummary(digest).value
    else summary
  }

  /** One iteration of the loop for chapter i. Unreadable key points raise
      out of the loop. A failed chapter call is caught (line 163): nothing
      changes. A successful one appends the section, which stays whatever
      happens to the summary afterwards. */
  function Step(p: Progress, show: Json -> string, chapter: Json, i: nat,
                reply: Option<string>, digest: Option<string>): (r: Progress)
    requires p.crashedAt.None?
    ensures !KeyPointsReadable(chapter) <==> r.crashedAt.Some?
    ensures r.crashedAt.Some? ==> r == p.(crashedAt := Some(i))
    ensures r.crashedAt.None? && reply.None? ==> r == p
    ensures r.crashedAt.None? && reply.Some? ==> r.sections == p.sections + [Section(show, chapter, reply.value)]
    ensures r.summary == p.summary || (digest.Some? && r.summary == digest.value)
  {
    if !KeyPointsReadable(chapter) then p.(crashedAt := Some(i))
    else
      var sent := SentRequest(p.summary, chapter, i, reply);
      Progress(p.sections + (if reply.Some? then [Section(show, chapter, reply.value)] else []),
               NextSummary(p.summary, chapter, i, reply, digest),
               p.requests + (if sent.Some? then [(i, sent.value)] else []),
               None)
  }

  /** The oracles give one outcome per chapter. */
  predicate Oracles(outline: seq<Json>, replies: seq<Option<string>>, digests: seq<Option<string>>)
  {
    |replies| == |outline| && |digests| == |outline|
  }

  /** The state after the loop has handled chapters 0 .. k-1; once a chapter
      has raised, nothing further happens. */
  function Run(show: Json -> string, outline: seq<Json>, replies: seq<Option<string>>,
               digests: seq<Option<string>>, k: nat): Progress
    requires Oracles(outline, replies, digests) && k <= |outline|
  {
    if k == 0 then Progress([], Opening, [], None)
    else
      var p := Run(show, outline, replies, digests, k - 1);
      if p.crashedAt.Some? then p
      else Step(p, show, outline[k - 1], k - 1, replies[k - 1], digests[k - 1])
  }

  /** How the loop ends: the outline was empty (it returns at once), the
      loop finished with a final summary, or chapter i raised out of it. */
  datatype LoopEnd = NothingToDo | Done(summary: string) | Crashed(chapter: nat)

  function Finish(show: Json -> string, outline: seq<Json>, replies: seq<Option<string>>,
                  digests: seq<Option<string>>): LoopEnd
    requires Oracles(outline, replies, digests)
  {
    if outline == [] then NothingToDo
    else
      var p := Run(show, outline, replies, digests, |outline|);
      if p.crashedAt.Some? then Crashed(p.crashedAt.value) else Done(p.summary)
  }

  /** Reference definition of the sections: one per successful chapter call,
      in outline order. */
  function Successes(show: Json -> string, chapters: seq<Json>, replies: seq<Option<string>>): seq<string>
    requires |replies| == |chapters|
  {
    if chapters == [] then []
    else
      (if replies[0].Some? then [Section(show, chapters[0], replies[0].value)] else []) +
      Successes(show, chapters[1..], replies[1..])
  }

  lemma {:induction false} SuccessesSnoc(show: Json -> string, chapters: seq<Json>, replies: seq<Option<string>>,
                                         chapter: Json, reply: Option<string>)
    requires |replies| == |chapters|
    ensures Successes(show, chapters + [chapter], replies + [reply]) ==
            Successes(show, chapters, replies) + (if reply.Some? then [Section(show, chapter, reply.value)] else [])
    decreases |chapters|
  {
    if chapters != [] {
      assert (chapters + [chapter])[1..] == chapters[1..] + [chapter];
      assert (replies + [reply])[1..] == replies[1..] + [reply];
      SuccessesSnoc(show, chapters[1..], replies[1..], chapter, reply);
    }
  }

  /** There are never more sections than chapters handled. */
  lemma {:induction false} SuccessesBound(show: Json -> string, chapters: seq<Json>, replies: seq<Option<string>>)
    requires |replies| == |chapters|
    ensures |Successes(show, chapters, replies)| <= |chapters|
    ensures (forall i :: 0 <= i < |replies| ==> replies[i].Some?) ==> |Successes(show, chapters, replies)| == |chapters|
    decreases |chapters|
  {
    if chapters != [] {
      SuccessesBound(show, chapters[1..], replies[1..]);
      assert forall i :: 0 < i < |replies| ==> replies[1..][i - 1] == replies[i];
    }
  }

  /** The loop stops at the first chapter whose key points cannot be read,
      and only there. */
  lemma {:induction false} CrashPoint(show: Json -> string, outline: seq<Json>, replies: seq<Option<string>>,
                                      digests: seq<Option<string>>, k: nat)
    requires Oracles(outline, replies, digests) && k <= |outline|
    ensures Run(show, outline, replies, digests, k).crashedAt.None? <==>
              forall j :: 0 <= j < k ==> KeyPointsReadable(outline[j])
    ensures Run(show, outline, replies, digests, k).crashedAt.Some? ==>
              var c := Run(show, outline, replies, digests, k).crashedAt.value;
              c < k && !KeyPointsReadable(outline[c]) &&
              (forall j :: 0 <= j < c ==> KeyPointsReadable(outline[j])) &&
              Run(show, outline, replies, digests, k) == Run(show, outline, replies, digests, c + 1)
  {
    if k > 0 {
      CrashPoint(show, outline, replies, digests, k - 1);
    }
  }

  /** How the loop ends: with nothing to do exactly for an empty outline,
      crashed exactly when some chapter's key points cannot be read (at the
      first such chapter), and otherwise done with the run's final summary. */
  lemma FinishOutcomes(show: Json -> string, outline: seq<Json>, replies: seq<Option<string>>,
                       digests: seq<Option<string>>)
    requires Oracles(outline, replies, digests)
    ensures Finish(show, outline, replies, digests).NothingToDo? <==> outline == []
    ensures Finish(show, outline, replies, digests).Crashed? <==>
              exists j :: 0 <= j < |outline| && !KeyPointsReadable(outline[j])
    ensures Finish(show, outline, replies, digests).Crashed? ==>
              var c := Finish(show, outline, replies, digests).chapter;
              c < |outline| && !KeyPointsReadable(outline[c]) &&
              forall j :: 0 <= j < c ==> KeyPointsReadable(outline[j])
    ensures Finish(show, outline, replies, digests).Done? ==>
              Finish(show, outline, replies, digests).summary == Run(show, outline, replies, digests, |outline|).summary
  {
    CrashPoint(show, outline, replies, digests, |outline|);
  }

  /** A crash is final: the state stays what it was when the chapter raised. */
  lemma {:induction false} CrashIsFinal(show: Json -> string, outline: seq<Json>, replies: seq<Option<string>>,
                                        digests: seq<Option<string>>, k: nat, m: nat)
    requires Oracles(outline, replies, digests) && k <= m <= |outline|
    requires Run(show, outline, replies, digests, k).crashedAt.Some?
    ensures Run(show, outline, replies, digests, m) == Run(show, outline, replies, digests, k)
    decreases m
  {
    if m > k {
      CrashIsFinal(show, outline, replies, digests, k, m - 1);
    }
  }

  /** A chapter whose key points cannot be read ends the loop there: the
      run ends as Crashed at that chapter with the sections written so far. */
  lemma CrashEndsRun(show: Json -> string, outline: seq<Json>, replies: seq<Option<string>>,
                     digests: seq<Option<string>>, i: nat)
    requires Oracles(outline, replies, digests) && i < |outline|
    requires Run(show, outline, replies, digests, i).crashedAt.None? && !KeyPointsReadable(outline[i])
    ensures Finish(show, outline, replies, digests) == Crashed(i)
    ensures Run(show, outline, replies, digests, |outline|).sections == Run(show, outline, replies, digests, i).sections
  {
    CrashIsFinal(show, outline, replies, digests, i + 1, |outline|);
  }

  /** How many chapters the loop got through before stopping. */
  function Reached(p: Progress, k: nat): nat
  {
    if p.crashedAt.Some? && p.crashedAt.value < k then p.crashedAt.value else k
  }

  /** The sections are exactly the successful chapter calls among the
      chapters reached, in outline order, so there are at most as many as
      chapters. */
  lemma {:induction false} SectionsAreSuccesses(show: Json -> string, outline: seq<Json>, replies: seq<Option<string>>,
                                                digests: seq<Option<string>>, k: nat)
    requires Oracles(outline, replies, digests) && k <= |outline|
    ensures var p := Run(show, outline, replies, digests, k);
            var c := Reached(p, k);
            c <= k && p.sections == Successes(show, outline[..c], replies[..c]) && |p.sections| <= k
  {
    var p := Run(show, outline, replies, digests, k);
    if k > 0 {
      var q := Run(show, outline, replies, digests, k - 1);
      SectionsAreSuccesses(show, outline, replies, digests, k - 1);
      if q.crashedAt.None? {
        assert outline[..k] == outline[..k - 1] + [outline[k - 1]];
        assert replies[..k] == replies[..k - 1] + [replies[k - 1]];
        SuccessesSnoc(show, outline[..k - 1], replies[..k - 1], outline[k - 1], replies[k - 1]);
      } else {
        CrashPoint(show, outline, replies, digests, k - 1);
      }
      SuccessesBound(show, outline[..Reached(p, k)], replies[..Reached(p, k)]);
    }
  }

  /** Chapter j refreshes the summary: its key points are readable, its call
      succeeded, it has a title, and the summary call succeeded. */
  predicate Refreshes(outline: seq<Json>, replies: seq<Option<string>>, digests: seq<Option<string>>, j: nat)
    requires Oracles(outline, replies, digests) && j < |outline|
  {
    KeyPointsReadable(outline[j]) && replies[j].Some? &&
    HasKey(outline[j].fields, "title") && digests[j].Some?
  }

  /** The running summary is the reply to the last summary call that
      succeeded, or the opening sentence if there was none. */
  lemma {:induction false} SummaryIsLastRefresh(show: Json -> string, outline: seq<Json>, replies: seq<Option<string>>,
                                                digests: seq<Option<string>>, k: nat)
    requires Oracles(outline, replies, digests) && k <= |outline|
    requires Run(show, outline, replies, digests, k).crashedAt.None?
    ensures (forall j :: 0 <= j < k ==> !Refreshes(outline, replies, digests, j)) ==>
              Run(show, outline, replies, digests, k).summary == Opening
    ensures forall j :: 0 <= j < k && Refreshes(outline, replies, digests, j) &&
                        (forall j' :: j < j' < k ==> !Refreshes(outline, replies, digests, j')) ==>
              Run(show, outline, replies, digests, k).summary == digests[j].value
  {
    if k > 0 {
      var p := Run(show, outline, replies, digests, k - 1);
      var r := Run(show, outline, replies, digests, k);
      assert p.crashedAt.None?;
      SummaryIsLastRefresh(show, outline, replies, digests, k - 1);
      if Refreshes(outline, replies, digests, k - 1) {
        assert r.summary == digests[k - 1].value;
      } else {
        assert r.summary == p.summary;
      }
    }
  }

  /** A summary request sent while handling chapter `entry.0`, among the
      first k chapters: that chapter's call succeeded and the request carries
      its text; the chapter is a dict with a title; a digest is sent exactly
      for chapter 0 and carries that title, and otherwise a merge carries the
      summary as it stood before that chapter. */
  predicate RequestPlaced(show: Json -> string, outline: seq<Json>, replies: seq<Option<string>>,
                          digests: seq<Option<string>>, k: nat, entry: (nat, Request))
    requires Oracles(outline, replies, digests) && k <= |outline|
  {
    entry.0 < k && replies[entry.0].Some? && entry.1.content == replies[entry.0].value &&
    outline[entry.0].JObject? && HasKey(outline[entry.0].fields, "title") &&
    (entry.1.Digest? <==> entry.0 == 0) &&
    (entry.1.Digest? ==> entry.1.title == Lookup(outline[entry.0].fields, "title").value) &&
    (entry.1.Merge? ==> entry.1.summary == Run(show, outline, replies, digests, entry.0).summary)
  }

  /** Every summary request carries the chapter's position in the outline,
      not the number of chapters written so far. */
  lemma {:induction false} RequestsFollowPositions(show: Json -> string, outline: seq<Json>, replies: seq<Option<string>>,
                                                   digests: seq<Option<string>>, k: nat)
    requires Oracles(outline, replies, digests) && k <= |outline|
    ensures var rs := Run(show, outline, replies, digests, k).requests;
            forall m :: 0 <= m < |rs| ==> RequestPlaced(show, outline, replies, digests, k, rs[m])
  {
    if k > 0 {
      var p := Run(show, outline, replies, digests, k - 1);
      var r := Run(show, outline, replies, digests, k);
      RequestsFollowPositions(show, outline, replies, digests, k - 1);
      assert var rs := Run(show, outline, replies, digests, k - 1).requests;
             forall m :: 0 <= m < |rs| ==> RequestPlaced(show, outline, replies, digests, k - 1, rs[m]);
      if p.crashedAt.None? && KeyPointsReadable(outline[k - 1]) && replies[k - 1].Some? &&
         HasKey(outline[k - 1].fields, "title") {
        var q := SummaryRequest(p.summary, Lookup(outline[k - 1].fields, "title").value, replies[k - 1].value, k - 1);
        assert r.requests == p.requests + [(k - 1, q)];
        forall m | 0 <= m < |r.requests|
          ensures RequestPlaced(show, outline, replies, digests, k, r.requests[m])
        {
          if m < |p.requests| {
            assert r.requests[m] == p.requests[m];
            assert RequestPlaced(show, outline, replies, digests, k - 1, p.requests[m]);
          }
        }
      } else {
        assert r.requests == p.requests;
        forall m | 0 <= m < |r.requests|
          ensures RequestPlaced(show, outline, replies, digests, k, r.requests[m])
        {
          assert r.requests[m] == p.requests[m];
          assert RequestPlaced(show, outline, replies, digests, k - 1, p.requests[m]);
        }
      }
    }
  }

  /** Conversely, every chapter reached whose call succeeded and that has
      a title has its summary request recorded. */
  lemma {:induction false} RequestsRecorded(show: Json -> string, outline: seq<Json>, replies: seq<Option<string>>,
                                            digests: seq<Option<string>>, k: nat, j: nat)
    requires Oracles(outline, replies, digests) && j < k <= |outline|
    requires Run(show, outline, replies, digests, k).crashedAt.None?
    requires replies[j].Some? && outline[j].JObject? && HasKey(outline[j].fields, "title")
    ensures var rs := Run(show, outline, replies, digests, k).requests;
            exists m :: 0 <= m < |rs| && rs[m].0 == j
    decreases k
  {
    var p := Run(show, outline, replies, digests, k - 1);
    var r := Run(show, outline, replies, digests, k);
    assert p.crashedAt.None?;
    assert KeyPointsReadable(outline[k - 1]);
    var sent := SentRequest(p.summary, outline[k - 1], k - 1, replies[k - 1]);
    assert r.requests == p.requests + (if sent.Some? then [(k - 1, sent.value)] else []);
    if j == k - 1 {
      assert r.requests[|p.requests|].0 == j;
    } else {
      RequestsRecorded(show, outline, replies, digests, k - 1, j);
      var m :| 0 <= m < |p.requests| && p.requests[m].0 == j;
      assert r.requests[m] == p.requests[m];
    }
  }

  /** No look-ahead: the state after k chapters depends on the first k
      chapters and their call outcomes only. */
  lemma {:induction false} NoLookAhead(show: Json -> string,
                                       outline: seq<Json>, replies: seq<Option<string>>, digests: seq<Option<string>>,
                                       outline': seq<Json>, replies': seq<Option<string>>, digests': seq<Option<string>>,
                                       k: nat)
    requires Oracles(outline, replies, digests) && Oracles(outline', replies', digests')
    requires k <= |outline| && k <= |outline'|
    requires outline[..k] == outline'[..k] && replies[..k] == replies'[..k] && digests[..k] == digests'[..k]
    ensures Run(show, outline, replies, digests, k) == Run(show, outline', replies', digests', k)
  {
    if k > 0 {
      assert outline[..k - 1] == outline[..k][..k - 1] && outline'[..k - 1] == outline'[..k][..k - 1];
      assert replies[..k - 1] == replies[..k][..k - 1] && replies'[..k - 1] == replies'[..k][..k - 1];
      assert digests[..k - 1] == digests[..k][..k - 1] && digests'[..k - 1] == digests'[..k][..k - 1];
      NoLookAhead(show, outline, replies, digests, outline', replies', digests', k - 1);
      assert outline[k - 1] == outline[..k][k - 1] == outline'[k - 1];
      assert replies[k - 1] == replies[..k][k - 1] == replies'[k - 1];
      assert digests[k - 1] == digests[..k][k - 1] == digests'[k - 1];
    }
  }

  /** A failed chapter call leaves no section and the summary as it was;
      the loop goes on with the next chapter. */
  lemma FailedChapterIsSkipped(show: Json -> string, outline: seq<Json>, replies: seq<Option<string>>,
                               digests: seq<Option<string>>, i: nat)
    requires Oracles(outline, replies, digests) && i < |outline|
    requires Run(show, outline, replies, digests, i).crashedAt.None?
    requires KeyPointsReadable(outline[i]) && replies[i].None?
    ensures Run(show, outline, replies, digests, i + 1) == Run(show, outline, replies, digests, i)
  {
  }

  /** A chapter `{"title": "A", "key_points": ["p1"]}` answered with
      "body text", whose summary call answers "sum", gives one section and
      the summary "sum". */
  lemma OneChapterScenario(show: Json -> string)
    ensures var chapter := JObject([("title", JString("A")), ("key_points", JArray([JString("p1")]))]);
            var p := Run(show, [chapter], [Some("body text")], [Some("sum")], 1);
            p.sections == ["## " + show(chapter) + "\n\nbody text"] &&
            Finish(show, [chapter], [Some("body text")], [Some("sum")]) == Done("sum")
  {
    var chapter := JObject([("title", JString("A")), ("key_points", JArray([JString("p1")]))]);
    assert "key_points" != "title";
    assert Lookup(chapter.fields, "key_points") == Some(JArray([JString("p1")]));
    assert Lookup(chapter.fields, "title") == Some(JString("A"));
    assert KeyPointsReadable(chapter);
    assert Section(show, chapter, "body text") == "## " + show(chapter) + "\n\nbody text";
  }

  /** When chapter 0's call fails, chapter 1's summary request is still a
      merge with the opening sentence, because the index passed is the
      position in the outline, not the number of chapters written. */
  lemma FirstChapterFailsScenario(show: Json -> string, a: Json, b: Json, text: string, digest0: Option<string>, digest1: Option<string>)
    requires KeyPointsReadable(a) && KeyPointsReadable(b) && HasKey(b.fields, "title")
    ensures var p := Run(show, [a, b], [None, Some(text)], [digest0, digest1], 2);
            p.requests == [(1, Merge(Opening, text))] && |p.sections| == 1
  {
    var p0 := Run(show, [a, b], [None, Some(text)], [digest0, digest1], 0);
    var p1 := Run(show, [a, b], [None, Some(text)], [digest0, digest1], 1);
    assert p1 == p0;
    var title := Lookup(b.fields, "title").value;
    assert SummaryRequest(p1.summary, title, text, 1) == Merge(Opening, text);
  }
}
