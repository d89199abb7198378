/** `LongArticleAgent` of challenges/02_workflow.py: an object whose outline
    and articles the steps update in place. Remote calls are oracle inputs,
    as in the modules it builds on. */
module Workflow {
  import opened Wrappers
  import opened JsonValues
  import opened OutlinePlanner
  import opened ContextWriter
  import opened ArticleArtifact

  /** How planning ends: the run goes on, or `sys.exit(code)` ends it. */
  datatype PlanStatus = Planned | Exit(code: int)

  class LongArticleAgent {
    const topic: string
    var outline: seq<Json>
    var articles: seq<string>

    constructor (topic: string)
      ensures this.topic == topic && outline == [] && articles == []
    {
      this.topic := topic;
      outline := [];
      articles := [];
    }

    /** Step 1 after the call: `parsed` is the value `json.loads` returned,
        or None when the call or the parse raised. The key scan runs over
        the object's items in order and stops at the first usable list. */
    method GenerateOutline(parsed: Option<Json>) returns (status: PlanStatus)
      modifies this`outline
      ensures parsed.Some? ==> outline == OutlineAfter(old(outline), parsed.value)
      ensures parsed.None? ==> outline == old(outline)
      ensures status == Planned <==> Plan(old(outline), parsed).Some?
      ensures status == Planned ==> outline == Plan(old(outline), parsed).value
      ensures status != Planned ==> status == Exit(1)
    {
      if parsed.None? {
        return Exit(1);
      }
      var data := parsed.value;
      match data {
        case JObject(fields) =>
          var named := Lookup(fields, "outline");
          if named.Some? && named.value.JArray? {
            outline := named.value.items;
          } else {
            var i := 0;
            while i < |fields|
              invariant 0 <= i <= |fields|
              invariant ScanFields(fields[i..]) == ScanFields(fields)
              invariant outline == old(outline)
            {
              var value := fields[i].1;
              assert fields[i..][1..] == fields[i + 1..];
              if value.JArray? && |value.items| > 0 {
                var first := value.items[0];
                if first.JObject? && HasKey(first.fields, "title") {
                  outline := value.items;
                  break;
                } else if first.JString? {
                  outline := WrapAll(value.items);
                  break;
                }
              }
              i := i + 1;
            }
          }
        case JArray(items) =>
          if JString("outline") in items {
            // `data["outline"]` on a list raises TypeError
            return Exit(1);
          }
          outline := WrapStrings(items);
        case _ =>
          return Exit(1);
      }
      if outline == [] {
        return Exit(1);
      }
      return Planned;
    }

    /** Step 2: one chapter call per chapter, in outline order, each
        successful one appending its section and refreshing the running
        summary. `replies[i]` and `digests[i]` are the outcomes of the
        chapter call and of the summary call for chapter i; `show` renders a
        chapter for the section heading. */
    method GenerateContentLoop(show: Json -> string, replies: seq<Option<string>>, digests: seq<Option<string>>)
      returns (end: LoopEnd)
      requires Oracles(outline, replies, digests)
      modifies this`articles
      ensures end == Finish(show, outline, replies, digests)
      ensures articles == old(articles) + Run(show, outline, replies, digests, |outline|).sections
    {
      var chapters := outline;
      if chapters == [] {
        return NothingToDo;
      }
      var summary := Opening;
      ghost var state := Run(show, chapters, replies, digests, 0);
      var i := 0;
      while i < |chapters|
        invariant 0 <= i <= |chapters|
        invariant state == Run(show, chapters, replies, digests, i)
        invariant state.crashedAt.None? && state.summary == summary
        invariant articles == old(articles) + state.sections
      {
        var chapter := chapters[i];
        ghost var after := Step(state, show, chapter, i, replies[i], digests[i]);
        if !KeyPointsReadable(chapter) {
          // `chapter['key_points']` raises outside the `try`
          CrashEndsRun(show, chapters, replies, digests, i);
          return Crashed(i);
        }
        var reply := replies[i];
        if reply.Some? {
          var content := reply.value;
          articles := articles + [Section(show, chapter, content)];
          var title := Lookup(chapter.fields, "title");
          if title.Some? {
            var next := UpdateContextSummary(digests[i]);
            if next.Ok? {
              summary := next.value;
            }
          }
        }
        assert after.sections == state.sections + (if reply.Some? then [Section(show, chapter, reply.value)] else []);
        assert after.summary == summary;
        state := after;
        i := i + 1;
      }
      return Done(summary);
    }

    /** The text `save_result` writes, or None when nothing was written. */
    method SaveResult() returns (text: Option<string>)
      ensures text == Artifact(topic, articles)
      ensures text.Some? ==> Heading(topic) <= text.value
    {
      if articles == [] {
        return None;
      }
      text := Some(Heading(topic) + Join(articles, Separator));
    }
  }
}
