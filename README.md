# agent-challenge: the deterministic logic around the chat-completion calls

Two small command-line programs call a remote chat-completion endpoint.
`challenges/01_extraction.py` extracts a user's intent: it strips a Markdown
code fence from the reply, parses it as JSON, and returns an error record
instead of raising. `challenges/02_workflow.py` is `LongArticleAgent`. Step 1
turns the planning reply into an outline of chapters and tries several JSON
shapes in a fixed order. Step 2 writes the chapters one by one and carries a
running summary from chapter to chapter. `save_result` writes the topic
heading followed by the sections.

Every remote call is an oracle input:
- the planner gets the parsed value, or None when the call or `json.loads` raised;
- the writer gets one outcome per chapter call and one per summary call
  (`Option<string>`, None when the call raised);
- the extractor gets the call's outcome (`ApiReply`) and a function that
  stands for `json.loads`.

Modules:
- `Wrappers`: Option and Result.
- `JsonValues`: parsed JSON. An object is an ordered sequence of key/value
  pairs, because `dict.items()` iterates in insertion order and that order
  decides which key wins in step 1.
- `Extraction`: Python `str.replace` as left-to-right, non-overlapping
  deletion. Also the fence stripping and the error record.
- `OutlinePlanner`: the outline normalisation, stated as functions.
- `ContextWriter`: one step of the writer loop, and the run over the first k
  chapters. The run records sections, the running summary, the summary
  requests sent and where the loop raised. Lemmas state what the run
  amounts to.
- `ArticleArtifact`: the text `save_result` writes.
- `Workflow`: the class `LongArticleAgent`, with its `outline` and
  `articles` fields updated in place. Step 1 scans the object's keys in a
  loop with `break`. Step 2 loops over the chapters. `SaveResult` renders
  the saved text. Each method is proved equal to the functions above.

Where the code's own comments and the code disagree, the model follows the
code:
- The comments at challenges/02_workflow.py:192 and 219 describe a
  truncation fallback for a failed summary call. Both fallbacks (lines 193,
  220-221) call `self.truncate_context`, and the class defines no such method.
  A failed summary call therefore raises `AttributeError`. The handler at
  line 163 catches it. The summary keeps its previous value, and the section
  already appended stays.

Two more places where the model follows the code as written:
- Line 154 renders the whole chapter value in the section heading.
- The merge request for chapters after the first (lines 196-208) does not
  include the chapter title. Only the first chapter's digest request does.

## Model

| member | source | states |
|---|---|---|
| JsonValues.Lookup | challenges/02_workflow.py:90 | definition of `d[key]`: the value under the first pair carrying the key; LookupFinds states what it finds |
| JsonValues.HasKey | challenges/02_workflow.py:99 | definition of `key in d`: Lookup finds the key; LookupFinds states when |
| JsonValues.LookupFinds | challenges/02_workflow.py:90-91 | `key in d` holds exactly when some pair carries the key, and `d[key]` is the value paired with its first occurrence |
| Extraction.StartsWith | challenges/01_extraction.py:87 | definition of `s.startswith(p)`: `p` is a prefix of `s` |
| Extraction.RemoveAll | challenges/01_extraction.py:88 | definition of `s.replace(p, "")` as a left-to-right, non-overlapping scan; RemoveClean, RemoveFirstOccurrence, RemoveAbsent, RemoveShortens and NoFenceLeft state what it keeps and deletes |
| Extraction.StripFence | challenges/01_extraction.py:87-88 | a reply not opening with "```" reaches the parser unchanged; one that does comes out with no "```" left in it; stripping never lengthens the text |
| Extraction.StripKeepsPayload | challenges/01_extraction.py:87-88 | a payload without backticks comes out exactly from "```json" + payload + "```", and from "```" + payload + "```" unless it starts with "json" |
| Extraction.JsonFencedPayload | challenges/01_extraction.py:87-88 | "```json" + payload + "```" strips to the payload when it holds no backtick |
| Extraction.PlainFencedPayload | challenges/01_extraction.py:87-88 | "```" + payload + "```" strips to the payload when it holds no backtick and does not start with "json" |
| Extraction.RemoveClean | challenges/01_extraction.py:88 | `str.replace(p, "")` keeps every character before the first position where an occurrence of `p` starts |
| Extraction.RemoveFirstOccurrence | challenges/01_extraction.py:88 | `str.replace(p, "")` keeps the text before the first occurrence, deletes that occurrence and resumes right after it |
| Extraction.NoFenceLeft | challenges/01_extraction.py:88 | after deleting every "```" left to right no "```" remains, and a string not opening with "```" keeps no more leading backticks than it had |
| Extraction.RemoveShortens | challenges/01_extraction.py:88 | `str.replace(p, "")` never makes a string longer |
| Extraction.RemoveAbsent | challenges/01_extraction.py:88 | `str.replace(p, "")` leaves a string without `p` unchanged |
| Extraction.StripIdempotent | challenges/01_extraction.py:87-88 | stripping a stripped reply changes nothing |
| Extraction.FencedExample | challenges/01_extraction.py:87-88 | "```json\n{}\n```" becomes "\n{}\n": "```json" goes first, then the closing "```" |
| Extraction.ErrorRecord | challenges/01_extraction.py:91-92 | the error record has exactly the keys `error` and `raw_content`, in that order, holding the message and the raw content |
| Extraction.ExtractUserIntent | challenges/01_extraction.py:85-92 | a failed call gives the error record with `raw_content` ""; a reply with no content gives the AttributeError record with `raw_content` null; otherwise the parse of the stripped reply, or the parse error's record carrying the stripped reply |
| OutlinePlanner.TitleOnly | challenges/02_workflow.py:103 | a bare title becomes a dict with exactly `title` (the item itself) and `key_points` (an empty list) |
| OutlinePlanner.Candidate | challenges/02_workflow.py:98-104 | definition of what the key scan makes of one value; CandidateShapes states when it stops and what it takes |
| OutlinePlanner.ScanFields | challenges/02_workflow.py:97-104 | definition of the key scan in `data.items()` order; ScanFirstMatch states that it takes the first usable value |
| OutlinePlanner.OutlineShape | challenges/02_workflow.py:90-104 | definition of whether lines 90-104 raise, assign or leave the outline; OutlineFieldWins, TopLevelList, ScannedObjectPlans and UnmatchedObjectFails state each case |
| OutlinePlanner.OutlineAfter | challenges/02_workflow.py:90-104 | definition of `self.outline` after lines 90-104: the assigned outline, otherwise the prior one |
| OutlinePlanner.Plan | challenges/02_workflow.py:90-113 | planning succeeds only with a non-empty outline; a failed call or parse fails; any value that is neither an object nor a list fails |
| OutlinePlanner.OutlineFieldWins | challenges/02_workflow.py:90-91 | an object whose "outline" holds a list plans to exactly that list, whatever its other keys; an empty one fails |
| OutlinePlanner.TopLevelList | challenges/02_workflow.py:90-94 | a top-level list containing the string "outline" fails (TypeError at line 90), as does an empty one; otherwise the outline has the same length, strings wrapped as titles, other items unchanged |
| OutlinePlanner.ScanFirstMatch | challenges/02_workflow.py:97-104 | the key scan finds nothing exactly when no value is usable, and otherwise takes the first usable key's outline, skipping every key before it |
| OutlinePlanner.CandidateShapes | challenges/02_workflow.py:98-104 | the scan stops at a value exactly when it is a non-empty list opening with a dict holding "title" or with a string (an untitled dict, number, bool, null or list first is passed over); the dict-first list is taken verbatim, the string-first one has every element wrapped as a title |
| OutlinePlanner.ScannedObjectPlans | challenges/02_workflow.py:95-106 | an object with no list under "outline" plans to exactly the scan's outline when the scan finds one, and that outline is non-empty |
| OutlinePlanner.ScanNonEmpty | challenges/02_workflow.py:98-104 | the key scan only ever assigns a non-empty outline |
| OutlinePlanner.WrapStrings | challenges/02_workflow.py:94 | the top-level list keeps its length; each string becomes `{"title": s, "key_points": []}` and every other element stays as it is |
| OutlinePlanner.WrapAll | challenges/02_workflow.py:103 | the list keeps its length and every element becomes `{"title": e, "key_points": []}` |
| OutlinePlanner.UnmatchedObjectFails | challenges/02_workflow.py:95-106 | an object with no list under "outline" and no usable value fails planning on a fresh agent |
| OutlinePlanner.UnmatchedObjectKeepsPrior | challenges/02_workflow.py:95-106 | an object with no list under "outline" and no usable value leaves the prior outline, so planning goes on with it if it is non-empty and fails otherwise |
| OutlinePlanner.EmptyOutlinesFail | challenges/02_workflow.py:105-106 | `{"outline": []}` and `[]` fail planning |
| ContextWriter.Section | challenges/02_workflow.py:154 | definition of the appended section; SectionShape states its layout |
| ContextWriter.KeyPointsReadable | challenges/02_workflow.py:128 | definition of the chapters that get past line 128: a dict holding "key_points" with a list, string or dict under it; CrashPoint states that the loop stops at the first other one |
| ContextWriter.Run | challenges/02_workflow.py:117-164 | definition of the loop's state after k chapters as a fold of Step; SectionsAreSuccesses, SummaryIsLastRefresh, RequestsFollowPositions, CrashPoint and NoLookAhead state what it amounts to |
| ContextWriter.Finish | challenges/02_workflow.py:117-164 | definition of how the loop ends; FinishOutcomes states when each ending happens |
| ContextWriter.SectionShape | challenges/02_workflow.py:154 | a section opens with "## " and the rendered chapter, and ends with a blank line and the chapter text verbatim |
| ContextWriter.FinishOutcomes | challenges/02_workflow.py:117-164 | the loop has nothing to do exactly for an empty outline, crashes exactly when some chapter's key points cannot be read (at the first such chapter), and otherwise ends with the run's final summary |
| ContextWriter.SummaryRequest | challenges/02_workflow.py:166-208 | index 0 builds a digest of title and new text without the current summary; every later index builds a merge that carries the current summary; both carry the new text |
| ContextWriter.UpdateContextSummary | challenges/02_workflow.py:183-223 | the new summary is exactly the reply text when the call succeeds; a failed call ends in the AttributeError for `truncate_context` |
| ContextWriter.SentRequest | challenges/02_workflow.py:154-160 | a summary request is sent exactly when the chapter call succeeded and the chapter has a title |
| ContextWriter.NextSummary | challenges/02_workflow.py:158-164 | the summary after a chapter is either the one before or the summary call's reply |
| ContextWriter.Step | challenges/02_workflow.py:124-164 | unreadable key points end the loop at that chapter; a failed chapter call changes nothing; a successful one appends exactly its section; the summary only changes to the summary call's reply |
| ContextWriter.SuccessesSnoc | challenges/02_workflow.py:153-154 | one more chapter adds its section after the earlier ones exactly when its call succeeded |
| ContextWriter.SuccessesBound | challenges/02_workflow.py:153-154 | there are never more sections than chapters, and one per chapter when every call succeeds |
| ContextWriter.CrashPoint | challenges/02_workflow.py:128 | the loop stops exactly at the first chapter whose key points cannot be read, and the state is what it was when that chapter raised |
| ContextWriter.CrashIsFinal | challenges/02_workflow.py:128 | once a chapter has raised, later chapters change nothing |
| ContextWriter.CrashEndsRun | challenges/02_workflow.py:124-128 | a chapter with unreadable key points ends the run there, keeping the sections already written |
| ContextWriter.SectionsAreSuccesses | challenges/02_workflow.py:124-164 | the sections are exactly one per successful chapter call among the chapters reached, in outline order, so there are at most as many as chapters |
| ContextWriter.SummaryIsLastRefresh | challenges/02_workflow.py:121-164 | the running summary is the reply to the last successful summary call, or "文章开始。" if none succeeded |
| ContextWriter.RequestsFollowPositions | challenges/02_workflow.py:124-160 | each summary request belongs to a chapter whose call succeeded and that has a title, and carries that chapter's text; a digest goes exactly with chapter 0 and carries its title, and otherwise a merge carries the summary as it stood before that chapter |
| ContextWriter.RequestsRecorded | challenges/02_workflow.py:147-160 | every chapter reached whose call succeeded and that has a title has its summary request recorded at its position |
| ContextWriter.NoLookAhead | challenges/02_workflow.py:124-164 | the state after k chapters depends only on the first k chapters and their call outcomes |
| ContextWriter.FailedChapterIsSkipped | challenges/02_workflow.py:147-164 | a failed chapter call leaves the sections and the summary as they were, and the loop goes on |
| ContextWriter.OneChapterScenario | challenges/02_workflow.py:121-164 | one chapter answered "body text" with summary reply "sum" yields one section `## <chapter>\n\nbody text` and final summary "sum" |
| ContextWriter.FirstChapterFailsScenario | challenges/02_workflow.py:158-160 | when chapter 0 fails, chapter 1 sends a merge with the opening sentence, not a digest |
| ArticleArtifact.Artifact | challenges/02_workflow.py:225-233 | nothing is written exactly when there are no sections |
| ArticleArtifact.Join | challenges/02_workflow.py:233 | definition of `sep.join(parts)`; JoinLength, JoinPart and JoinSeparator pin down the joined text |
| ArticleArtifact.Heading | challenges/02_workflow.py:232 | the file opens with "# ", the topic verbatim, and a blank line |
| ArticleArtifact.JoinLength | challenges/02_workflow.py:233 | the joined sections are the sections plus one separator between each two |
| ArticleArtifact.JoinPart | challenges/02_workflow.py:233 | each section appears verbatim at its offset in the joined text |
| ArticleArtifact.JoinSeparator | challenges/02_workflow.py:233 | a blank-line separator stands right before every section but the first |
| ArticleArtifact.JoinSnoc | challenges/02_workflow.py:233 | one more section adds exactly a separator and that section |
| ArticleArtifact.ArtifactSection | challenges/02_workflow.py:232-233 | section i sits verbatim right after the topic heading, at its offset |
| ArticleArtifact.ArtifactSeparator | challenges/02_workflow.py:232-233 | a blank-line separator stands right before every section but the first in the saved text |
| ArticleArtifact.ArtifactShape | challenges/02_workflow.py:232-233 | the text opens with "# " + topic + "\n\n" and is exactly as long as that heading, the sections and one separator between each two |
| Workflow.LongArticleAgent.constructor | challenges/02_workflow.py:29-32 | a new agent has its topic and an empty outline and article list |
| Workflow.LongArticleAgent.GenerateOutline | challenges/02_workflow.py:80-113 | the outline is left as lines 90-104 leave it; the step goes on exactly when planning succeeds, with that outline, and otherwise exits with status 1 |
| Workflow.LongArticleAgent.GenerateContentLoop | challenges/02_workflow.py:115-164 | the articles gain exactly the run's sections, and the loop ends as the run says: nothing to do for an empty outline, done with the final summary, or crashed at a chapter |
| Workflow.LongArticleAgent.SaveResult | challenges/02_workflow.py:225-233 | the saved text is the artifact of the topic and the current sections, opening with the topic heading |

## Left out

- The chat-completion calls (challenges/02_workflow.py:68-77, 148-153, 184-190, 211-217; challenges/01_extraction.py:75-85) are remote I/O. The model takes their outcomes as inputs. Prompt wording, temperature and `max_tokens` are not modelled.
- `json.loads` is a library parser. The planner takes the parsed value (None on failure). The extractor takes a function from text to a parsed value or an error message.
- The injection defence and the `SECURITY_ALERT` record exist only as instructions to the remote model, and no code enforces them. The intent record's fields and sentiment labels are not modelled for the same reason.
- `truncate_context` is not part of this model, because the class does not define it. Its truncation bounds (100, 150, 200) are never reached.
- Python's `str()` of a chapter in the section heading is the parameter `show`, an uninterpreted rendering.
- A chat reply whose content is `None` is modelled for the extractor only. In the writer, a `None` chapter text would render as "None" and a `None` summary would become the running summary. Each writer call is modelled as text or failure.
- JSON numbers are reals: the int/float distinction and float rounding are not modelled. Duplicate object keys, which `json.loads` collapses, are not modelled; lookup takes the first occurrence.
- Environment-variable configuration, the startup `sys.exit`, console printing (including the raw content printed on a planning failure), the file write in `save_result` and the `__main__` harnesses are not modelled. A chapter that raises outside the `try` is reported as `Crashed(i)`. In the program that exception ends the run before `save_result`.
- The running summary is a local variable of step 2. The model reports it in `LoopEnd.Done` so that its final value can be stated.
