/** The text `save_result` writes (challenges/02_workflow.py, lines 225-233):
    a top-level heading with the topic, then the sections separated by blank
    lines. The file itself is not modelled; this is the text it receives. */
module ArticleArtifact {
  import opened Wrappers

  /** The separator between sections (line 233). */
  const Separator: string := "\n\n"

  /** `sep.join(parts)`. */
  function Join(parts: seq<string>, sep: string): string
  {
    if |parts| == 0 then ""
    else if |parts| == 1 then parts[0]
    else Join(parts[..|parts| - 1], sep) + sep + parts[|parts| - 1]
  }

  /** The file's text, or None when there are no sections (lines 226-228). */
  function Artifact(topic: string, articles: seq<string>): (r: Option<string>)
    ensures r.None? <==> articles == []
  {
    if articles == [] then None
    else Some(Heading(topic) + Join(articles, Separator))
  }

  /** Where part i starts in the joined text. */
  function Offset(parts: seq<string>, sep: string, i: nat): nat
    requires i <= |parts|
  {
    if i == 0 then 0 else Offset(parts, sep, i - 1) + |parts[i - 1]| + |sep|
  }

  lemma {:induction false} OffsetPrefix(parts: seq<string>, sep: string, n: nat, i: nat)
    requires i <= n <= |parts|
    ensures Offset(parts[..n], sep, i) == Offset(parts, sep, i)
    decreases i
  {
    if i > 0 {
      OffsetPrefix(parts, sep, n, i - 1);
      assert parts[..n][i - 1] == parts[i - 1];
    }
  }

  /** A slice that ends inside the left operand of a concatenation. */
  lemma SliceLeft(x: string, y: string, a: nat, b: nat)
    requires a <= b <= |x|
    ensures (x + y)[a..b] == x[a..b]
  {
  }

  /** The joined text is the parts plus one separator between each two. */
  lemma {:induction false} JoinLength(parts: seq<string>, sep: string)
    requires parts != []
    ensures |Join(parts, sep)| == Offset(parts, sep, |parts|) - |sep|
    decreases |parts|
  {
    var n := |parts|;
    if n > 1 {
      JoinLength(parts[..n - 1], sep);
      OffsetPrefix(parts, sep, n - 1, n - 1);
    }
  }

  /** Part i sits verbatim at its offset in the joined text. */
  lemma {:induction false} JoinPart(parts: seq<string>, sep: string, i: nat)
    requires i < |parts|
    ensures Offset(parts, sep, i) + |parts[i]| <= |Join(parts, sep)|
    ensures Join(parts, sep)[Offset(parts, sep, i)..Offset(parts, sep, i) + |parts[i]|] == parts[i]
    decreases |parts|
  {
    var n := |parts|;
    JoinLength(parts, sep);
    if n > 1 {
      var init := parts[..n - 1];
      var ji := Join(init, sep);
      JoinLength(init, sep);
      OffsetPrefix(parts, sep, n - 1, n - 1);
      assert Join(parts, sep) == ji + (sep + parts[n - 1]);
      if i < n - 1 {
        JoinPart(init, sep, i);
        OffsetPrefix(parts, sep, n - 1, i);
        assert init[i] == parts[i];
        SliceLeft(ji, sep + parts[n - 1], Offset(parts, sep, i), Offset(parts, sep, i) + |parts[i]|);
      } else {
        assert Join(parts, sep) == (ji + sep) + parts[n - 1];
        assert Offset(parts, sep, i) == |ji + sep|;
        SliceRight(ji + sep, parts[n - 1], 0, |parts[n - 1]|);
      }
    }
  }

  /** A separator stands right before every part but the first. */
  lemma {:induction false} JoinSeparator(parts: seq<string>, sep: string, i: nat)
    requires 0 < i < |parts|
    ensures |sep| <= Offset(parts, sep, i) <= |Join(parts, sep)|
    ensures Join(parts, sep)[Offset(parts, sep, i) - |sep|..Offset(parts, sep, i)] == sep
    decreases |parts|
  {
    var n := |parts|;
    JoinLength(parts, sep);
    var init := parts[..n - 1];
    var ji := Join(init, sep);
    JoinLength(init, sep);
    OffsetPrefix(parts, sep, n - 1, n - 1);
    assert Join(parts, sep) == ji + (sep + parts[n - 1]);
    if i < n - 1 {
      JoinSeparator(init, sep, i);
      OffsetPrefix(parts, sep, n - 1, i);
      SliceLeft(ji, sep + parts[n - 1], Offset(parts, sep, i) - |sep|, Offset(parts, sep, i));
    }
  }

  /** One more section adds exactly a separator and that section. */
  lemma JoinSnoc(parts: seq<string>, sep: string, last: string)
    requires parts != []
    ensures Join(parts + [last], sep) == Join(parts, sep) + sep + last
  {
    assert (parts + [last])[..|parts|] == parts;
  }

  /** A slice that lies inside the right operand of a concatenation. */
  lemma SliceRight(x: string, y: string, a: nat, b: nat)
    requires a <= b <= |y|
    ensures (x + y)[|x| + a..|x| + b] == y[a..b]
  {
  }

  /** The heading line the file opens with. */
  function Heading(topic: string): (h: string)
    ensures |h| == |topic| + 4
    ensures h[..2] == "# " && h[2..|topic| + 2] == topic && h[|topic| + 2..] == Separator
  {
    "# " + topic + "\n\n"
  }

  /** `part` sits verbatim in `text` starting at index `at`. */
  predicate SitsAt(text: string, at: nat, part: string) {
    at + |part| <= |text| && text[at..at + |part|] == part
  }

  /** Section i of the file sits verbatim right after the heading, at its
      offset among the sections. */
  lemma ArtifactSection(topic: string, articles: seq<string>, i: nat)
    requires i < |articles|
    ensures SitsAt(Artifact(topic, articles).value, |topic| + 4 + Offset(articles, Separator, i), articles[i])
  {
    var head := Heading(topic);
    var body := Join(articles, Separator);
    var off := Offset(articles, Separator, i);
    JoinPart(articles, Separator, i);
    assert off + |articles[i]| <= |body| && body[off..off + |articles[i]|] == articles[i];
    var text := Artifact(topic, articles).value;
    assert text == head + body;
    SliceRight(head, body, off, off + |articles[i]|);
  }

  /** A blank-line separator stands right before every section but the
      first. */
  lemma ArtifactSeparator(topic: string, articles: seq<string>, i: nat)
    requires 0 < i < |articles|
    ensures var at := |topic| + 4 + Offset(articles, Separator, i);
            2 <= at <= |Artifact(topic, articles).value| &&
            Artifact(topic, articles).value[at - 2..at] == Separator
  {
    var head := Heading(topic);
    var body := Join(articles, Separator);
    var off := Offset(articles, Separator, i);
    JoinSeparator(articles, Separator, i);
    var text := Artifact(topic, articles).value;
    assert text == head + body;
    SliceRight(head, body, off - 2, off);
  }

  /** The file opens with the heading and is as long as the heading, the
      sections and the separators between them. */
  lemma ArtifactShape(topic: string, articles: seq<string>)
    requires articles != []
    ensures |Artifact(topic, articles).value| == |topic| + 4 + Offset(articles, Separator, |articles|) - 2
    ensures SitsAt(Artifact(topic, articles).value, 0, Heading(topic))
  {
    var head := Heading(topic);
    var body := Join(articles, Separator);
    JoinLength(articles, Separator);
    var text := Artifact(topic, articles).value;
    assert text == head + body;
    assert text[0..|head|] == head;
  }
}
