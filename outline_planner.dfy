/** The normalisation half of `LongArticleAgent.step1_generate_outline`
    (challenges/02_workflow.py, lines 90-106): how the parsed reply becomes
    the outline, stated as functions. The loop that the code runs over
    `data.items()` is the method `Workflow.LongArticleAgent.GenerateOutline`. */
module OutlinePlanner {
  import opened Wrappers
  import opened JsonValues

  /** The chapter made from a bare title: `{"title": t, "key_points": []}`. */
  function TitleOnly(title: Json): (c: Json)
    ensures c.JObject? && Keys(c.fields) == ["title", "key_points"]
    ensures Lookup(c.fields, "title") == Some(title)
    ensures Lookup(c.fields, "key_points") == Some(JArray([]))
  {
    JObject([("title", title), ("key_points", JArray([]))])
  }

  /** Line 103: every element of the list becomes a title, whatever its type. */
  function WrapAll(items: seq<Json>): (r: seq<Json>)
    ensures |r| == |items| && forall i :: 0 <= i < |items| ==> r[i] == TitleOnly(items[i])
  {
    seq(|items|, i requires 0 <= i < |items| => TitleOnly(items[i]))
  }

  /** Line 94: strings become titles, every other element passes through. */
  function WrapStrings(items: seq<Json>): (r: seq<Json>)
    ensures |r| == |items|
    ensures forall i :: 0 <= i < |items| ==> r[i] == (if items[i].JString? then TitleOnly(items[i]) else items[i])
  {
    seq(|items|, i requires 0 <= i < |items| => if items[i].JString? then TitleOnly(items[i]) else items[i])
  }

  /** What the key scan of lines 97-104 makes of one value, if it stops there:
      a non-empty list that opens with a dict holding "title" is taken as it
      is, one that opens with a string has every element wrapped. */
  function Candidate(value: Json): Option<seq<Json>>
  {
    if value.JArray? && |value.items| > 0 then
      var first := value.items[0];
      if first.JObject? && HasKey(first.fields, "title") then Some(value.items)
      else if first.JString? then Some(WrapAll(value.items))
      else None
    else None
  }

  /** The outline the key scan assigns: that of the first key that has a
      candidate, or none. */
  function ScanFields(fields: seq<(string, Json)>): Option<seq<Json>>
    decreases |fields|
  {
    if fields == [] then None
    else if Candidate(fields[0].1).Some? then Candidate(fields[0].1)
    else ScanFields(fields[1..])
  }

  /** What lines 90-104 do to `self.outline`: raise, assign, or leave it. */
  datatype Shape = Raises | Assigns(outline: seq<Json>) | Unmatched

  /** Line 90 on a list tests membership and then indexes the list with a
      string, which raises; on a string, number, bool or null the `in` test,
      the indexing or `data.items()` raises. */
  function OutlineShape(data: Json): Shape
  {
    match data
    case JObject(fields) =>
      if Lookup(fields, "outline").Some? && Lookup(fields, "outline").value.JArray? then
        Assigns(Lookup(fields, "outline").value.items)
      else if ScanFields(fields).Some? then Assigns(ScanFields(fields).value)
      else Unmatched
    case JArray(items) =>
      if JString("outline") in items then Raises else Assigns(WrapStrings(items))
    case _ => Raises
  }

  /** `self.outline` after lines 90-104, whether or not planning then fails. */
  function OutlineAfter(prior: seq<Json>, data: Json): seq<Json>
  {
    match OutlineShape(data)
    case Assigns(outline) => outline
    case _ => prior
  }

  /** Planning succeeds with the outline it leaves, or fails (and the process
      exits with status 1): `parsed` is None when the call or `json.loads`
      raised. */
  function Plan(prior: seq<Json>, parsed: Option<Json>): (r: Option<seq<Json>>)
    ensures r.Some? ==> r.value != []
    ensures parsed.None? ==> r.None?
    ensures parsed.Some? && !parsed.value.JObject? && !parsed.value.JArray? ==> r.None?
  {
    match parsed
    case None => None
    case Some(data) =>
      if OutlineShape(data).Raises? || OutlineAfter(prior, data) == [] then None
      else Some(OutlineAfter(prior, data))
  }

  /** Planning on a freshly built agent, whose outline starts empty. */
  function Normalize(data: Json): Option<seq<Json>>
  {
    Plan([], Some(data))
  }

  /** An object whose "outline" holds a list: that list, verbatim, whatever
      else the object holds; an empty one fails planning. */
  lemma OutlineFieldWins(fields: seq<(string, Json)>, items: seq<Json>, prior: seq<Json>)
    requires Lookup(fields, "outline") == Some(JArray(items))
    ensures Plan(prior, Some(JObject(fields))) == if items == [] then None else Some(items)
  {
  }

  /** A top-level list gives an outline of the same length, each string
      wrapped as a title and every other element unchanged, unless it
      holds the string "outline" (then line 90 raises) or is empty. */
  lemma TopLevelList(items: seq<Json>, prior: seq<Json>)
    ensures JString("outline") in items || items == [] ==> Plan(prior, Some(JArray(items))).None?
    ensures JString("outline") !in items && items != [] ==>
              var r := Plan(prior, Some(JArray(items)));
              r.Some? && |r.value| == |items| &&
              forall i :: 0 <= i < |items| ==>
                r.value[i] == (if items[i].JString? then TitleOnly(items[i]) else items[i])
  {
  }

  /** The key scan stops at the first key whose value is a usable list:
      everything before it was skipped, and what it assigns comes from that
      value alone. */
  lemma {:induction false} ScanFirstMatch(fields: seq<(string, Json)>)
    ensures ScanFields(fields).None? <==> forall i :: 0 <= i < |fields| ==> Candidate(fields[i].1).None?
    ensures ScanFields(fields).Some? ==>
              exists i :: 0 <= i < |fields| && ScanFields(fields) == Candidate(fields[i].1) &&
                          forall j :: 0 <= j < i ==> Candidate(fields[j].1).None?
    decreases |fields|
  {
    if fields != [] {
      ScanFirstMatch(fields[1..]);
      assert forall i :: 0 < i < |fields| ==> fields[i] == fields[1..][i - 1];
      if Candidate(fields[0].1).None? && ScanFields(fields).Some? {
        var k :| 0 <= k < |fields[1..]| && ScanFields(fields[1..]) == Candidate(fields[1..][k].1) &&
                 forall j :: 0 <= j < k ==> Candidate(fields[1..][j].1).None?;
        assert ScanFields(fields) == Candidate(fields[k + 1].1);
      }
    }
  }

  /** The scan stops at a value exactly when it is a non-empty list opening
      with a dict that holds "title" or with a string; a list opening with
      an untitled dict, a number, a bool, null or a list is passed over. A
      usable list opening with a titled dict is the outline verbatim; one
      opening with a string has each element wrapped as a title. */
  lemma CandidateShapes(value: Json)
    ensures Candidate(value).Some? <==>
              value.JArray? && value.items != [] &&
              (value.items[0].JString? || (value.items[0].JObject? && HasKey(value.items[0].fields, "title")))
    ensures Candidate(value).Some? && value.items[0].JObject? ==> Candidate(value) == Some(value.items)
    ensures Candidate(value).Some? && !value.items[0].JObject? ==>
              value.items[0].JString? &&
              |Candidate(value).value| == |value.items| &&
              forall i :: 0 <= i < |value.items| ==> Candidate(value).value[i] == TitleOnly(value.items[i])
  {
  }

  /** An object with no list under "outline" plans to what the key scan
      finds: the first usable value's outline. */
  lemma ScannedObjectPlans(fields: seq<(string, Json)>, prior: seq<Json>, o: seq<Json>)
    requires !(Lookup(fields, "outline").Some? && Lookup(fields, "outline").value.JArray?)
    requires ScanFields(fields) == Some(o)
    ensures o != [] && Plan(prior, Some(JObject(fields))) == Some(o)
  {
    ScanNonEmpty(fields);
  }

  /** Whatever the key scan finds is a non-empty outline. */
  lemma {:induction false} ScanNonEmpty(fields: seq<(string, Json)>)
    ensures ScanFields(fields).Some? ==> ScanFields(fields).value != []
    decreases |fields|
  {
    if fields != [] && Candidate(fields[0].1).None? {
      ScanNonEmpty(fields[1..]);
    }
  }

  /** Planning fails when the object holds neither a list under "outline"
      nor any usable list, as the outline stays empty. */
  lemma UnmatchedObjectFails(fields: seq<(string, Json)>)
    requires !(Lookup(fields, "outline").Some? && Lookup(fields, "outline").value.JArray?)
    requires forall i :: 0 <= i < |fields| ==> Candidate(fields[i].1).None?
    ensures Normalize(JObject(fields)).None?
  {
    ScanFirstMatch(fields);
    assert ScanFields(fields).None?;
    assert OutlineShape(JObject(fields)) == Unmatched;
    assert OutlineAfter([], JObject(fields)) == [];
  }

  /** On an agent that already has an outline, an object with neither a
      list under "outline" nor any usable list leaves that outline in place,
      and planning goes on with it. */
  lemma UnmatchedObjectKeepsPrior(fields: seq<(string, Json)>, prior: seq<Json>)
    requires !(Lookup(fields, "outline").Some? && Lookup(fields, "outline").value.JArray?)
    requires forall i :: 0 <= i < |fields| ==> Candidate(fields[i].1).None?
    ensures Plan(prior, Some(JObject(fields))) == if prior == [] then None else Some(prior)
  {
    ScanFirstMatch(fields);
  }

  /** Examples of failed planning: `{"outline": []}` and `[]`. */
  lemma EmptyOutlinesFail()
    ensures Normalize(JObject([("outline", JArray([]))])).None?
    ensures Normalize(JArray([])).None?
  {
  }
}
