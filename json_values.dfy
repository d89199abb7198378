/** The value `json.loads` hands back, as the Python code sees it.
    An object keeps its keys in insertion order, because the code iterates
    `dict.items()` and that order decides which key wins. */
module JsonValues {
  import opened Wrappers

  datatype Json =
    | JNull
    | JBool(b: bool)
    | JNumber(n: real)
    | JString(s: string)
    | JArray(items: seq<Json>)
    | JObject(fields: seq<(string, Json)>)

  /** `d[key]` on a dict: the value stored under the key, if there is one.
      A parsed dict has distinct keys; with repeated keys this picks the first. */
  function Lookup(fields: seq<(string, Json)>, key: string): Option<Json>
  {
    if fields == [] then None
    else if fields[0].0 == key then Some(fields[0].1)
    else Lookup(fields[1..], key)
  }

  /** Lookup finds a key exactly when the dict holds it, and then gives the
      value paired with its first occurrence. */
  lemma {:induction false} LookupFinds(fields: seq<(string, Json)>, key: string)
    ensures Lookup(fields, key).Some? <==> exists i :: 0 <= i < |fields| && fields[i].0 == key
    ensures Lookup(fields, key).Some? ==>
              exists i :: 0 <= i < |fields| && fields[i] == (key, Lookup(fields, key).value) &&
                          forall j :: 0 <= j < i ==> fields[j].0 != key
    decreases |fields|
  {
    if fields != [] && fields[0].0 != key {
      LookupFinds(fields[1..], key);
      assert forall i :: 0 < i < |fields| ==> fields[i] == fields[1..][i - 1];
      if Lookup(fields, key).Some? {
        var k :| 0 <= k < |fields[1..]| && fields[1..][k] == (key, Lookup(fields, key).value) &&
                 forall j :: 0 <= j < k ==> fields[1..][j].0 != key;
        assert fields[k + 1] == (key, Lookup(fields, key).value);
      }
    }
  }

  /** `key in d` on a dict. */
  predicate HasKey(fields: seq<(string, Json)>, key: string) {
    Lookup(fields, key).Some?
  }

  /** The keys of a dict, in iteration order. */
  function Keys(fields: seq<(string, Json)>): (ks: seq<string>)
    ensures |ks| == |fields| && forall i :: 0 <= i < |fields| ==> ks[i] == fields[i].0
  {
    seq(|fields|, i requires 0 <= i < |fields| => fields[i].0)
  }
}
