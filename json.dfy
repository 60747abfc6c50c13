/** The Python values `json.loads` produces. The parser itself is not part of
    this model: callers receive its result as an `Option<Json>`, None standing
    for a raised `JSONDecodeError`. */
module JsonValue {
  import opened Wrappers

  /** An object is the loaded `dict` in insertion order, so its keys are distinct. */
  datatype Json =
    | JNull
    | JBool(b: bool)
    | JNum(n: int)
    | JStr(s: string)
    | JArr(items: seq<Json>)
    | JObj(fields: seq<(string, Json)>)

  /** Whether the value can be looked up in a dict (`x in d`): lists and dicts cannot. */
  predicate Hashable(v: Json) {
    !v.JArr? && !v.JObj?
  }

  /** What `for x in v` yields: list items, one-character strings, dict keys;
      None when `v` is not iterable (iterating raises TypeError). */
  function Elements(v: Json): (r: Option<seq<Json>>)
    ensures r.None? <==> v.JNull? || v.JBool? || v.JNum?
    ensures v.JArr? ==> r == Some(v.items)
    ensures v.JStr? ==>
      r.Some? && |r.value| == |v.s| && forall i :: 0 <= i < |v.s| ==> r.value[i] == JStr([v.s[i]])
    ensures v.JObj? ==>
      r.Some? && |r.value| == |v.fields| && forall i :: 0 <= i < |v.fields| ==> r.value[i] == JStr(v.fields[i].0)
  {
    match v
    case JArr(items) => Some(items)
    case JStr(s) => Some(seq(|s|, i requires 0 <= i < |s| => JStr([s[i]])))
    case JObj(fields) => Some(seq(|fields|, i requires 0 <= i < |fields| => JStr(fields[i].0)))
    case _ => None
  }
}
