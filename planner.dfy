/** The planner helpers: assembling the chat messages for the planning model
    and cutting the JSON object out of its reply. */
module Planner {
  import opened Wrappers
  import opened Text
  import opened JsonValue

  /** A `{"role": ..., "content": ...}` chat message. */
  datatype ChatMessage = ChatMessage(role: string, content: string)

  const JsonInstructions: string :=
    "Respond ONLY as JSON with keys:\n"
    + "status (clarify|propose_script|revise_script|ready_to_run),\n"
    + "questions (list of strings),\n"
    + "script (string),\n"
    + "patch (string unified diff),\n"
    + "notes (string),\n"
    + "sources (list of strings).\n"

  /** `build_messages`: three system messages, the history in order, then the user message. */
  method BuildMessages(systemCtx: string, skillCtx: string, docsCtx: string,
                       history: seq<ChatMessage>, userMsg: string)
    returns (msgs: seq<ChatMessage>)
    ensures |msgs| == 3 + |history| + 1
    ensures msgs[0] == ChatMessage("system", systemCtx + "\n" + JsonInstructions)
    ensures msgs[1] == ChatMessage("system", "SKILL CONTEXT:\n" + skillCtx)
    ensures msgs[2] == ChatMessage("system", "DOCS CONTEXT:\n" + docsCtx)
    ensures msgs[3..3 + |history|] == history
    ensures msgs[|msgs| - 1] == ChatMessage("user", userMsg)
  {
    msgs := [
      ChatMessage("system", systemCtx + "\n" + JsonInstructions),
      ChatMessage("system", "SKILL CONTEXT:\n" + skillCtx),
      ChatMessage("system", "DOCS CONTEXT:\n" + docsCtx)
    ];
    msgs := msgs + history;
    msgs := msgs + [ChatMessage("user", userMsg)];
  }

  /** `parse_model_json` fails with ValueError before parsing, or the parser rejects the span. */
  datatype ParseError = NoJsonObject | InvalidJson(payload: string)

  /** `text[text.find('{') : text.rfind('}') + 1]`, failing when either brace
      is missing. The span is empty when the last '}' comes before the first '{'. */
  function ExtractSpan(text: string): (r: Result<string, ParseError>)
    ensures r.Err? <==> '{' !in text || '}' !in text
    ensures r.Err? ==> r.error == NoJsonObject
    ensures r.Ok? && r.value != [] ==>
      && r.value[0] == '{' && Last(r.value) == '}'
      && (exists i :: 0 <= i <= |text| - |r.value| && OccursAt(text, r.value, i)
           && '{' !in text[..i] && '}' !in text[i + |r.value|..])
    ensures r.Ok? && r.value == [] ==>
      FindChar(text, '{').value > RFindChar(text, '}').value
  {
    var start := FindChar(text, '{');
    var end := RFindChar(text, '}');
    if start.None? || end.None? then Err(NoJsonObject)
    else if start.value <= end.value then
      var span := text[start.value..end.value + 1];
      assert OccursAt(text, span, start.value);
      assert text[start.value + |span|..] == text[end.value + 1..];
      Ok(span)
    else Ok("")
  }

  /** `parse_model_json`, with `json.loads` given as a partial function. */
  function ParseModelJson(text: string, loads: string -> Option<Json>): (r: Result<Json, ParseError>)
    ensures r.Err? <==> ExtractSpan(text).Err? || loads(ExtractSpan(text).value).None?
    ensures r.Ok? ==> Some(r.value) == loads(ExtractSpan(text).value)
  {
    match ExtractSpan(text)
    case Err(e) => Err(e)
    case Ok(payload) =>
      match loads(payload)
      case None => Err(InvalidJson(payload))
      case Some(v) => Ok(v)
  }

  /** Text that already runs from '{' to '}' is its own span. */
  lemma ExtractSpanOfBraced(text: string)
    requires text != [] && text[0] == '{' && Last(text) == '}'
    ensures ExtractSpan(text) == Ok(text)
  {
    FindCharAt(text, '{', 0);
    RFindCharAt(text, '}', |text| - 1);
    assert text[0..|text|] == text;
  }

  /** Extracting again gives the same span back; an empty span has no braces
      left, so a second extraction fails. */
  lemma ExtractSpanIdempotent(text: string)
    requires ExtractSpan(text).Ok?
    ensures ExtractSpan(text).value != [] ==> ExtractSpan(ExtractSpan(text).value) == ExtractSpan(text)
    ensures ExtractSpan(text).value == [] ==> ExtractSpan(ExtractSpan(text).value).Err?
  {
    var span := ExtractSpan(text).value;
    if span != [] {
      ExtractSpanOfBraced(span);
    }
  }

  /** Prose with no braces around an object is cut away. */
  lemma ExtractSpanCutsProse(before: string, obj: string, after: string)
    requires obj != [] && obj[0] == '{' && Last(obj) == '}'
    requires '{' !in before && '}' !in after
    ensures ExtractSpan(before + obj + after) == Ok(obj)
  {
    var t := before + obj + after;
    assert t[..|before|] == before;
    assert t[|before| + |obj|..] == after;
    FindCharAt(t, '{', |before|);
    RFindCharAt(t, '}', |before| + |obj| - 1);
    assert t[|before|..|before| + |obj|] == obj;
  }

  /** When every '}' precedes the first '{' the span is empty, and `json.loads("")`
      rejects it, so parsing fails. */
  lemma BackwardBracesFail(text: string, loads: string -> Option<Json>)
    requires '{' in text && '}' in text
    requires RFindChar(text, '}').value < FindChar(text, '{').value
    requires loads("").None?
    ensures ExtractSpan(text) == Ok("")
    ensures ParseModelJson(text, loads).Err?
  {
  }
}
