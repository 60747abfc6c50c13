/** The request and reply handling of `OpenAIClient`. The network calls
    (`conversations.create`, `conversations.delete`, `responses.create`) are
    not modelled: their results are given to these members as values. */
module OpenAIClient {
  import opened Wrappers
  import opened Text

  /** One `{"role": ..., "content": ...}` element of the request input. */
  datatype InputItem = InputItem(role: string, content: string)

  /** The keyword arguments of one `responses.create` call; at most one of
      the two continuation fields is present. */
  datatype Params = Params(
    model: string,
    input: seq<InputItem>,
    conversation: Option<string>,
    previousResponseId: Option<string>)

  /** The ValueError raised when both or neither continuation is given. */
  datatype ClientError = AmbiguousContinuation

  /** What the API returned: the response id, and the text at
      `output[0].content[0].text` when that path exists. */
  datatype Reply = Reply(id: string, text: Option<string>)

  /** Python truthiness of an optional list. */
  function PromptList(systemPrompts: Option<seq<string>>): seq<string> {
    systemPrompts.GetOr([])
  }

  /** The input list: one system entry per prompt in the given order, then the user entry. */
  method BuildInput(userInput: string, systemPrompts: Option<seq<string>>) returns (input: seq<InputItem>)
    ensures |input| == |PromptList(systemPrompts)| + 1
    ensures forall i :: 0 <= i < |input| - 1 ==> input[i] == InputItem("system", PromptList(systemPrompts)[i])
    ensures input[|input| - 1] == InputItem("user", userInput)
  {
    input := [];
    if systemPrompts.Some? && systemPrompts.value != [] {
      var prompts := systemPrompts.value;
      var k := 0;
      while k < |prompts|
        invariant 0 <= k <= |prompts|
        invariant |input| == k
        invariant forall i :: 0 <= i < k ==> input[i] == InputItem("system", prompts[i])
      {
        input := input + [InputItem("system", prompts[k])];
        k := k + 1;
      }
    }
    input := input + [InputItem("user", userInput)];
  }

  /** The request parameters: `conversation` exactly when only a conversation
      id is truthy, `previous_response_id` exactly when only a previous
      response id is; otherwise ValueError. */
  method BuildParams(model: string, conversationId: Option<string>, userInput: string,
                     systemPrompts: Option<seq<string>>, previousResponseId: Option<string>)
    returns (r: Result<Params, ClientError>)
    ensures r.Ok? <==> Truthy(conversationId) != Truthy(previousResponseId)
    ensures r.Ok? ==> r.value.model == model
    ensures r.Ok? ==> (r.value.conversation.Some? <==> Truthy(conversationId))
    ensures r.Ok? ==> (r.value.previousResponseId.Some? <==> Truthy(previousResponseId))
    ensures r.Ok? ==> !(r.value.conversation.Some? && r.value.previousResponseId.Some?)
    ensures r.Ok? && r.value.conversation.Some? ==> r.value.conversation == conversationId
    ensures r.Ok? && r.value.previousResponseId.Some? ==> r.value.previousResponseId == previousResponseId
    ensures r.Ok? ==> |r.value.input| == |PromptList(systemPrompts)| + 1
    ensures r.Ok? ==> forall i :: 0 <= i < |r.value.input| - 1 ==>
      r.value.input[i] == InputItem("system", PromptList(systemPrompts)[i])
    ensures r.Ok? ==> r.value.input[|r.value.input| - 1] == InputItem("user", userInput)
  {
    var input := BuildInput(userInput, systemPrompts);
    var params := Params(model, input, None, None);
    if Truthy(conversationId) && !Truthy(previousResponseId) {
      params := params.(conversation := conversationId);
    } else if Truthy(previousResponseId) && !Truthy(conversationId) {
      params := params.(previousResponseId := previousResponseId);
    } else {
      return Err(AmbiguousContinuation);
    }
    return Ok(params);
  }

  /** The assistant text of a reply, "(no response)" when it cannot be extracted. */
  function ReplyText(reply: Reply): (text: string)
    ensures reply.text.Some? ==> text == reply.text.value
    ensures reply.text.None? ==> text == "(no response)"
  {
    reply.text.GetOr("(no response)")
  }

  /** The characters `ask_router` strips from both ends of the reply text. */
  predicate RouterJunk(c: char) {
    c == '`' || c == '\n' || c == 'j' || c == 's' || c == 'o' || c == 'n'
  }

  /** `text.strip("`\njson")`, or "[]" when the reply text cannot be extracted. */
  function RouterText(extracted: Option<string>): (r: string)
    ensures extracted.None? ==> r == "[]"
    ensures extracted.Some? ==> r == [] || (!RouterJunk(r[0]) && !RouterJunk(r[|r| - 1]))
    ensures extracted.Some? ==>
      TrimmedAt(extracted.value, r, |extracted.value| - |LStrip(extracted.value, RouterJunk)|, RouterJunk)
  {
    match extracted
    case None => "[]"
    case Some(s) => StripBy(s, RouterJunk)
  }

  /** A reply already free of junk at both ends comes through untouched. */
  lemma RouterTextKeepsClean(s: string)
    requires s == [] || (!RouterJunk(s[0]) && !RouterJunk(s[|s| - 1]))
    ensures RouterText(Some(s)) == s
  {
  }

  /** Stripping is idempotent. */
  lemma RouterTextIdempotent(s: string)
    ensures RouterText(Some(RouterText(Some(s)))) == RouterText(Some(s))
  {
    RouterTextKeepsClean(RouterText(Some(s)));
  }

  /** A fenced reply loses its fences: "```json\n[...]\n```" becomes "[...]". */
  lemma RouterTextUnfences()
    ensures RouterText(Some("```json\n[\"sql\"]\n```")) == "[\"sql\"]"
  {
    var s := "```json\n[\"sql\"]\n```";
    StripByUnique(s, "[\"sql\"]", 8, RouterJunk);
  }
}
