/** `Orchestrator`: the command loop, the conversation commands it forwards to
    the store, and one chat turn (route, send, record). The OpenAI client,
    the routing model and the clock are not modelled: their answers come in
    as a `Backend` of functions and a `ScriptLine` per input line. Console
    output is kept as a log of `Notice`s. */
module Orchestration {
  import opened Wrappers
  import opened Text
  import opened JsonValue
  import opened StateStore
  import opened OpenAIClient
  import opened SkillsRouter

  // ---------------------------------------------------------------------------
  // Reading one input line
  // ---------------------------------------------------------------------------

  datatype Command =
    | Skip | Exit | Help | List | Status | Clear | History
    | New(title: string) | Switch(id: string) | Title(newTitle: string) | Delete(id: string)
    | Query(text: string)

  predicate IsKeyword(line: string) {
    Lower(line) in {"exit", "quit", "help", "list", "status", "clear", "history"}
  }

  /** "exit" or "quit" in any ASCII case, with surrounding whitespace. */
  predicate IsExitLine(raw: string) {
    Lower(Strip(raw)) in {"exit", "quit"}
  }

  predicate HasVerbPrefix(line: string) {
    StartsWith(line, "new ") || StartsWith(line, "switch ") || StartsWith(line, "title ") || StartsWith(line, "delete ")
  }

  /** The command of an input line: the checks of `start` on the stripped line. */
  function Classify(raw: string): Command {
    ClassifyLine(Strip(raw))
  }

  /** The checks of `start` in their order. The four verbs are case-sensitive
      prefixes whose argument is everything after the first space; the
      keywords ignore ASCII case and must match the whole line. */
  function ClassifyLine(line: string): (c: Command)
    ensures c == Skip <==> line == ""
    ensures c.New? ==> line == "new " + c.title
    ensures c.Switch? ==> line == "switch " + c.id
    ensures c.Title? ==> line == "title " + c.newTitle
    ensures c.Delete? ==> line == "delete " + c.id
    ensures c.Query? ==> c.text == line
  {
    if line == "" then Skip
    else if Lower(line) in {"exit", "quit"} then Exit
    else if Lower(line) == "help" then Help
    else if Lower(line) == "list" then List
    else if Lower(line) == "status" then Status
    else if StartsWith(line, "new ") then New(line[4..])
    else if StartsWith(line, "switch ") then Switch(line[7..])
    else if StartsWith(line, "title ") then Title(line[6..])
    else if StartsWith(line, "delete ") then Delete(line[7..])
    else if Lower(line) == "clear" then Clear
    else if Lower(line) == "history" then History
    else Query(line)
  }

  /** A line with a verb prefix is no keyword, and the four prefixes exclude each other. */
  lemma VerbsAreNotKeywords(line: string)
    ensures HasVerbPrefix(line) ==> !IsKeyword(line)
    ensures StartsWith(line, "new ") ==> !StartsWith(line, "switch ") && !StartsWith(line, "title ") && !StartsWith(line, "delete ")
    ensures StartsWith(line, "switch ") ==> !StartsWith(line, "title ") && !StartsWith(line, "delete ")
    ensures StartsWith(line, "title ") ==> !StartsWith(line, "delete ")
  {
    if HasVerbPrefix(line) {
      var l := Lower(line);
      assert l[0] == LowerChar(line[0]);
      assert l[1] == LowerChar(line[1]);
      assert |l| >= 4;
    }
  }

  /** Each keyword is chosen exactly when the stripped line lower-cases to it. */
  lemma ClassifyKeywords(line: string)
    ensures var c := ClassifyLine(line);
      && (c == Exit <==> line != "" && Lower(line) in {"exit", "quit"})
      && (c == Help <==> line != "" && Lower(line) == "help")
      && (c == List <==> line != "" && Lower(line) == "list")
      && (c == Status <==> line != "" && Lower(line) == "status")
      && (c == Clear <==> line != "" && Lower(line) == "clear")
      && (c == History <==> line != "" && Lower(line) == "history")
  {
    VerbsAreNotKeywords(line);
  }

  /** Each verb is chosen exactly when the stripped line starts with it and a space. */
  lemma ClassifyVerbs(line: string)
    ensures var c := ClassifyLine(line);
      && (c.New? <==> StartsWith(line, "new "))
      && (c.Switch? <==> StartsWith(line, "switch "))
      && (c.Title? <==> StartsWith(line, "title "))
      && (c.Delete? <==> StartsWith(line, "delete "))
  {
    VerbsAreNotKeywords(line);
  }

  /** Everything else is a question for the model. */
  lemma ClassifyQueries(line: string)
    ensures ClassifyLine(line).Query? <==> line != "" && !IsKeyword(line) && !HasVerbPrefix(line)
  {
    VerbsAreNotKeywords(line);
  }

  /** A verb with an argument that ends in a visible character reads back as that command. */
  lemma ClassifyVerb(verb: string, arg: string)
    requires verb in {"new", "switch", "title", "delete"}
    requires arg != [] && !IsSpace(Last(arg))
    ensures var c := Classify(verb + " " + arg);
      && (verb == "new" ==> c == New(arg))
      && (verb == "switch" ==> c == Switch(arg))
      && (verb == "title" ==> c == Title(arg))
      && (verb == "delete" ==> c == Delete(arg))
  {
    var line := verb + " " + arg;
    assert !IsSpace(line[0]);
    assert Last(line) == Last(arg);
    StripOfStripped(line);
    assert StartsWith(line, verb + " ");
    ClassifyVerbs(line);
    var c := ClassifyLine(line);
    var head := verb + " ";
    assert line == head + arg;
    if c.New? { assert line[|head|..] == c.title == arg; }
    if c.Switch? { assert line[|head|..] == c.id == arg; }
    if c.Title? { assert line[|head|..] == c.newTitle == arg; }
    if c.Delete? { assert line[|head|..] == c.id == arg; }
  }

  /** Any ASCII casing of a keyword, with surrounding blanks, selects it. */
  lemma ClassifyKeywordAnyCase(raw: string)
    requires Lower(Strip(raw)) == "quit"
    ensures Classify(raw) == Exit
  {
    ClassifyKeywords(Strip(raw));
  }

  /** Free text that is no command passes through unchanged. */
  lemma ClassifyQuery(q: string)
    requires q != [] && !IsSpace(q[0]) && !IsSpace(Last(q))
    requires !IsKeyword(q) && !HasVerbPrefix(q)
    ensures Classify(q) == Query(q)
  {
    StripOfStripped(q);
    ClassifyQueries(q);
  }

  // ---------------------------------------------------------------------------
  // The conversation listing
  // ---------------------------------------------------------------------------

  /** The "LastResp" column: ids longer than 15 characters are cut to 12 plus "...". */
  function ShortResponseId(s: string): (r: string)
    ensures |r| <= 15
    ensures |s| <= 15 ==> r == s
    ensures |s| > 15 ==> |r| == 15 && r[..12] == s[..12] && EndsWith(r, "...")
  {
    if |s| > 15 then
      var r := s[..12] + "...";
      assert r[12..] == "...";
      r
    else s
  }

  /** Shortening is idempotent. */
  lemma ShortResponseIdIdempotent(s: string)
    ensures ShortResponseId(ShortResponseId(s)) == ShortResponseId(s)
  {
  }

  /** One row of `list`. */
  datatype Row = Row(active: bool, title: string, messageCount: nat, lastResponse: string)

  /** The row of conversation `id`: the title falls back to "Untitled" when empty. */
  function RowOf(id: string, conv: Conversation, current: Option<string>): (row: Row)
    ensures row.active <==> current == Some(id)
    ensures row.title == if conv.title == "" then "Untitled" else conv.title
    ensures row.messageCount == |conv.messages|
    ensures row.lastResponse == ShortResponseId(conv.lastResponseId.GetOr(""))
  {
    Row(current == Some(id), if conv.title == "" then "Untitled" else conv.title,
        |conv.messages|, ShortResponseId(conv.lastResponseId.GetOr("")))
  }

  /** The table of `list`; None stands for the "No conversations yet" notice. */
  function Listing(convs: map<string, Conversation>, current: Option<string>): (rows: Option<map<string, Row>>)
    ensures rows.None? <==> convs == map[]
    ensures rows.Some? ==> rows.value.Keys == convs.Keys
    ensures rows.Some? ==> forall id :: id in convs ==> rows.value[id] == RowOf(id, convs[id], current)
  {
    if convs == map[] then None
    else Some(map id | id in convs :: RowOf(id, convs[id], current))
  }

  // ---------------------------------------------------------------------------
  // The orchestrator
  // ---------------------------------------------------------------------------

  /** What the console shows. */
  datatype Notice =
    | Started | Exiting | Goodbye | HelpTable
    | NoConversations | Table(rows: map<string, Row>)
    | Created(id: string, title: string)
    | Switched(id: string) | NoSuchConversation(id: string)
    | Renamed(id: string, title: string) | NoActive
    | Deleted(id: string) | DeleteFailed(id: string)
    | Cleared(id: string)
    | HistoryTable(limit: int, messages: seq<Message>)
    | ActiveConversation(id: string, title: string)
    | NoSkillsMatched
    | Answer(text: string)

  /** The services behind the client and router, as functions of their input. */
  datatype Backend = Backend(
    model: string,
    dumps: seq<Summary> -> string,          // json.dumps(summaries, indent=2)
    routerReply: string -> Option<string>,  // the text of the router model's reply, None when absent
    loads: string -> Option<Json>,          // json.loads, None when it raises
    respond: Params -> Reply)               // client.responses.create(**params)

  /** One input line and what the outside world answers while it is handled. */
  datatype ScriptLine = ScriptLine(
    line: string,
    createdId: string,                      // client.create_conversation()
    remoteDeleteOk: bool,                   // client.delete_conversation(id)
    createdAt: Timestamp, userAt: Timestamp, assistantAt: Timestamp)

  /** A turn either sent a request and recorded the answer, or the client raised ValueError. */
  datatype TurnOutcome =
    | Sent(chosen: seq<string>, params: Params, answer: string, responseId: string)
    | Crashed

  /** How the loop ended. */
  datatype Ending = ExitCommand | EndOfInput | TurnCrashed

  /** `client.ask_router`: the router model's reply with its fences stripped. */
  function AskRouter(backend: Backend): string -> string {
    prompt => RouterText(backend.routerReply(prompt))
  }

  /** The conversation a turn writes to: the current one, or the newly created one. */
  function TurnTarget(current: Option<string>, createdId: string): string {
    if Truthy(current) then current.value else createdId
  }

  /** That conversation's record before the turn's messages are added. */
  function TargetBefore(convs: map<string, Conversation>, current: Option<string>, createdId: string, createdAt: Timestamp): Conversation {
    var id := TurnTarget(current, createdId);
    if id in convs then convs[id] else Conversation(id, "Untitled", createdAt, [], None)
  }

  /** The system prompts of the chosen skills, in the chosen order. */
  function PromptsOf(reg: Registry, chosen: seq<string>): (prompts: seq<string>)
    requires forall k :: 0 <= k < |chosen| ==> IsKey(reg, chosen[k])
    ensures |prompts| == |chosen|
    ensures forall k :: 0 <= k < |chosen| ==> Lookup(reg, chosen[k]) == Some(Skill(Lookup(reg, chosen[k]).value.description, Lookup(reg, chosen[k]).value.intents, prompts[k]))
  {
    seq(|chosen|, k requires 0 <= k < |chosen| => Lookup(reg, chosen[k]).value.systemPrompt)
  }

  class Orchestrator {
    const store: StateManager
    const skills: Registry
    const backend: Backend
    var shown: seq<Notice>

    ghost predicate Valid()
      reads this, store
    {
      store.Valid()
    }

    constructor (store: StateManager, skills: Registry, backend: Backend)
      requires store.Valid()
      ensures Valid()
      ensures this.store == store && this.skills == skills && this.backend == backend && shown == []
    {
      this.store := store;
      this.skills := skills;
      this.backend := backend;
      shown := [];
    }

    /** `list_conversations`: the table, or a notice when there are none. */
    method ListConversations()
      requires Valid()
      modifies this
      ensures Valid()
      ensures Listing(store.conversations, store.current).None? ==> shown == old(shown) + [NoConversations]
      ensures Listing(store.conversations, store.current).Some? ==>
        shown == old(shown) + [Table(Listing(store.conversations, store.current).value)]
    {
      match Listing(store.conversations, store.current)
      case None => shown := shown + [NoConversations];
      case Some(rows) => shown := shown + [Table(rows)];
    }

    /** `new_conversation`: the client creates an id, which is added and made current. */
    method NewConversation(title: string, createdId: string, now: Timestamp)
      requires Valid()
      modifies this, store
      ensures Valid()
      ensures store.current == Some(createdId)
      ensures createdId in old(store.conversations) ==> store.conversations == old(store.conversations)
      ensures createdId !in old(store.conversations) ==>
        store.conversations == old(store.conversations)[createdId := Conversation(createdId, title, now, [], None)]
      ensures shown == old(shown) + [Created(createdId, title)]
    {
      store.AddConversation(createdId, title, now);
      store.SetCurrentConversation(createdId);
      shown := shown + [Created(createdId, title)];
    }

    /** `switch_conversation` */
    method SwitchConversation(id: string)
      requires Valid()
      modifies this, store
      ensures Valid()
      ensures store.conversations == old(store.conversations)
      ensures id in old(store.conversations) ==> store.current == Some(id) && shown == old(shown) + [Switched(id)]
      ensures id !in old(store.conversations) ==> store.current == old(store.current) && shown == old(shown) + [NoSuchConversation(id)]
    {
      var found := store.SwitchConversation(id);
      if found {
        shown := shown + [Switched(id)];
      } else {
        shown := shown + [NoSuchConversation(id)];
      }
    }

    /** `rename_conversation`: renames the current conversation, if there is one. */
    method RenameConversation(newTitle: string)
      requires Valid()
      modifies this, store
      ensures Valid()
      ensures store.current == old(store.current)
      ensures !Truthy(old(store.current)) ==>
        store.conversations == old(store.conversations) && shown == old(shown) + [NoActive]
      ensures Truthy(old(store.current)) ==>
        var id := old(store.current).value;
        && store.conversations == old(store.conversations)[id := old(store.conversations)[id].(title := newTitle)]
        && shown == old(shown) + [Renamed(id, newTitle)]
    {
      var current := store.GetCurrentConversation();
      if Truthy(current) {
        store.RenameConversation(current.value, newTitle);
        shown := shown + [Renamed(current.value, newTitle)];
      } else {
        shown := shown + [NoActive];
      }
    }

    /** `delete_conversation`: the local record goes only after the remote delete succeeded. */
    method DeleteConversation(id: string, remoteOk: bool)
      requires Valid()
      modifies this, store
      ensures Valid()
      ensures !remoteOk ==> unchanged(store) && shown == old(shown) + [DeleteFailed(id)]
      ensures remoteOk ==>
        && store.conversations == old(store.conversations) - {id}
        && store.current == (if old(store.current) == Some(id) then None else old(store.current))
        && shown == old(shown) + [Deleted(id)]
    {
      if remoteOk {
        store.DeleteConversation(id);
        shown := shown + [Deleted(id)];
      } else {
        shown := shown + [DeleteFailed(id)];
      }
    }

    /** `history`: the last `limit` messages of the current conversation. */
    method History(limit: int)
      requires Valid()
      modifies this
      ensures Valid()
      ensures !Truthy(store.current) ==> shown == old(shown) + [NoActive]
      ensures Truthy(store.current) ==>
        shown == old(shown) + [HistoryTable(limit, HistorySuffix(store.conversations[store.current.value].messages, limit))]
    {
      var current := store.GetCurrentConversation();
      if Truthy(current) {
        var h := store.GetHistory(current.value, limit);
        shown := shown + [HistoryTable(limit, h.value)];
      } else {
        shown := shown + [NoActive];
      }
    }

    /** `clear_conversation`: empties the current conversation, if there is one. */
    method ClearConversation()
      requires Valid()
      modifies this, store
      ensures Valid()
      ensures store.current == old(store.current)
      ensures !Truthy(old(store.current)) ==>
        store.conversations == old(store.conversations) && shown == old(shown) + [NoActive]
      ensures Truthy(old(store.current)) ==>
        var id := old(store.current).value;
        && store.conversations == old(store.conversations)[id := old(store.conversations)[id].(messages := [], lastResponseId := None)]
        && shown == old(shown) + [Cleared(id)]
    {
      var current := store.GetCurrentConversation();
      if Truthy(current) {
        store.ClearConversation(current.value);
        shown := shown + [Cleared(current.value)];
      } else {
        shown := shown + [NoActive];
      }
    }

    /** `show_status`: the current conversation and its title. */
    method ShowStatus()
      requires Valid()
      modifies this
      ensures Valid()
      ensures !Truthy(store.current) ==> shown == old(shown) + [NoActive]
      ensures Truthy(store.current) ==>
        shown == old(shown) + [ActiveConversation(store.current.value, store.conversations[store.current.value].title)]
    {
      var current := store.GetCurrentConversation();
      if !Truthy(current) {
        shown := shown + [NoActive];
        return;
      }
      var title := store.ListConversations()[current.value].title;
      shown := shown + [ActiveConversation(current.value, title)];
    }

    /** Steps 1 and 2 of a turn: the router picks skills and their system prompts are collected. */
    method Route(userInput: string) returns (chosen: seq<string>, prompts: Option<seq<string>>)
      modifies this
      ensures forall k :: 0 <= k < |chosen| ==> IsKey(skills, chosen[k])
      ensures chosen == [] ==> prompts.None? && shown == old(shown) + [NoSkillsMatched]
      ensures chosen != [] ==> prompts == Some(PromptsOf(skills, chosen)) && shown == old(shown)
    {
      chosen := SelectSkills(skills, userInput, backend.dumps, AskRouter(backend), backend.loads);
      if chosen == [] {
        shown := shown + [NoSkillsMatched];
        prompts := None;
      } else {
        prompts := Some(PromptsOf(skills, chosen));
      }
    }

    /** Step 3: without a current conversation, the client creates one, which is stored as "Untitled" and made current. */
    method EnsureConversation(w: ScriptLine) returns (convId: string)
      requires Valid()
      modifies store
      ensures Valid()
      ensures convId == TurnTarget(old(store.current), w.createdId)
      ensures store.current == Some(convId)
      ensures convId in store.conversations
      ensures store.conversations == old(store.conversations)[convId := TargetBefore(old(store.conversations), old(store.current), w.createdId, w.createdAt)]
    {
      var current := store.GetCurrentConversation();
      if Truthy(current) {
        convId := current.value;
      } else {
        convId := w.createdId;
        store.AddConversation(convId, "Untitled", w.createdAt);
        store.SetCurrentConversation(convId);
      }
    }

    /** `handle_user_input`: route, make sure a conversation exists, send with
        exactly one continuation, and record the user and assistant messages. */
    method HandleUserInput(userInput: string, w: ScriptLine) returns (outcome: TurnOutcome)
      requires Valid()
      modifies this, store
      ensures Valid()
      ensures outcome.Crashed? <==> TurnTarget(old(store.current), w.createdId) == "" && !Truthy(TargetBefore(old(store.conversations), old(store.current), w.createdId, w.createdAt).lastResponseId)
      ensures store.current == Some(TurnTarget(old(store.current), w.createdId))
      ensures outcome.Crashed? ==>
        store.conversations == old(store.conversations)[TurnTarget(old(store.current), w.createdId) :=
          TargetBefore(old(store.conversations), old(store.current), w.createdId, w.createdAt)]
      ensures outcome.Sent? ==>
        var id := TurnTarget(old(store.current), w.createdId);
        var before := TargetBefore(old(store.conversations), old(store.current), w.createdId, w.createdAt);
        var rid := if outcome.responseId != "" then Some(outcome.responseId) else None;
        && (forall k :: 0 <= k < |outcome.chosen| ==> IsKey(skills, outcome.chosen[k]))
        && outcome.params.model == backend.model
        && (outcome.params.conversation.Some? <==> !Truthy(before.lastResponseId))
        && (outcome.params.conversation.Some? ==> outcome.params.conversation == Some(id))
        && (outcome.params.previousResponseId.Some? <==> Truthy(before.lastResponseId))
        && (outcome.params.previousResponseId.Some? ==> outcome.params.previousResponseId == before.lastResponseId)
        && |outcome.params.input| == |outcome.chosen| + 1
        && (forall i :: 0 <= i < |outcome.chosen| ==>
              outcome.params.input[i] == InputItem("system", PromptsOf(skills, outcome.chosen)[i]))
        && Last(outcome.params.input) == InputItem("user", userInput)
        && outcome.answer == ReplyText(backend.respond(outcome.params))
        && outcome.responseId == backend.respond(outcome.params).id
        && shown != [] && Last(shown) == Answer(outcome.answer)
        && store.conversations.Keys == old(store.conversations).Keys + {id}
        && (forall other :: other in store.conversations && other != id ==> store.conversations[other] == old(store.conversations)[other])
        && store.conversations[id] == before.(
             messages := before.messages + [Message("user", userInput, w.userAt, None),
                                            Message("assistant", outcome.answer, w.assistantAt, rid)],
             lastResponseId := if outcome.responseId != "" then rid else before.lastResponseId)
    {
      var chosen, prompts := Route(userInput);
      var convId := EnsureConversation(w);
      // continue from the last response when there is one
      var prev := store.ListConversations()[convId].lastResponseId;
      // send; BuildParams raises when neither continuation is usable
      var sent := BuildParams(backend.model, if Truthy(prev) then None else Some(convId), userInput, prompts,
                              if Truthy(prev) then prev else None);
      if sent.Err? {
        return Crashed;
      }
      var params := sent.value;
      var reply := backend.respond(params);
      var answer := ReplyText(reply);
      // record both messages
      var recorded := store.UpdateConversation(convId, reply.id, userInput, answer, w.userAt, w.assistantAt);
      shown := shown + [Answer(answer)];
      return Sent(chosen, params, answer, reply.id);
    }

    /** `list`: the store is untouched and the table or its notice is shown. */
    twostate predicate ListEffect()
      reads this, store
    {
      && unchanged(store)
      && shown == old(shown) + [if store.conversations == map[] then NoConversations
                                else Table(Listing(store.conversations, store.current).value)]
    }

    /** `status`: the store is untouched and the current conversation or the notice is shown. */
    twostate predicate StatusEffect()
      reads this, store
    {
      && unchanged(store)
      && (!Truthy(store.current) ==> shown == old(shown) + [NoActive])
      && (Truthy(store.current) ==>
            && store.current.value in store.conversations
            && shown == old(shown) + [ActiveConversation(store.current.value, store.conversations[store.current.value].title)])
    }

    /** `history`: the store is untouched and the last 10 messages or the notice are shown. */
    twostate predicate HistoryEffect()
      reads this, store
    {
      && unchanged(store)
      && (!Truthy(store.current) ==> shown == old(shown) + [NoActive])
      && (Truthy(store.current) ==>
            && store.current.value in store.conversations
            && shown == old(shown) + [HistoryTable(10, HistorySuffix(store.conversations[store.current.value].messages, 10))])
    }

    /** `new <title>`: the created id is stored and becomes current. */
    twostate predicate NewEffect(title: string, turn: ScriptLine)
      reads this, store
    {
      && store.current == Some(turn.createdId)
      && (turn.createdId in old(store.conversations) ==> store.conversations == old(store.conversations))
      && (turn.createdId !in old(store.conversations) ==>
            store.conversations == old(store.conversations)[turn.createdId := Conversation(turn.createdId, title, turn.createdAt, [], None)])
      && shown == old(shown) + [Created(turn.createdId, title)]
    }

    /** `switch <id>`: only a stored id becomes current. */
    twostate predicate SwitchEffect(id: string)
      reads this, store
    {
      && store.conversations == old(store.conversations)
      && (id in old(store.conversations) ==> store.current == Some(id) && shown == old(shown) + [Switched(id)])
      && (id !in old(store.conversations) ==> store.current == old(store.current) && shown == old(shown) + [NoSuchConversation(id)])
    }

    /** `title <t>`: only the current record's title changes. */
    twostate predicate TitleEffect(newTitle: string)
      reads this, store
    {
      && store.current == old(store.current)
      && (!Truthy(old(store.current)) ==> store.conversations == old(store.conversations) && shown == old(shown) + [NoActive])
      && (Truthy(old(store.current)) ==>
            var id := old(store.current).value;
            && id in old(store.conversations)
            && store.conversations == old(store.conversations)[id := old(store.conversations)[id].(title := newTitle)]
            && shown == old(shown) + [Renamed(id, newTitle)])
    }

    /** `delete <id>`: the local record goes only after the remote delete succeeded. */
    twostate predicate DeleteEffect(id: string, remoteOk: bool)
      reads this, store
    {
      && (!remoteOk ==> unchanged(store) && shown == old(shown) + [DeleteFailed(id)])
      && (remoteOk ==>
            && store.conversations == old(store.conversations) - {id}
            && store.current == (if old(store.current) == Some(id) then None else old(store.current))
            && shown == old(shown) + [Deleted(id)])
    }

    /** `clear`: only the current record is emptied. */
    twostate predicate ClearEffect()
      reads this, store
    {
      && store.current == old(store.current)
      && (!Truthy(old(store.current)) ==> store.conversations == old(store.conversations) && shown == old(shown) + [NoActive])
      && (Truthy(old(store.current)) ==>
            var id := old(store.current).value;
            && id in old(store.conversations)
            && store.conversations == old(store.conversations)[id := old(store.conversations)[id].(messages := [], lastResponseId := None)]
            && shown == old(shown) + [Cleared(id)])
    }

    /** Any other line: the turn of `handle_user_input` on it. */
    twostate predicate QueryEffect(text: string, turn: ScriptLine, new outcome: TurnOutcome)
      reads this, store
    {
      var id := TurnTarget(old(store.current), turn.createdId);
      var before := TargetBefore(old(store.conversations), old(store.current), turn.createdId, turn.createdAt);
      && store.current == Some(id)
      && (outcome.Crashed? <==> id == "" && !Truthy(before.lastResponseId))
      && (outcome.Crashed? ==> store.conversations == old(store.conversations)[id := before])
      && (outcome.Sent? ==>
            var rid := if outcome.responseId != "" then Some(outcome.responseId) else None;
            && outcome.answer == ReplyText(backend.respond(outcome.params))
            && |outcome.params.input| == |outcome.chosen| + 1
            && Last(outcome.params.input) == InputItem("user", text)
            && shown != [] && Last(shown) == Answer(outcome.answer)
            && store.conversations.Keys == old(store.conversations).Keys + {id}
            && (forall other :: other in store.conversations && other != id ==> store.conversations[other] == old(store.conversations)[other])
            && store.conversations[id] == before.(
                 messages := before.messages + [Message("user", text, turn.userAt, None),
                                                Message("assistant", outcome.answer, turn.assistantAt, rid)],
                 lastResponseId := if outcome.responseId != "" then rid else before.lastResponseId))
    }

    /** What one command does to the store and the console: the effect of its
        handler in `start`. `outcome` is the turn of a query and None otherwise. */
    twostate predicate Handled(command: Command, turn: ScriptLine, new outcome: Option<TurnOutcome>)
      reads this, store
    {
      && (outcome.Some? <==> command.Query?)
      && match command
         case Skip => unchanged(store) && shown == old(shown)
         case Exit => unchanged(store) && shown == old(shown) + [Exiting]
         case Help => unchanged(store) && shown == old(shown) + [HelpTable]
         case List => ListEffect()
         case Status => StatusEffect()
         case History => HistoryEffect()
         case New(title) => NewEffect(title, turn)
         case Switch(id) => SwitchEffect(id)
         case Title(newTitle) => TitleEffect(newTitle)
         case Delete(id) => DeleteEffect(id, turn.remoteDeleteOk)
         case Clear => ClearEffect()
         case Query(text) => outcome.Some? && QueryEffect(text, turn, outcome.value)
    }

    /** One command other than exit, run by its handler; a query returns its turn. */
    method Dispatch(command: Command, turn: ScriptLine) returns (outcome: Option<TurnOutcome>)
      requires Valid()
      requires command != Exit
      modifies this, store
      ensures Valid()
      ensures Handled(command, turn, outcome)
    {
      outcome := None;
      match command {
        case Skip =>
        case Help => shown := shown + [HelpTable];
        case List => ListConversations();
        case Status => ShowStatus();
        case New(title) => NewConversation(title, turn.createdId, turn.createdAt);
        case Switch(id) => SwitchConversation(id);
        case Title(newTitle) => RenameConversation(newTitle);
        case Delete(id) => DeleteConversation(id, turn.remoteDeleteOk);
        case Clear => ClearConversation();
        case History => History(10);
        case Query(text) =>
          var turnOutcome := HandleUserInput(text, turn);
          outcome := Some(turnOutcome);
      }
    }

    /** One pass of the loop body: exit, or run the line's command. A line that
        is blank after stripping does nothing; any other non-command line goes
        unchanged to `handle_user_input`. */
    method Step(turn: ScriptLine) returns (stop: Option<Ending>, outcome: Option<TurnOutcome>)
      requires Valid()
      modifies this, store
      ensures Valid()
      ensures Handled(Classify(turn.line), turn, outcome)
      ensures stop == Some(ExitCommand) <==> IsExitLine(turn.line)
      ensures stop == Some(ExitCommand) ==> shown == old(shown) + [Exiting]
      ensures stop == Some(TurnCrashed) <==> outcome == Some(Crashed)
      ensures stop == Some(TurnCrashed) ==> Classify(turn.line).Query?
      ensures stop != Some(EndOfInput)
      ensures Strip(turn.line) == "" ==> stop.None? && unchanged(store) && shown == old(shown)
    {
      ClassifyKeywords(Strip(turn.line));
      if IsExitLine(turn.line) {
        shown := shown + [Exiting];
        return Some(ExitCommand), None;
      }
      var command := Classify(turn.line);
      outcome := Dispatch(command, turn);
      if outcome == Some(Crashed) {
        return Some(TurnCrashed), outcome;
      }
      return None, outcome;
    }

    /** The part of `Step`'s contract that the loop of `Start` relies on. */
    method Pass(turn: ScriptLine) returns (stop: Option<Ending>)
      requires Valid()
      modifies this, store
      ensures Valid()
      ensures stop == Some(ExitCommand) <==> IsExitLine(turn.line)
      ensures stop == Some(ExitCommand) ==> shown == old(shown) + [Exiting]
      ensures stop == Some(TurnCrashed) ==> Classify(turn.line).Query?
      ensures stop != Some(EndOfInput)
    {
      var outcome;
      stop, outcome := Step(turn);
    }

    /** `start`: read lines until "exit"/"quit", the end of input, or a turn that raised. */
    method Start(script: seq<ScriptLine>) returns (ending: Ending, consumed: nat)
      requires Valid()
      modifies this, store
      ensures Valid()
      ensures consumed <= |script|
      ensures forall j :: 0 <= j < consumed - 1 ==> !IsExitLine(script[j].line)
      ensures ending == EndOfInput ==> consumed == |script| && forall j :: 0 <= j < |script| ==> !IsExitLine(script[j].line)
      ensures ending == ExitCommand ==> 0 < consumed && IsExitLine(script[consumed - 1].line) && shown != [] && Last(shown) == Exiting
      ensures ending == TurnCrashed ==> 0 < consumed && Classify(script[consumed - 1].line).Query?
      ensures ending == EndOfInput ==> shown != [] && Last(shown) == Goodbye
    {
      shown := shown + [Started];
      consumed := 0;
      while consumed < |script|
        invariant Valid()
        invariant consumed <= |script|
        invariant forall j :: 0 <= j < consumed ==> !IsExitLine(script[j].line)
      {
        var stop := Pass(script[consumed]);
        consumed := consumed + 1;
        if stop.Some? {
          return stop.value, consumed;
        }
      }
      shown := shown + [Goodbye];
      return EndOfInput, consumed;
    }
  }
}
