/** The conversation store (`StateManager`): a map from conversation id to its
    record, a pointer to the current conversation, and the snapshots that
    `_save` writes after every change. */
module StateStore {
  import opened Wrappers
  import opened Text

  /** A reading of `time.time()`, supplied by the caller. */
  type Timestamp = int

  /** One entry of a conversation's `messages` list; `responseId` is present
      only when a non-empty response id was given. */
  datatype Message = Message(role: string, content: string, ts: Timestamp, responseId: Option<string>)

  /** The record `{id, title, created, messages, last_response_id}`. */
  datatype Conversation = Conversation(
    id: string,
    title: string,
    created: Timestamp,
    messages: seq<Message>,
    lastResponseId: Option<string>)

  /** The whole state, as one `_save` writes it. */
  datatype State = State(conversations: map<string, Conversation>, current: Option<string>)

  /** `add_message` on an unknown id raises; `get_history` on one raises KeyError. */
  datatype StoreError = NotFound(id: string)

  /** The store's invariant: the current pointer is null or names a stored conversation. */
  predicate CurrentIsLive(st: State) {
    st.current.Some? ==> st.current.value in st.conversations
  }

  /** Python's `messages[-limit:]`. */
  function HistorySuffix(msgs: seq<Message>, limit: int): (h: seq<Message>)
    ensures |h| <= |msgs| && h == msgs[|msgs| - |h|..]
    ensures limit == 0 ==> h == msgs
    ensures limit > 0 ==> |h| == if limit < |msgs| then limit else |msgs|
    ensures limit < 0 ==> |h| == if |msgs| + limit < 0 then 0 else |msgs| + limit
  {
    var start := -limit;
    var from :=
      if start < 0 then (if |msgs| + start < 0 then 0 else |msgs| + start)
      else if start > |msgs| then |msgs|
      else start;
    msgs[from..]
  }

  class StateManager {
    var conversations: map<string, Conversation>
    var current: Option<string>
    /** Every state written by `_save`, oldest first. */
    var saved: seq<State>

    function Snapshot(): State
      reads this
    {
      State(conversations, current)
    }

    ghost predicate Valid()
      reads this
    {
      CurrentIsLive(Snapshot())
    }

    /** A store opened where no state file exists yet. */
    constructor ()
      ensures Valid()
      ensures conversations == map[] && current == None && saved == []
    {
      conversations := map[];
      current := None;
      saved := [];
    }

    /** `_save`: the full state is written as one snapshot. */
    method Save()
      modifies this
      ensures conversations == old(conversations) && current == old(current)
      ensures saved == old(saved) + [Snapshot()]
    {
      saved := saved + [Snapshot()];
    }

    /** A new id gets an empty record and becomes current; a known id changes nothing. */
    method AddConversation(id: string, title: string, now: Timestamp)
      requires Valid()
      modifies this
      ensures Valid()
      ensures old(id in conversations) ==>
        conversations == old(conversations) && current == old(current) && saved == old(saved)
      ensures old(id !in conversations) ==>
        && conversations == old(conversations)[id := Conversation(id, title, now, [], None)]
        && current == Some(id)
        && saved == old(saved) + [Snapshot(), Snapshot()]
    {
      if id !in conversations {
        conversations := conversations[id := Conversation(id, title, now, [], None)];
        SetCurrentConversation(id);
        Save();
      }
    }

    /** Moves the pointer only to a stored id. */
    method SetCurrentConversation(id: string)
      requires Valid()
      modifies this
      ensures Valid()
      ensures conversations == old(conversations)
      ensures id in conversations ==> current == Some(id) && saved == old(saved) + [Snapshot()]
      ensures id !in conversations ==> current == old(current) && saved == old(saved)
    {
      if id in conversations {
        current := Some(id);
        Save();
      }
    }

    /** The current pointer as `_save` would write it; under the invariant it names a stored record. */
    function GetCurrentConversation(): (id: Option<string>)
      reads this
      ensures id == Snapshot().current
      ensures CurrentIsLive(Snapshot()) && id.Some? ==> id.value in Snapshot().conversations
    {
      current
    }

    /** The stored records as `_save` would write them; under the invariant they include the current one. */
    function ListConversations(): (convs: map<string, Conversation>)
      reads this
      ensures convs == Snapshot().conversations
      ensures CurrentIsLive(Snapshot()) && current.Some? ==> current.value in convs
    {
      conversations
    }

    /** Like `SetCurrentConversation`, and reports whether the id was found. */
    method SwitchConversation(id: string) returns (found: bool)
      requires Valid()
      modifies this
      ensures Valid()
      ensures found <==> id in old(conversations)
      ensures conversations == old(conversations)
      ensures found ==> current == Some(id) && saved == old(saved) + [Snapshot()]
      ensures !found ==> current == old(current) && saved == old(saved)
    {
      if id in conversations {
        current := Some(id);
        Save();
        return true;
      }
      return false;
    }

    /** Changes the title of a stored conversation and nothing else. */
    method RenameConversation(id: string, newTitle: string)
      requires Valid()
      modifies this
      ensures Valid()
      ensures current == old(current)
      ensures id !in old(conversations) ==> conversations == old(conversations) && saved == old(saved)
      ensures id in old(conversations) ==>
        && conversations == old(conversations)[id := old(conversations)[id].(title := newTitle)]
        && saved == old(saved) + [Snapshot()]
    {
      if id in conversations {
        conversations := conversations[id := conversations[id].(title := newTitle)];
        Save();
      }
    }

    /** Empties the messages and the response id of a stored conversation; its title stays. */
    method ClearConversation(id: string)
      requires Valid()
      modifies this
      ensures Valid()
      ensures current == old(current)
      ensures id !in old(conversations) ==> conversations == old(conversations) && saved == old(saved)
      ensures id in old(conversations) ==>
        && conversations == old(conversations)[id := old(conversations)[id].(messages := [], lastResponseId := None)]
        && saved == old(saved) + [Snapshot()]
    {
      if id in conversations {
        conversations := conversations[id := conversations[id].(messages := [], lastResponseId := None)];
        Save();
      }
    }

    /** Removes a stored conversation; the pointer is nulled exactly when it named it. */
    method DeleteConversation(id: string)
      requires Valid()
      modifies this
      ensures Valid()
      ensures id !in old(conversations) ==>
        conversations == old(conversations) && current == old(current) && saved == old(saved)
      ensures id in old(conversations) ==>
        && conversations == old(conversations) - {id}
        && current == (if old(current) == Some(id) then None else old(current))
        && saved == old(saved) + [Snapshot()]
    {
      if id in conversations {
        conversations := conversations - {id};
        if current == Some(id) {
          current := None;
        }
        Save();
      }
    }

    /** Appends one message at the end; a non-empty response id is recorded on
        the message and becomes the conversation's last response id. */
    method AddMessage(id: string, role: string, content: string, responseId: Option<string>, now: Timestamp)
      returns (r: Result<(), StoreError>)
      requires Valid()
      modifies this
      ensures Valid()
      ensures current == old(current)
      ensures r.Err? <==> id !in old(conversations)
      ensures r.Err? ==> r.error == NotFound(id) && conversations == old(conversations) && saved == old(saved)
      ensures r.Ok? ==>
        var before := old(conversations)[id];
        var msg := Message(role, content, now, if Truthy(responseId) then responseId else None);
        && conversations == old(conversations)[id := before.(
             messages := before.messages + [msg],
             lastResponseId := if Truthy(responseId) then responseId else before.lastResponseId)]
        && saved == old(saved) + [Snapshot()]
    {
      if id !in conversations {
        return Err(NotFound(id));
      }
      var conv := conversations[id];
      var msg := Message(role, content, now, None);
      if Truthy(responseId) {
        msg := msg.(responseId := responseId);
        conv := conv.(lastResponseId := responseId);
      }
      conv := conv.(messages := conv.messages + [msg]);
      conversations := conversations[id := conv];
      Save();
      return Ok(());
    }

    /** The user message, then the assistant message carrying the response id. */
    method UpdateConversation(id: string, responseId: string, userInput: string, assistantResponse: string,
                              userTs: Timestamp, assistantTs: Timestamp)
      returns (r: Result<(), StoreError>)
      requires Valid()
      modifies this
      ensures Valid()
      ensures current == old(current)
      ensures r.Err? <==> id !in old(conversations)
      ensures r.Err? ==> conversations == old(conversations) && saved == old(saved)
      ensures r.Ok? ==>
        var before := old(conversations)[id];
        var rid := if responseId != "" then Some(responseId) else None;
        && conversations.Keys == old(conversations).Keys
        && (forall other :: other in conversations && other != id ==> conversations[other] == old(conversations)[other])
        && conversations[id] == before.(
             messages := before.messages + [Message("user", userInput, userTs, None),
                                            Message("assistant", assistantResponse, assistantTs, rid)],
             lastResponseId := if responseId != "" then rid else before.lastResponseId)
        && |saved| == |old(saved)| + 2 && Last(saved) == Snapshot()
    {
      r := AddMessage(id, "user", userInput, None, userTs);
      if r.Err? {
        return;
      }
      r := AddMessage(id, "assistant", assistantResponse, Some(responseId), assistantTs);
      assert conversations[id].messages == old(conversations)[id].messages
        + [Message("user", userInput, userTs, None)]
        + [Message("assistant", assistantResponse, assistantTs, if responseId != "" then Some(responseId) else None)];
    }

    /** The last `limit` messages (`messages[-limit:]`); an unknown id raises KeyError. */
    function GetHistory(id: string, limit: int): (r: Result<seq<Message>, StoreError>)
      reads this
      ensures r.Ok? <==> id in conversations
      ensures r.Ok? ==> r.value == HistorySuffix(conversations[id].messages, limit)
      ensures r.Ok? && limit >= 1 ==> |r.value| <= limit
    {
      if id in conversations then Ok(HistorySuffix(conversations[id].messages, limit))
      else Err(NotFound(id))
    }
  }
}
