/** The in-memory chat store. */
module ChatStore {
  import opened Options

  datatype Row = Row(chatId: string, ownerId: string, createdAt: int, updatedAt: int)

  datatype ChatRecord<+M> = ChatRecord(row: Row, messages: seq<M>)

  type Chats<M> = map<string, ChatRecord<M>>

  function Ensured<M>(s: Chats<M>, chatId: string, ownerId: string, now: int): Chats<M> {
    if chatId in s then s else s[chatId := ChatRecord(Row(chatId, ownerId, now, now), [])]
  }

  function Appended<M>(s: Chats<M>, chatId: string, ownerId: string, message: M, now: int): Chats<M> {
    if chatId in s then
      s[chatId := ChatRecord(s[chatId].row.(updatedAt := now), s[chatId].messages + [message])]
    else
      s[chatId := ChatRecord(Row(chatId, ownerId, now, now), [message])]
  }

  ghost predicate WellKeyed<M(!new)>(s: Chats<M>) {
    forall id :: id in s ==> s[id].row.chatId == id
  }

  /** A store only grows: no chat goes, no owner or creation time changes, no message moves. */
  ghost predicate Extends<M(!new)>(s: Chats<M>, t: Chats<M>) {
    forall id :: id in s ==>
      && id in t
      && t[id].row.chatId == s[id].row.chatId && t[id].row.ownerId == s[id].row.ownerId
      && t[id].row.createdAt == s[id].row.createdAt
      && s[id].messages <= t[id].messages
  }

  lemma EnsuredExtends<M(!new)>(s: Chats<M>, chatId: string, ownerId: string, now: int)
    ensures Extends(s, Ensured(s, chatId, ownerId, now))
    ensures WellKeyed(s) ==> WellKeyed(Ensured(s, chatId, ownerId, now))
  {
  }

  lemma AppendedExtends<M(!new)>(s: Chats<M>, chatId: string, ownerId: string, message: M, now: int)
    ensures Extends(s, Appended(s, chatId, ownerId, message, now))
    ensures WellKeyed(s) ==> WellKeyed(Appended(s, chatId, ownerId, message, now))
  {
  }

  /** What get returns. */
  function Found<M>(s: Chats<M>, chatId: string): Option<ChatRecord<M>> {
    if chatId in s then Some(s[chatId]) else None
  }

  /** After an append get returns the chat with the message last, its first owner and creation time, and this update
      time; and every other chat as before. */
  lemma AppendedIsFound<M(!new)>(s: Chats<M>, chatId: string, ownerId: string, message: M, now: int, other: string)
    requires other != chatId
    ensures var t := Appended(s, chatId, ownerId, message, now);
            && Found(t, other) == Found(s, other)
            && Found(t, chatId).Some?
            && Found(t, chatId).value.messages == (if chatId in s then s[chatId].messages else []) + [message]
            && var row := Found(t, chatId).value.row;
               && row.ownerId == (if chatId in s then s[chatId].row.ownerId else ownerId)
               && row.createdAt == (if chatId in s then s[chatId].row.createdAt else now)
               && row.updatedAt == now
               && row.chatId == if chatId in s then s[chatId].row.chatId else chatId
  {
  }

  /** After an ensure get returns the chat it returned before, or an empty one of this owner, made now. */
  lemma EnsuredIsFound<M(!new)>(s: Chats<M>, chatId: string, ownerId: string, now: int, other: string)
    requires other != chatId
    ensures var t := Ensured(s, chatId, ownerId, now);
            && Found(t, other) == Found(s, other)
            && Found(t, chatId) == if chatId in s then Some(s[chatId])
                                   else Some(ChatRecord(Row(chatId, ownerId, now, now), []))
  {
  }

  class InMemoryChatStore<M> {
    var chats: Chats<M>

    constructor ()
      ensures chats == map[]
    {
      chats := map[];
    }

    method Get(chatId: string) returns (r: Option<ChatRecord<M>>)
      ensures r == Found(chats, chatId)
    {
      if chatId in chats { r := Some(chats[chatId]); } else { r := None; }
    }

    method Ensure(chatId: string, ownerId: string, now: int)
      modifies this
      ensures chats == Ensured(old(chats), chatId, ownerId, now)
    {
      if chatId in chats { return; }
      chats := chats[chatId := ChatRecord(Row(chatId, ownerId, now, now), [])];
    }

    method Append(chatId: string, ownerId: string, message: M, now: int)
      modifies this
      ensures chats == Appended(old(chats), chatId, ownerId, message, now)
    {
      var existing := Get(chatId);
      if existing.Some? {
        var e := existing.value;
        var row := Row(e.row.chatId, e.row.ownerId, e.row.createdAt, now);
        chats := chats[chatId := ChatRecord(row, e.messages + [message])];
        return;
      }
      chats := chats[chatId := ChatRecord(Row(chatId, ownerId, now, now), [message])];
    }
  }
}
