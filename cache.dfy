/** The entity store's create-or-patch rule, as functions on the caches:
    an entry that is present is patched in place, a missing one is created,
    and no other key is touched. */
module Cache {
  import opened Entities

  /** `_patchOrCreateUser(userID, payload)`: the user cache afterwards. */
  function PatchOrCreateUser(users: map<UserId, User>, id: UserId, p: UserPayload): (r: map<UserId, User>)
    ensures id in r && r.Keys == users.Keys + {id}
    ensures id in users ==> r[id] == PatchUser(users[id], p)
    ensures id !in users ==> r[id] == NewUser(id, p)
    ensures forall k :: k in users && k != id ==> r[k] == users[k]
    ensures UsersWellFormed(users) ==> UsersWellFormed(r)
  {
    if id in users then users[id := PatchUser(users[id], p)]
    else users[id := NewUser(id, p)]
  }

  /** The user cache after a lookup, and the ID the lookup resolved to. */
  datatype UserLookup = UserLookup(users: map<UserId, User>, id: UserId)

  /** The ID `fetchUser` resolves a query to: the query itself when it has
      the shape of an ID, otherwise the ID the API gives for that username. */
  function ResolveUserId(svc: Services, query: string): (id: UserId)
  {
    if svc.isId(query) then query else svc.userIdByName(query)
  }

  /** `fetchUser(query, force)`: a cached user is returned as it is unless
      `force` asks for a fresh copy; otherwise the user is created from, or
      patched with, the remote profile by the create-or-patch rule. */
  function FetchUser(svc: Services, users: map<UserId, User>, query: string, force: bool): (r: UserLookup)
    ensures r.id == ResolveUserId(svc, query) && r.id in r.users
    ensures r.users.Keys == users.Keys + {r.id}
    ensures r.id in users && !force ==> r.users == users
    ensures r.id in users && force ==> r.users[r.id] == PatchUser(users[r.id], svc.userInfo(r.id))
    ensures r.id !in users ==> r.users[r.id] == NewUser(r.id, svc.userInfo(r.id))
    ensures forall k :: k in users && k != r.id ==> r.users[k] == users[k]
    ensures UsersWellFormed(users) ==> UsersWellFormed(r.users)
  {
    var id := ResolveUserId(svc, query);
    if id in users && !force then UserLookup(users, id)
    else UserLookup(PatchOrCreateUser(users, id, svc.userInfo(id)), id)
  }

  /** `fetchChat(chatID, force)`: the chat cache afterwards. A cached chat is
      kept as it is unless `force` asks for a fresh copy, which patches it and
      keeps its messages; a missing chat is created from the remote thread. */
  function FetchChat(svc: Services, chats: map<ChatId, Chat>, id: ChatId, force: bool): (r: map<ChatId, Chat>)
    ensures id in r && r.Keys == chats.Keys + {id}
    ensures id in chats && !force ==> r == chats
    ensures id in chats && force ==> r[id] == PatchChat(chats[id], svc.threadInfo(id))
    ensures id in chats ==> r[id].messages == chats[id].messages
    ensures id !in chats ==> r[id] == NewChat(id, svc.threadInfo(id))
    ensures forall k :: k in chats && k != id ==> r[k] == chats[k]
  {
    if id !in chats then chats[id := NewChat(id, svc.threadInfo(id))]
    else if force then chats[id := PatchChat(chats[id], svc.threadInfo(id))]
    else chats
  }

  /** A fetch keeps every chat under its own ID, in agreement with its
      messages, with a keyed member list. */
  lemma FetchChatWellFormed(svc: Services, chats: map<ChatId, Chat>, id: ChatId, force: bool)
    requires ChatsWellFormed(chats)
    ensures ChatsWellFormed(FetchChat(svc, chats, id, force))
  {
    var r := FetchChat(svc, chats, id, force);
    forall k | k in r
      ensures ChatWellFormed(k, r[k]) && Distinct(r[k].users)
    {
      if k != id {
        assert r[k] == chats[k];
      } else if id in chats {
        assert r[k].id == chats[k].id && r[k].messages == chats[k].messages;
      }
    }
  }

  /** Fetching without `force` is idempotent: a second fetch of the same chat
      changes nothing, so the same chat object is handed out every time. */
  lemma FetchChatIdempotent(svc: Services, chats: map<ChatId, Chat>, id: ChatId)
    ensures FetchChat(svc, FetchChat(svc, chats, id, false), id, false) == FetchChat(svc, chats, id, false)
  {
  }
}
