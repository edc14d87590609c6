/** The entities the client caches (users, chats, messages), the payloads the
    remote API hands back for them, the events the client emits and the
    records the realtime transport delivers.

    `_patch` of a user, chat or message is modelled as replacing the fields the
    payload carries; the identity of an entity is never touched by a patch. */
module Entities {

  type UserId = string
  type ChatId = string
  type MessageId = string

  datatype Option<T> = None | Some(value: T)

  datatype Result<T, E> = Success(value: T) | Failure(error: E)

  /** No element occurs twice: the keys of a keyed collection. */
  predicate Distinct<T(==)>(s: seq<T>)
  {
    forall i, j :: 0 <= i < j < |s| ==> s[i] != s[j]
  }

  // ---------------------------------------------------------------- users

  /** The profile fields the API returns for a user. */
  datatype UserPayload = UserPayload(
    username: string,
    fullName: string,
    isPrivate: bool,
    isVerified: bool,
    followerCount: nat,
    followingCount: nat,
    avatarUrl: string,
    biography: string)

  datatype User = User(id: UserId, profile: UserPayload)

  /** `new User(client, payload)`, stored under `id`. */
  function NewUser(id: UserId, p: UserPayload): (u: User)
    ensures u.id == id && u.profile == p
  {
    User(id, p)
  }

  /** `user._patch(payload)`: the profile is replaced, the identity kept. */
  function PatchUser(u: User, p: UserPayload): (r: User)
    ensures r.id == u.id && r.profile == p
  {
    u.(profile := p)
  }

  // ------------------------------------------------------------- messages

  /** A direct-message item as the API returns it. */
  datatype MessagePayload = MessagePayload(
    itemId: MessageId,
    itemType: string,
    userId: UserId,
    text: string,
    timestamp: int,     // microseconds
    likes: seq<UserId>) // the user ID of each like, in the API's order

  datatype Message = Message(
    id: MessageId,
    chatId: ChatId,
    authorId: UserId,
    itemType: string,
    text: string,
    timestamp: int,
    likes: seq<UserId>)

  /** `new Message(client, threadID, payload)`. */
  function NewMessage(chatId: ChatId, p: MessagePayload): (m: Message)
    ensures m.id == p.itemId && m.chatId == chatId && m.likes == p.likes
  {
    Message(p.itemId, chatId, p.userId, p.itemType, p.text, p.timestamp, p.likes)
  }

  /** `message._patch(payload)`: content fields replaced, id and chat kept. */
  function PatchMessage(m: Message, p: MessagePayload): (r: Message)
    ensures r.id == m.id && r.chatId == m.chatId && r.likes == p.likes
  {
    m.(authorId := p.userId, itemType := p.itemType, text := p.text,
       timestamp := p.timestamp, likes := p.likes)
  }

  // ---------------------------------------------------------------- chats

  /** A thread as the API returns it. */
  datatype ChatPayload = ChatPayload(
    name: string,
    users: seq<UserId>,
    adminUserIds: seq<UserId>,
    calling: bool,
    pending: bool)

  /** A cached chat. `users` are the keys of the chat's user collection in
      insertion order, so they are distinct; `messages` is `chat.messages`. */
  datatype Chat = Chat(
    id: ChatId,
    name: string,
    users: seq<UserId>,
    adminUserIds: seq<UserId>,
    calling: bool,
    pending: bool,
    messages: map<MessageId, Message>)

  /** The keys of a collection filled by setting `ids` one after the other:
      a repeated ID keeps the position of its first occurrence. */
  function MemberKeys(ids: seq<UserId>): (r: seq<UserId>)
    ensures Distinct(r)
    ensures forall x :: x in r <==> x in ids
    ensures |r| <= |ids|
  {
    if ids == [] then []
    else
      var front := MemberKeys(ids[..|ids| - 1]);
      var x := ids[|ids| - 1];
      assert ids == ids[..|ids| - 1] + [x];
      if x in front then front else front + [x]
  }

  /** A list that is already keyed is its own key list. */
  lemma {:induction false} MemberKeysOfDistinct(ids: seq<UserId>)
    requires Distinct(ids)
    ensures MemberKeys(ids) == ids
  {
    if ids != [] {
      var front := ids[..|ids| - 1];
      assert Distinct(front);
      MemberKeysOfDistinct(front);
      assert ids[|ids| - 1] !in front;
      assert ids == front + [ids[|ids| - 1]];
    }
  }

  /** `new Chat(client, id, payload)`: no message cached yet. */
  function NewChat(id: ChatId, p: ChatPayload): (c: Chat)
    ensures c.id == id && c.messages == map[] && Distinct(c.users)
  {
    Chat(id, p.name, MemberKeys(p.users), p.adminUserIds, p.calling, p.pending, map[])
  }

  /** `chat._patch(payload)`: thread fields replaced; id and messages kept. */
  function PatchChat(c: Chat, p: ChatPayload): (r: Chat)
    ensures r.id == c.id && r.messages == c.messages && Distinct(r.users)
  {
    c.(name := p.name, users := MemberKeys(p.users), adminUserIds := p.adminUserIds,
       calling := p.calling, pending := p.pending)
  }

  /** A thread listed by the inbox or pending feed, with its items. */
  datatype Thread = Thread(threadId: ChatId, payload: ChatPayload, items: seq<MessagePayload>)

  /** The thread IDs of a listing. */
  function ThreadIds(threads: seq<Thread>): (ids: set<ChatId>)
    ensures forall t :: t in threads ==> t.threadId in ids
    ensures forall id :: id in ids ==> exists t :: t in threads && t.threadId == id
    decreases |threads|
  {
    if threads == [] then {}
    else
      var front, t := threads[..|threads| - 1], threads[|threads| - 1];
      assert forall x :: x in threads <==> x in front || x == t;
      ThreadIds(front) + {t.threadId}
  }

  // ------------------------------------------------------ realtime records

  datatype Op = Replace | Add | Remove | OtherOp(name: string)

  datatype AdminRef = AdminRef(threadId: ChatId, userId: UserId)

  /** What the three path matchers report for a record's path: the thread ID
      of an inbox-thread path, the thread ID of a message path, and the thread
      and user IDs of an admin path. A path may match none of them. */
  datatype PathMatch = PathMatch(
    inboxThread: Option<ChatId>,
    message: Option<ChatId>,
    admin: Option<AdminRef>)

  /** The record's `value`: `raw` as received (a bare message ID on a remove),
      and what decoding it yields read as a thread patch and as a message item. */
  datatype RecordValue = RecordValue(raw: string, thread: ChatPayload, item: MessagePayload)

  datatype Record = Record(op: Op, path: PathMatch, value: RecordValue)

  /** One element of a realtime payload, with its batch of records. */
  datatype RawMessage = RawMessage(data: seq<Record>)

  datatype Topic = Topic(id: string)

  /** A push notification: its category, source user and action target. */
  datatype Notification = Notification(pushCategory: string, sourceUserId: string, actionId: ChatId)

  /** What is held in the replay buffer before the client is ready. */
  datatype Inbound =
    | RealtimeEntry(topic: Topic, payload: seq<RawMessage>)
    | FbnsEntry(notification: Notification)

  // --------------------------------------------------------------- events

  datatype Event =
    | RawRealtime(topic: Topic, payload: seq<RawMessage>)
    | RawFbns(notification: Notification)
    | Connected
    | ChatNameUpdate(chatId: ChatId, oldName: string, newName: string)
    | ChatUserAdd(chatId: ChatId, userId: UserId)
    | ChatUserRemove(chatId: ChatId, userId: UserId)
    | CallStart(chatId: ChatId)
    | CallEnd(chatId: ChatId)
    | LikeAdd(userId: UserId, message: Message)
    | LikeRemove(userId: UserId, message: Message)
    | ChatAdminAdd(chatId: ChatId, userId: UserId)
    | ChatAdminRemove(chatId: ChatId, userId: UserId)
    | MessageCreate(message: Message)
    | MessageDelete(message: Message)
    | NewFollower(userId: UserId)
    | FollowRequest(userId: UserId)
    | PendingRequest(chatId: ChatId)
    | PollingError(reason: string)

  // ------------------------------------------------------- collaborators

  /** The collaborators the client calls and this model does not see, as
      total functions: the thread and user lookups of the remote API, its
      username resolution, the ID and message-validity tests of the client's
      utility module, and the pending-thread listing. */
  datatype Services = Services(
    threadInfo: ChatId -> ChatPayload,
    userInfo: UserId -> UserPayload,
    userIdByName: string -> UserId,
    isId: string -> bool,
    isMessageValid: Message -> bool,
    pendingThreads: seq<Thread>)

  // ---------------------------------------------------------------- store

  /** The client's caches. */
  datatype Store = Store(
    users: map<UserId, User>,
    chats: map<ChatId, Chat>,
    pendingChats: map<ChatId, Chat>)

  /** A chat's message map and each message's parent chat agree, and each
      entry is stored under its own ID. */
  predicate ChatWellFormed(id: ChatId, c: Chat)
  {
    && c.id == id
    && forall k :: k in c.messages ==> c.messages[k].id == k && c.messages[k].chatId == id
  }

  predicate UsersWellFormed(users: map<UserId, User>)
  {
    forall k :: k in users ==> users[k].id == k
  }

  /** Every chat is stored under its own ID, agrees with its messages, and
      its member list is a key list. */
  predicate ChatsWellFormed(chats: map<ChatId, Chat>)
  {
    forall k :: k in chats ==> ChatWellFormed(k, chats[k]) && Distinct(chats[k].users)
  }

  /** The identity invariant of the whole store. */
  predicate WellFormed(st: Store)
  {
    UsersWellFormed(st.users) && ChatsWellFormed(st.chats) && ChatsWellFormed(st.pendingChats)
  }
}
