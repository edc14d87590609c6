/** The client object: its caches, the `ready` latch, the replay buffer and
    the polling watermark, with the handlers that update them in place. Each
    method is proved against the function that specifies the same handler,
    so the properties proved about those functions carry over to the
    object. Emitted events are returned, in emission order. */
module ClientModel {
  import opened Entities
  import Cache
  import opened Reconcile
  import opened Folds
  import opened Router
  import opened Polling

  class Client {
    const services: Services
    var users: map<UserId, User>
    var chats: map<ChatId, Chat>
    var pendingChats: map<ChatId, Chat>
    var ready: bool
    var eventsToReplay: seq<Inbound>
    var lastPolledTimestamp: int

    /** The caches, as the value the specification functions work on. */
    function State(): (s: Store)
      reads this
    {
      Store(users, chats, pendingChats)
    }

    /** Every entity is stored under its own ID, and nothing waits for replay
        once the client is ready. */
    predicate Valid()
      reads this
    {
      WellFormed(State()) && (ready ==> eventsToReplay == [])
    }

    /** The latch, the buffer and the watermark are as they were. */
    twostate predicate Untouched()
      reads this
    {
      ready == old(ready) && eventsToReplay == old(eventsToReplay) &&
      lastPolledTimestamp == old(lastPolledTimestamp)
    }

    /** A new client: empty caches, not ready, nothing buffered. */
    constructor(svc: Services)
      ensures Valid() && services == svc
      ensures users == map[] && chats == map[] && pendingChats == map[]
      ensures !ready && eventsToReplay == [] && lastPolledTimestamp == 0
    {
      services := svc;
      users := map[];
      chats := map[];
      pendingChats := map[];
      ready := false;
      eventsToReplay := [];
      lastPolledTimestamp := 0;
    }

    // ------------------------------------------------------------ caches

    /** `_patchOrCreateUser`: patch the cached user or cache a new one. */
    method PatchOrCreateUser(id: UserId, p: UserPayload) returns (user: User)
      modifies this
      ensures users == Cache.PatchOrCreateUser(old(users), id, p) && user == users[id]
      ensures chats == old(chats) && pendingChats == old(pendingChats) && Untouched()
    {
      if id in users {
        users := users[id := PatchUser(users[id], p)];
      } else {
        users := users[id := NewUser(id, p)];
      }
      user := users[id];
    }

    /** `fetchChat`: the remote thread is requested only for a missing chat
        or when `force` is set. */
    method FetchChat(id: ChatId, force: bool) returns (chat: Chat)
      modifies this
      ensures chats == Cache.FetchChat(services, old(chats), id, force) && chat == chats[id]
      ensures users == old(users) && pendingChats == old(pendingChats) && Untouched()
    {
      if id !in chats {
        var payload := services.threadInfo(id);
        chats := chats[id := NewChat(id, payload)];
      } else if force {
        var payload := services.threadInfo(id);
        chats := chats[id := PatchChat(chats[id], payload)];
      }
      chat := chats[id];
    }

    /** `fetchUser`: the query is resolved to an ID, and the remote profile
        is requested only for a missing user or when `force` is set. */
    method FetchUser(query: string, force: bool) returns (user: User)
      requires UsersWellFormed(users)
      modifies this
      ensures var l := Cache.FetchUser(services, old(users), query, force);
              users == l.users && user == users[l.id] && user.id == l.id
      ensures UsersWellFormed(users)
      ensures chats == old(chats) && pendingChats == old(pendingChats) && Untouched()
    {
      var id := if services.isId(query) then query else services.userIdByName(query);
      if id !in users {
        var payload := services.userInfo(id);
        users := users[id := NewUser(id, payload)];
      } else if force {
        var payload := services.userInfo(id);
        users := users[id := PatchUser(users[id], payload)];
      }
      user := users[id];
    }

    // ---------------------------------------------------- realtime records

    method HandleThreadReplace(tid: ChatId, p: ChatPayload) returns (evs: seq<Event>)
      modifies this
      ensures Run(State(), evs) == ThreadReplaceEffect(old(State()), tid, p) && Untouched()
      ensures users == old(users)
    {
      if tid in chats {
        var before := chats[tid];
        var after := PatchChat(before, p);
        chats := chats[tid := after];
        evs := ChatDiff(before, after);
      } else {
        chats := chats[tid := NewChat(tid, p)];
        evs := [];
      }
    }

    method HandleMessageReplace(tid: ChatId, p: MessagePayload) returns (evs: seq<Event>)
      requires UsersWellFormed(users)
      modifies this
      ensures Run(State(), evs) == MessageReplaceEffect(services, old(State()), tid, p) && Untouched()
      ensures UsersWellFormed(users)
    {
      var chat := FetchChat(tid, false);
      evs := [];
      if p.itemId in chat.messages {
        var before := chat.messages[p.itemId];
        var after := PatchMessage(before, p);
        chats := chats[tid := chat.(messages := chat.messages[p.itemId := after])];
        match LikeDelta(before.likes, after.likes)
        case NoLikeChange =>
        case LikeAdded(u) =>
          var user := FetchUser(u, false);
          evs := [LikeAdd(user.id, after)];
        case LikeRemoved(u) =>
          var user := FetchUser(u, false);
          evs := [LikeRemove(user.id, after)];
      }
    }

    method HandleAdminAdd(tid: ChatId, u: UserId) returns (evs: seq<Event>)
      requires UsersWellFormed(users)
      modifies this
      ensures Run(State(), evs) == AdminAddEffect(services, old(State()), tid, u) && Untouched()
      ensures UsersWellFormed(users)
    {
      var chat := FetchChat(tid, false);
      chats := chats[tid := chat.(adminUserIds := AdminsAfterAdd(chat.adminUserIds, u))];
      var user := FetchUser(u, false);
      evs := [ChatAdminAdd(tid, user.id)];
    }

    method HandleAdminRemove(tid: ChatId, u: UserId) returns (evs: seq<Event>)
      requires UsersWellFormed(users)
      modifies this
      ensures Run(State(), evs) == AdminRemoveEffect(services, old(State()), tid, u) && Untouched()
      ensures UsersWellFormed(users)
    {
      var chat := FetchChat(tid, false);
      chats := chats[tid := chat.(adminUserIds := AdminsAfterRemove(chat.adminUserIds, u))];
      var user := FetchUser(u, false);
      evs := [ChatAdminRemove(tid, user.id)];
    }

    method HandleMessageAdd(tid: ChatId, p: MessagePayload) returns (evs: seq<Event>)
      modifies this
      ensures Run(State(), evs) == MessageAddEffect(services, old(State()), tid, p) && Untouched()
      ensures users == old(users)
    {
      var chat := FetchChat(tid, false);
      evs := [];
      if !IsSilentItemType(p.itemType) {
        var m := NewMessage(tid, p);
        chats := chats[tid := chat.(messages := chat.messages[m.id := m])];
        if services.isMessageValid(m) {
          evs := [MessageCreate(m)];
        }
      }
    }

    method HandleMessageRemove(tid: ChatId, id: MessageId) returns (evs: seq<Event>)
      modifies this
      ensures Run(State(), evs) == MessageRemoveEffect(services, old(State()), tid, id) && Untouched()
      ensures users == old(users)
    {
      var chat := FetchChat(tid, false);
      evs := if id in chat.messages then [MessageDelete(chat.messages[id])] else [];
    }

    /** One record of a realtime batch, dispatched by operation and path. */
    method HandleRecord(rec: Record) returns (evs: seq<Event>)
      requires UsersWellFormed(users)
      modifies this
      ensures Run(State(), evs) == RecordEffect(services, old(State()), rec)
      ensures UsersWellFormed(users) && Untouched()
    {
      match RouteOf(rec)
      case ThreadReplace(tid, p) => evs := HandleThreadReplace(tid, p);
      case MessageReplace(tid, p) => evs := HandleMessageReplace(tid, p);
      case AdminAdd(tid, u) => evs := HandleAdminAdd(tid, u);
      case MessageAdd(tid, p) => evs := HandleMessageAdd(tid, p);
      case AdminRemove(tid, u) => evs := HandleAdminRemove(tid, u);
      case MessageRemove(tid, id) => evs := HandleMessageRemove(tid, id);
      case Unrouted => evs := [];
    }

    /** `handleRealtimeReceive`. Before the client is ready the call is only
        appended to the replay buffer, and nothing is emitted; afterwards it
        emits `rawRealtime` and, on the direct-message topic, handles every
        record of every batch in order. */
    method HandleRealtimeReceive(topic: Topic, payload: seq<RawMessage>) returns (evs: seq<Event>)
      requires Valid()
      modifies this
      ensures Valid() && ready == old(ready) && lastPolledTimestamp == old(lastPolledTimestamp)
      ensures !old(ready) ==>
                evs == [] && State() == old(State()) &&
                eventsToReplay == old(eventsToReplay) + [RealtimeEntry(topic, payload)]
      ensures old(ready) ==>
                Run(State(), evs) == ReceiveEffect(services, old(State()), topic, payload) &&
                eventsToReplay == old(eventsToReplay)
    {
      if !ready {
        eventsToReplay := eventsToReplay + [RealtimeEntry(topic, payload)];
        return [];
      }
      ReceiveWellFormed(services, State(), topic, payload);
      evs := [RawRealtime(topic, payload)];
      if topic.id == "146" {
        ghost var start := Run(State(), evs);
        var i := 0;
        while i < |payload|
          invariant 0 <= i <= |payload|
          invariant Run(State(), evs) == Fold(BatchStep(services), start, payload[..i])
          invariant UsersWellFormed(users) && Untouched()
        {
          ghost var before := State();
          var e := HandleBatch(payload[i].data);
          assert BatchStep(services)(before, payload[i]) == Run(State(), e);
          FoldPrefix(BatchStep(services), start, payload, i);
          evs := evs + e;
          i := i + 1;
        }
        assert payload[..i] == payload;
      }
    }

    /** The records of one realtime batch, handled in order. */
    method HandleBatch(data: seq<Record>) returns (evs: seq<Event>)
      requires UsersWellFormed(users)
      modifies this
      ensures Run(State(), evs) == Fold(RecordStep(services), Run(old(State()), []), data)
      ensures UsersWellFormed(users) && Untouched()
    {
      ghost var acc := Run(State(), []);
      evs := [];
      var j := 0;
      while j < |data|
        invariant 0 <= j <= |data|
        invariant Run(State(), evs) == Fold(RecordStep(services), acc, data[..j])
        invariant UsersWellFormed(users) && Untouched()
      {
        ghost var before := State();
        var e := HandleRecord(data[j]);
        assert RecordStep(services)(before, data[j]) == RecordEffect(services, before, data[j]);
        FoldPrefix(RecordStep(services), acc, data, j);
        evs := evs + e;
        j := j + 1;
      }
      assert data[..j] == data;
    }

    // ------------------------------------------------- push notifications

    /** `handleFbnsReceive`: buffered before the client is ready; afterwards
        `rawFbns`, then the handling of its category. */
    method HandleFbnsReceive(n: Notification) returns (evs: seq<Event>)
      requires Valid()
      modifies this
      ensures Valid() && ready == old(ready) && lastPolledTimestamp == old(lastPolledTimestamp)
      ensures !old(ready) ==>
                evs == [] && State() == old(State()) &&
                eventsToReplay == old(eventsToReplay) + [FbnsEntry(n)]
      ensures old(ready) ==>
                Run(State(), evs) == FbnsEffect(services, old(State()), n) &&
                eventsToReplay == old(eventsToReplay)
    {
      if !ready {
        eventsToReplay := eventsToReplay + [FbnsEntry(n)];
        return [];
      }
      FbnsEffectWellFormed(services, State(), n);
      evs := [RawFbns(n)];
      if n.pushCategory == "new_follower" {
        var user := FetchUser(n.sourceUserId, false);
        evs := evs + [NewFollower(user.id)];
      } else if n.pushCategory == "private_user_follow_request" {
        var user := FetchUser(n.sourceUserId, false);
        evs := evs + [FollowRequest(user.id)];
      } else if n.pushCategory == "direct_v2_pending" {
        if n.actionId !in pendingChats {
          RegisterPendingThreads();
        }
        if n.actionId in pendingChats {
          evs := evs + [PendingRequest(n.actionId)];
        }
      }
    }

    /** Every thread of the pending listing cached as a chat and as a
        pending chat, the same chat in both. */
    method RegisterPendingThreads()
      modifies this
      ensures State() == RegisterPending(old(State()), services.pendingThreads) && Untouched()
    {
      var threads := services.pendingThreads;
      var i := 0;
      while i < |threads|
        invariant 0 <= i <= |threads|
        invariant State() == RegisterPending(old(State()), threads[..i]) && Untouched()
      {
        RegisterPendingStep(old(State()), threads, i);
        var t := threads[i];
        var chat := NewChat(t.threadId, t.payload);
        chats := chats[t.threadId := chat];
        pendingChats := pendingChats[t.threadId := chat];
        i := i + 1;
      }
      assert threads[..i] == threads;
    }

    // --------------------------------------------------------------- login

    /** The end of `login`: the latch is set, `connected` is emitted, and the
        buffered calls are handled in arrival order through the same
        handlers, which no longer buffer. */
    method FinishLogin() returns (evs: seq<Event>)
      requires Valid()
      modifies this
      ensures Valid() && ready && eventsToReplay == []
      ensures Run(State(), evs) == Fold(InboundStep(services), Run(old(State()), [Connected]), old(eventsToReplay))
      ensures lastPolledTimestamp == old(lastPolledTimestamp)
    {
      ready := true;
      evs := [Connected];
      var buffer := eventsToReplay;
      eventsToReplay := [];
      var i := 0;
      while i < |buffer|
        invariant 0 <= i <= |buffer|
        invariant Run(State(), evs) == Fold(InboundStep(services), Run(old(State()), [Connected]), buffer[..i])
        invariant Valid() && ready && eventsToReplay == []
        invariant lastPolledTimestamp == old(lastPolledTimestamp)
        decreases |buffer| - i
      {
        ghost var before := State();
        var e: seq<Event>;
        match buffer[i] {
          case RealtimeEntry(topic, payload) => e := HandleRealtimeReceive(topic, payload);
          case FbnsEntry(n) => e := HandleFbnsReceive(n);
        }
        assert InboundStep(services)(before, buffer[i]) == InboundEffect(services, before, buffer[i]);
        FoldPrefix(InboundStep(services), Run(old(State()), [Connected]), buffer, i);
        evs := evs + e;
        i := i + 1;
      }
      assert buffer[..i] == buffer;
    }

    // ------------------------------------------------------------- polling

    /** The start of `startMessagePolling`: the watermark is set to the
        current time, given in milliseconds, in microseconds. */
    method StartMessagePolling(nowMs: int)
      modifies this
      ensures lastPolledTimestamp == nowMs * 1000
      ensures users == old(users) && chats == old(chats) && pendingChats == old(pendingChats)
      ensures ready == old(ready) && eventsToReplay == old(eventsToReplay)
    {
      lastPolledTimestamp := nowMs * 1000;
    }

    /** The items loop of one polled thread: each item is stored in `chat`
        as a message under its ID, announced when valid, and moves the
        watermark to its timestamp. */
    method StoreNewItems(tid: ChatId, chat: Chat, mark: int, newer: seq<MessagePayload>)
      returns (chat': Chat, mark': int, evs: seq<Event>)
      ensures Run(Cursor(chat', mark'), evs) == ItemsRun(services, tid, Cursor(chat, mark), newer)
    {
      chat', mark', evs := chat, mark, [];
      var j := 0;
      while j < |newer|
        invariant 0 <= j <= |newer|
        invariant Run(Cursor(chat', mark'), evs) == ItemsRun(services, tid, Cursor(chat, mark), newer[..j])
      {
        var item := newer[j];
        var message := NewMessage(tid, item);
        ItemsRunStep(services, tid, Cursor(chat, mark), newer, j);
        chat' := chat'.(messages := chat'.messages[message.id := message]);
        if services.isMessageValid(message) {
          evs := evs + [MessageCreate(message)];
        }
        mark' := item.timestamp;
        j := j + 1;
      }
      assert newer[..j] == newer;
    }

    /** One thread of a poll cycle: its chat is created when missing, and
        its items newer than the watermark are stored in ascending timestamp
        order, each announced when valid and each moving the watermark. */
    method HandlePolledThread(t: Thread) returns (evs: seq<Event>)
      modifies this
      ensures Run(PollState(chats, lastPolledTimestamp), evs) ==
              PollThread(services, PollState(old(chats), old(lastPolledTimestamp)), t)
      ensures users == old(users) && pendingChats == old(pendingChats)
      ensures ready == old(ready) && eventsToReplay == old(eventsToReplay)
    {

      var tid := t.threadId;
      if tid !in chats {
        chats := chats[tid := NewChat(tid, t.payload)];
      }
      assert chats == PolledChats(old(chats), t);
      var chat, mark;
      chat, mark, evs := StoreNewItems(tid, chats[tid], lastPolledTimestamp, NewItems(t.items, lastPolledTimestamp));
      chats := chats[tid := chat];
      lastPolledTimestamp := mark;
    }

    /** The threads of one inbox listing, polled in listing order. */
    method PollThreads(threads: seq<Thread>) returns (evs: seq<Event>)
      modifies this
      ensures users == old(users) && pendingChats == old(pendingChats)
      ensures ready == old(ready) && eventsToReplay == old(eventsToReplay)
      ensures Run(PollState(chats, lastPolledTimestamp), evs) ==
              PollCycle(services, PollState(old(chats), old(lastPolledTimestamp)), threads)
    {
      ghost var s0 := PollState(chats, lastPolledTimestamp);
      evs := [];
      var i := 0;
      while i < |threads|
        invariant 0 <= i <= |threads|
        invariant Run(PollState(chats, lastPolledTimestamp), evs) == PollCycle(services, s0, threads[..i])
        invariant users == old(users) && pendingChats == old(pendingChats)
        invariant ready == old(ready) && eventsToReplay == old(eventsToReplay)
      {
        PollCycleStep(services, s0, threads, i, PollState(chats, lastPolledTimestamp), evs);
        var e := HandlePolledThread(threads[i]);
        evs := evs + e;
        i := i + 1;
      }
      assert threads[..i] == threads;
    }

    /** One poll cycle on the inbox listing, or on the error that listing it
        raised, which is emitted as `error` and changes nothing. */
    method PollOnce(inbox: Result<seq<Thread>, string>) returns (evs: seq<Event>)
      requires Valid()
      modifies this
      ensures Valid()
      ensures users == old(users) && pendingChats == old(pendingChats)
      ensures ready == old(ready) && eventsToReplay == old(eventsToReplay)
      ensures inbox.Failure? ==>
                evs == [PollingError(inbox.error)] && chats == old(chats) &&
                lastPolledTimestamp == old(lastPolledTimestamp)
      ensures inbox.Success? ==>
                Run(PollState(chats, lastPolledTimestamp), evs) ==
                PollCycle(services, PollState(old(chats), old(lastPolledTimestamp)), inbox.value)
    {
      match inbox {
        case Failure(reason) => evs := [PollingError(reason)];
        case Success(threads) =>
          PollCycleWellFormed(services, PollState(chats, lastPolledTimestamp), threads);
          evs := PollThreads(threads);
      }
    }
  }
}
