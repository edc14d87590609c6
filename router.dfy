/** The change router: it classifies each realtime record by operation and
    path kind, and applies it to the caches, yielding the events the client
    emits. The functions here are the specification the `Client` methods are
    proved against; network fetches are the `Services` lookups, done
    synchronously in the order the client issues them. */
module Router {
  import opened Entities
  import opened Cache
  import opened Reconcile
  import opened Folds

  /** A classified record: which handler runs, with the IDs it extracted. */
  datatype Route =
    | ThreadReplace(threadId: ChatId, patch: ChatPayload)
    | MessageReplace(threadId: ChatId, item: MessagePayload)
    | AdminAdd(threadId: ChatId, userId: UserId)
    | MessageAdd(threadId: ChatId, item: MessagePayload)
    | AdminRemove(threadId: ChatId, userId: UserId)
    | MessageRemove(threadId: ChatId, messageId: MessageId)
    | Unrouted

  /** The dispatch of `handleRealtimeReceive`: on a replace the inbox-thread
      path is tried before the message path; on an add or a remove the admin
      path is tried before the message path; any other operation, and a path
      no matcher accepts, is dropped. */
  function RouteOf(rec: Record): (r: Route)
    ensures rec.op.OtherOp? ==> r == Unrouted
    ensures r.Unrouted? <==>
              rec.op.OtherOp? || (rec.path.message.None? &&
                                  (if rec.op == Replace then rec.path.inboxThread.None? else rec.path.admin.None?))
    ensures rec.op == Replace && rec.path.inboxThread.Some? ==>
              r == ThreadReplace(rec.path.inboxThread.value, rec.value.thread)
    ensures (rec.op == Add || rec.op == Remove) && rec.path.admin.Some? ==>
              r.threadId == rec.path.admin.value.threadId && (r.AdminAdd? || r.AdminRemove?) &&
              r.userId == rec.path.admin.value.userId
    ensures r.MessageReplace? || r.MessageAdd? || r.MessageRemove? ==>
              rec.path.message.Some? && r.threadId == rec.path.message.value
    ensures r.MessageRemove? ==> r.messageId == rec.value.raw
    ensures r.ThreadReplace? || r.MessageReplace? ==> rec.op == Replace
    ensures r.AdminAdd? || r.MessageAdd? ==> rec.op == Add
    ensures r.AdminRemove? || r.MessageRemove? ==> rec.op == Remove
    ensures r.MessageReplace? ==> rec.path.inboxThread.None? && r.item == rec.value.item
    ensures r.MessageAdd? ==> rec.path.admin.None? && r.item == rec.value.item
    ensures r.MessageRemove? ==> rec.path.admin.None?
    ensures r.ThreadReplace? ==> rec.path.inboxThread.Some?
    ensures r.AdminAdd? || r.AdminRemove? ==> rec.path.admin.Some?
    ensures rec.op == Replace && rec.path.inboxThread.None? && rec.path.message.Some? ==>
              r == MessageReplace(rec.path.message.value, rec.value.item)
    ensures rec.op == Add && rec.path.admin.None? && rec.path.message.Some? ==>
              r == MessageAdd(rec.path.message.value, rec.value.item)
    ensures rec.op == Remove && rec.path.admin.None? && rec.path.message.Some? ==>
              r == MessageRemove(rec.path.message.value, rec.value.raw)
  {
    match rec.op
    case Replace =>
      if rec.path.inboxThread.Some? then ThreadReplace(rec.path.inboxThread.value, rec.value.thread)
      else if rec.path.message.Some? then MessageReplace(rec.path.message.value, rec.value.item)
      else Unrouted
    case Add =>
      if rec.path.admin.Some? then AdminAdd(rec.path.admin.value.threadId, rec.path.admin.value.userId)
      else if rec.path.message.Some? then MessageAdd(rec.path.message.value, rec.value.item)
      else Unrouted
    case Remove =>
      if rec.path.admin.Some? then AdminRemove(rec.path.admin.value.threadId, rec.path.admin.value.userId)
      else if rec.path.message.Some? then MessageRemove(rec.path.message.value, rec.value.raw)
      else Unrouted
    case OtherOp(_) => Unrouted
  }

  /** The caches after a step, and the events the step emitted, in order. */
  type Outcome = Run<Store, Event>

  /** Item types that an add-message record never stores. */
  predicate IsSilentItemType(itemType: string)
  {
    itemType == "action_log" || itemType == "video_call_event"
  }

  // ------------------------------------------------------------- handlers

  /** A replace of a thread path: a cached chat is snapshotted, patched and
      compared; an unknown one is created and nothing is emitted. */
  function ThreadReplaceEffect(st: Store, tid: ChatId, p: ChatPayload): (o: Outcome)
  {
    if tid in st.chats then
      var before := st.chats[tid];
      var after := PatchChat(before, p);
      Run(st.(chats := st.chats[tid := after]), ChatDiff(before, after))
    else
      Run(st.(chats := st.chats[tid := NewChat(tid, p)]), [])
  }

  /** A replace of a message path: the chat is fetched; a cached message is
      snapshotted, patched, and its likes compared; the liking user is fetched
      before the like event is emitted. An uncached message is ignored. */
  function MessageReplaceEffect(svc: Services, st: Store, tid: ChatId, p: MessagePayload): (o: Outcome)
  {
    var chats1 := FetchChat(svc, st.chats, tid, false);
    var chat := chats1[tid];
    if p.itemId in chat.messages then
      var before := chat.messages[p.itemId];
      var after := PatchMessage(before, p);
      var chats2 := chats1[tid := chat.(messages := chat.messages[p.itemId := after])];
      match LikeDelta(before.likes, after.likes)
      case NoLikeChange => Run(st.(chats := chats2), [])
      case LikeAdded(u) =>
        var l := FetchUser(svc, st.users, u, false);
        Run(st.(users := l.users, chats := chats2), [LikeAdd(l.id, after)])
      case LikeRemoved(u) =>
        var l := FetchUser(svc, st.users, u, false);
        Run(st.(users := l.users, chats := chats2), [LikeRemove(l.id, after)])
    else
      Run(st.(chats := chats1), [])
  }

  /** An add of an admin path: the chat is fetched, the user ID appended to
      its admins, the user fetched, and `chatAdminAdd` emitted. */
  function AdminAddEffect(svc: Services, st: Store, tid: ChatId, u: UserId): (o: Outcome)
  {
    var chats1 := FetchChat(svc, st.chats, tid, false);
    var chat := chats1[tid];
    var chats2 := chats1[tid := chat.(adminUserIds := AdminsAfterAdd(chat.adminUserIds, u))];
    var l := FetchUser(svc, st.users, u, false);
    Run(Store(l.users, chats2, st.pendingChats), [ChatAdminAdd(tid, l.id)])
  }

  /** A remove of an admin path: the chat is fetched, the user ID taken out
      of its admins, the user fetched, and `chatAdminRemove` emitted. */
  function AdminRemoveEffect(svc: Services, st: Store, tid: ChatId, u: UserId): (o: Outcome)
  {
    var chats1 := FetchChat(svc, st.chats, tid, false);
    var chat := chats1[tid];
    var chats2 := chats1[tid := chat.(adminUserIds := AdminsAfterRemove(chat.adminUserIds, u))];
    var l := FetchUser(svc, st.users, u, false);
    Run(Store(l.users, chats2, st.pendingChats), [ChatAdminRemove(tid, l.id)])
  }

  /** The remove of an admin path as Client.js:273 has it: the user ID is
      pushed onto the admins, as on an add, before `chatAdminRemove` is
      emitted. The client model runs `AdminRemoveEffect` instead. */
  function AdminRemoveEffectAsWritten(svc: Services, st: Store, tid: ChatId, u: UserId): (o: Outcome)
    ensures tid in o.state.chats && u in o.state.chats[tid].adminUserIds
    ensures o.events == [ChatAdminRemove(tid, ResolveUserId(svc, u))]
  {
    var chats1 := FetchChat(svc, st.chats, tid, false);
    var chat := chats1[tid];
    var chats2 := chats1[tid := chat.(adminUserIds := AdminsAfterRemoveAsWritten(chat.adminUserIds, u))];
    var l := FetchUser(svc, st.users, u, false);
    Run(Store(l.users, chats2, st.pendingChats), [ChatAdminRemove(tid, l.id)])
  }

  /** An add of a message path: the chat is fetched; an action-log or
      video-call item stops there; any other item is stored under its ID and
      `messageCreate` is emitted when the item is a valid message. */
  function MessageAddEffect(svc: Services, st: Store, tid: ChatId, p: MessagePayload): (o: Outcome)
  {
    var chats1 := FetchChat(svc, st.chats, tid, false);
    var chat := chats1[tid];
    if IsSilentItemType(p.itemType) then Run(st.(chats := chats1), [])
    else
      var m := NewMessage(tid, p);
      var chats2 := chats1[tid := chat.(messages := chat.messages[m.id := m])];
      Run(st.(chats := chats2), if svc.isMessageValid(m) then [MessageCreate(m)] else [])
  }

  /** A remove of a message path: the chat is fetched; `messageDelete` is
      emitted with the cached copy when the ID is cached, and no message
      cache is changed. */
  function MessageRemoveEffect(svc: Services, st: Store, tid: ChatId, id: MessageId): (o: Outcome)
  {
    var chats1 := FetchChat(svc, st.chats, tid, false);
    var chat := chats1[tid];
    Run(st.(chats := chats1), if id in chat.messages then [MessageDelete(chat.messages[id])] else [])
  }

  /** One record of a realtime batch. */
  function RecordEffect(svc: Services, st: Store, rec: Record): (o: Outcome)
  {
    match RouteOf(rec)
    case ThreadReplace(tid, p) => ThreadReplaceEffect(st, tid, p)
    case MessageReplace(tid, p) => MessageReplaceEffect(svc, st, tid, p)
    case AdminAdd(tid, u) => AdminAddEffect(svc, st, tid, u)
    case MessageAdd(tid, p) => MessageAddEffect(svc, st, tid, p)
    case AdminRemove(tid, u) => AdminRemoveEffect(svc, st, tid, u)
    case MessageRemove(tid, id) => MessageRemoveEffect(svc, st, tid, id)
    case Unrouted => Run(st, [])
  }

  // ---------------------------------------------------------------- folds

  /** One record of a batch, as a step of a fold. */
  function RecordStep(svc: Services): (Store, Record) -> Outcome
  {
    (st: Store, rec: Record) => RecordEffect(svc, st, rec)
  }

  /** One batch of a realtime payload: its records, in order. */
  function BatchStep(svc: Services): (Store, RawMessage) -> Outcome
  {
    (st: Store, m: RawMessage) => Fold(RecordStep(svc), Run(st, []), m.data)
  }

  /** `handleRealtimeReceive` on a ready client: `rawRealtime` first, then,
      on the direct-message topic, every record of every batch. */
  function ReceiveEffect(svc: Services, st: Store, topic: Topic, payload: seq<RawMessage>): (o: Outcome)
    ensures |o.events| >= 1 && o.events[0] == RawRealtime(topic, payload)
    ensures topic.id != "146" ==> o == Run(st, [RawRealtime(topic, payload)])
  {
    var start := Run(st, [RawRealtime(topic, payload)]);
    if topic.id == "146" then
      FoldKeepsEvents(BatchStep(svc), start, payload);
      Fold(BatchStep(svc), start, payload)
    else start
  }

  // ------------------------------------------------- push notifications

  /** The pending threads the API lists, each cached as a chat and as a
      pending chat. */
  function RegisterPending(st: Store, threads: seq<Thread>): (r: Store)
    ensures r.users == st.users
    ensures st.chats.Keys <= r.chats.Keys && st.pendingChats.Keys <= r.pendingChats.Keys
    ensures forall t :: t in threads ==> t.threadId in r.chats && t.threadId in r.pendingChats
    decreases |threads|
  {
    if threads == [] then st
    else
      var prev := RegisterPending(st, threads[..|threads| - 1]);
      var t := threads[|threads| - 1];
      var chat := NewChat(t.threadId, t.payload);
      assert forall x :: x in threads ==> x in threads[..|threads| - 1] || x == t;
      Store(prev.users, prev.chats[t.threadId := chat], prev.pendingChats[t.threadId := chat])
  }

  /** Registering the first `i + 1` threads is registering the first `i`
      and then caching thread `i` in both caches. */
  lemma RegisterPendingStep(st: Store, threads: seq<Thread>, i: int)
    requires 0 <= i < |threads|
    ensures var prev := RegisterPending(st, threads[..i]);
            var chat := NewChat(threads[i].threadId, threads[i].payload);
            RegisterPending(st, threads[..i + 1]) ==
            Store(prev.users, prev.chats[threads[i].threadId := chat], prev.pendingChats[threads[i].threadId := chat])
  {
    assert threads[..i + 1][..i] == threads[..i];
  }

  /** Registering the listing adds exactly the listed threads to both
      caches. */
  lemma {:induction false} RegisterPendingKeys(st: Store, threads: seq<Thread>)
    ensures RegisterPending(st, threads).chats.Keys == st.chats.Keys + ThreadIds(threads)
    ensures RegisterPending(st, threads).pendingChats.Keys == st.pendingChats.Keys + ThreadIds(threads)
    decreases |threads|
  {
    if threads != [] {
      var front, t := threads[..|threads| - 1], threads[|threads| - 1];
      RegisterPendingKeys(st, front);
      var prev := RegisterPending(st, front);
      var r := RegisterPending(st, threads);
      assert r.chats.Keys == prev.chats.Keys + {t.threadId};
      assert r.pendingChats.Keys == prev.pendingChats.Keys + {t.threadId};
      assert ThreadIds(threads) == ThreadIds(front) + {t.threadId};
    }
  }

  /** Thread `i` is the last of the listing with its ID. */
  predicate LastWithId(threads: seq<Thread>, i: int)
    requires 0 <= i < |threads|
  {
    forall j :: i < j < |threads| ==> threads[j].threadId != threads[i].threadId
  }

  /** A listed ID holds, in both caches, the chat built from the last
      listing of that thread. */
  lemma {:induction false} RegisterPendingValue(st: Store, threads: seq<Thread>, i: int)
    requires 0 <= i < |threads| && LastWithId(threads, i)
    ensures var r := RegisterPending(st, threads);
            var chat := NewChat(threads[i].threadId, threads[i].payload);
            r.chats[threads[i].threadId] == chat && r.pendingChats[threads[i].threadId] == chat
    decreases |threads|
  {
    var n := |threads| - 1;
    RegisterPendingStep(st, threads, n);
    assert threads[..n + 1] == threads;
    if i < n {
      var front := threads[..n];
      assert LastWithId(front, i) by {
        forall j | i < j < n
          ensures front[j].threadId != front[i].threadId
        {
          assert front[j] == threads[j];
        }
      }
      RegisterPendingValue(st, front, i);
      assert threads[n].threadId != threads[i].threadId;
    }
  }

  /** A chat that the listing does not name keeps its value in both caches. */
  lemma {:induction false} RegisterPendingFrame(st: Store, threads: seq<Thread>)
    ensures var r := RegisterPending(st, threads);
            forall k :: k in st.chats && k !in ThreadIds(threads) ==> r.chats[k] == st.chats[k]
    ensures var r := RegisterPending(st, threads);
            forall k :: k in st.pendingChats && k !in ThreadIds(threads) ==> r.pendingChats[k] == st.pendingChats[k]
    decreases |threads|
  {
    if threads != [] {
      var n := |threads| - 1;
      var front, last := threads[..n], threads[n];
      RegisterPendingFrame(st, front);
      RegisterPendingStep(st, threads, n);
      assert threads[..n + 1] == threads;
      assert ThreadIds(threads) == ThreadIds(front) + {last.threadId};
    }
  }

  /** A registered thread is the same chat in both caches. */
  lemma {:induction false} RegisterPendingShared(st: Store, threads: seq<Thread>)
    ensures forall t :: t in threads ==>
              RegisterPending(st, threads).chats[t.threadId] == RegisterPending(st, threads).pendingChats[t.threadId]
    decreases |threads|
  {
    if threads != [] {
      var front, last := threads[..|threads| - 1], threads[|threads| - 1];
      RegisterPendingShared(st, front);
      var r := RegisterPending(st, threads);
      forall t | t in threads
        ensures r.chats[t.threadId] == r.pendingChats[t.threadId]
      {
        if t.threadId != last.threadId {
          assert t in front;
        }
      }
    }
  }

  /** `handleFbnsReceive` on a ready client: `rawFbns`, then by category a
      new follower, a follow request, or a pending thread, whose listing is
      fetched only when the thread is not yet a cached pending chat. */
  function FbnsEffect(svc: Services, st: Store, n: Notification): (o: Outcome)
    ensures |o.events| >= 1 && o.events[0] == RawFbns(n)
    ensures n.pushCategory == "direct_v2_pending" && n.actionId in st.pendingChats ==>
              o == Run(st, [RawFbns(n), PendingRequest(n.actionId)])
    ensures PendingRequest(n.actionId) in o.events ==> n.actionId in o.state.pendingChats
    ensures n.pushCategory == "new_follower" ==>
              && o.events == [RawFbns(n), NewFollower(ResolveUserId(svc, n.sourceUserId))]
              && o.state.users == FetchUser(svc, st.users, n.sourceUserId, false).users
              && o.state.chats == st.chats && o.state.pendingChats == st.pendingChats
    ensures n.pushCategory == "private_user_follow_request" ==>
              && o.events == [RawFbns(n), FollowRequest(ResolveUserId(svc, n.sourceUserId))]
              && o.state.users == FetchUser(svc, st.users, n.sourceUserId, false).users
              && o.state.chats == st.chats && o.state.pendingChats == st.pendingChats
    ensures n.pushCategory == "direct_v2_pending" ==>
              && o.state.users == st.users
              && (PendingRequest(n.actionId) in o.events <==> n.actionId in o.state.pendingChats)
              && o.events == [RawFbns(n)] + (if n.actionId in o.state.pendingChats then [PendingRequest(n.actionId)] else [])
              && (n.actionId !in st.pendingChats ==> o.state == RegisterPending(st, svc.pendingThreads))
    ensures (n.pushCategory != "new_follower" && n.pushCategory != "private_user_follow_request" &&
             n.pushCategory != "direct_v2_pending") ==> o == Run(st, [RawFbns(n)])
  {
    var raw := [RawFbns(n)];
    if n.pushCategory == "new_follower" then
      var l := FetchUser(svc, st.users, n.sourceUserId, false);
      Run(st.(users := l.users), raw + [NewFollower(l.id)])
    else if n.pushCategory == "private_user_follow_request" then
      var l := FetchUser(svc, st.users, n.sourceUserId, false);
      Run(st.(users := l.users), raw + [FollowRequest(l.id)])
    else if n.pushCategory == "direct_v2_pending" then
      var st1 := if n.actionId in st.pendingChats then st else RegisterPending(st, svc.pendingThreads);
      Run(st1, raw + if n.actionId in st1.pendingChats then [PendingRequest(n.actionId)] else [])
    else Run(st, raw)
  }

  // --------------------------------------------------------------- replay

  /** One buffered inbound item through its normal handler. */
  function InboundEffect(svc: Services, st: Store, e: Inbound): (o: Outcome)
  {
    match e
    case RealtimeEntry(topic, payload) => ReceiveEffect(svc, st, topic, payload)
    case FbnsEntry(n) => FbnsEffect(svc, st, n)
  }

  /** One buffered item, as a step of a fold; draining the buffer is the
      fold of this step over it, in arrival order. */
  function InboundStep(svc: Services): (Store, Inbound) -> Outcome
  {
    (st: Store, e: Inbound) => InboundEffect(svc, st, e)
  }

  // ------------------------------------------------ handler properties

  /** A replace of a cached thread patches that chat in place and emits the
      comparison of its snapshot with the patched chat; an unknown thread is
      created silently. No other entry changes. */
  lemma ThreadReplaceSpec(st: Store, tid: ChatId, p: ChatPayload)
    ensures var o := ThreadReplaceEffect(st, tid, p);
            && o.state.users == st.users && o.state.pendingChats == st.pendingChats
            && o.state.chats.Keys == st.chats.Keys + {tid}
            && (forall k :: k in st.chats && k != tid ==> o.state.chats[k] == st.chats[k])
            && (tid !in st.chats ==> o.state.chats[tid] == NewChat(tid, p) && o.events == [])
            && (tid in st.chats ==>
                  o.state.chats[tid] == PatchChat(st.chats[tid], p) &&
                  o.events == ChatDiff(st.chats[tid], o.state.chats[tid]))
  {
  }

  /** A replace of a cached message patches it in its chat. A like event is
      emitted only when the like comparison reports a change, after the liking
      user has been fetched, and it carries the patched message. */
  lemma MessageReplaceSpec(svc: Services, st: Store, tid: ChatId, p: MessagePayload)
    ensures var o := MessageReplaceEffect(svc, st, tid, p);
            var chat := FetchChat(svc, st.chats, tid, false)[tid];
            if p.itemId in chat.messages then
              var before := chat.messages[p.itemId];
              && o.state.chats == FetchChat(svc, st.chats, tid, false)[tid :=
                   chat.(messages := chat.messages[p.itemId := PatchMessage(before, p)])]
              && (o.events == [] <==> LikeDelta(before.likes, p.likes).NoLikeChange?)
              && |o.events| <= 1
              && (forall e :: e in o.events ==>
                    (e.LikeAdd? || e.LikeRemove?) && e.message == PatchMessage(before, p) &&
                    e.userId in o.state.users)
            else o.state == st.(chats := FetchChat(svc, st.chats, tid, false)) && o.events == []
    ensures var o := MessageReplaceEffect(svc, st, tid, p);
            var chat := FetchChat(svc, st.chats, tid, false)[tid];
            p.itemId in chat.messages ==>
              var before := chat.messages[p.itemId];
              var d := LikeDelta(before.likes, p.likes);
              && (d.NoLikeChange? ==> o.events == [] && o.state.users == st.users)
              && (d.LikeAdded? ==>
                    o.events == [LikeAdd(ResolveUserId(svc, d.userId), PatchMessage(before, p))] &&
                    o.state.users == FetchUser(svc, st.users, d.userId, false).users)
              && (d.LikeRemoved? ==>
                    o.events == [LikeRemove(ResolveUserId(svc, d.userId), PatchMessage(before, p))] &&
                    o.state.users == FetchUser(svc, st.users, d.userId, false).users)
  {
    var chats1 := FetchChat(svc, st.chats, tid, false);
    var chat := chats1[tid];
    if p.itemId in chat.messages {
      var before := chat.messages[p.itemId];
      var after := PatchMessage(before, p);
      assert after.likes == p.likes;
      var o := MessageReplaceEffect(svc, st, tid, p);
      match LikeDelta(before.likes, after.likes)
      case NoLikeChange =>
        assert o.events == [];
      case LikeAdded(u) =>
        var l := FetchUser(svc, st.users, u, false);
        assert o.events == [LikeAdd(l.id, after)] && o.state.users == l.users;
      case LikeRemoved(u) =>
        var l := FetchUser(svc, st.users, u, false);
        assert o.events == [LikeRemove(l.id, after)] && o.state.users == l.users;
    }
  }

  /** An admin add appends the user to the chat's admins, and an admin
      remove takes every occurrence of the user out; both fetch the user and
      emit one event naming it. */
  lemma AdminSpec(svc: Services, st: Store, tid: ChatId, u: UserId)
    ensures var chat := FetchChat(svc, st.chats, tid, false)[tid];
            var o := AdminAddEffect(svc, st, tid, u);
            && o.state.chats == FetchChat(svc, st.chats, tid, false)[tid :=
                 chat.(adminUserIds := AdminsAfterAdd(chat.adminUserIds, u))]
            && o.events == [ChatAdminAdd(tid, ResolveUserId(svc, u))]
            && o.state.users == FetchUser(svc, st.users, u, false).users
            && ResolveUserId(svc, u) in o.state.users
            && o.state.pendingChats == st.pendingChats
    ensures var chat := FetchChat(svc, st.chats, tid, false)[tid];
            var o := AdminRemoveEffect(svc, st, tid, u);
            && o.state.chats == FetchChat(svc, st.chats, tid, false)[tid :=
                 chat.(adminUserIds := AdminsAfterRemove(chat.adminUserIds, u))]
            && u !in o.state.chats[tid].adminUserIds
            && (forall x :: x in o.state.chats[tid].adminUserIds <==> x in chat.adminUserIds && x != u)
            && o.events == [ChatAdminRemove(tid, ResolveUserId(svc, u))]
            && o.state.users == FetchUser(svc, st.users, u, false).users
            && o.state.pendingChats == st.pendingChats
  {
  }

  /** An add of an action-log or video-call item changes no message; any
      other item is stored under its ID in the addressed chat, and
      `messageCreate` is emitted exactly when the message is valid. */
  lemma MessageAddSpec(svc: Services, st: Store, tid: ChatId, p: MessagePayload)
    ensures var o := MessageAddEffect(svc, st, tid, p);
            var chats1 := FetchChat(svc, st.chats, tid, false);
            && o.state.users == st.users
            && (IsSilentItemType(p.itemType) ==> o.state.chats == chats1 && o.events == [])
            && (!IsSilentItemType(p.itemType) ==>
                  var m := NewMessage(tid, p);
                  && o.state.chats == chats1[tid := chats1[tid].(messages := chats1[tid].messages[p.itemId := m])]
                  && (o.events == (if svc.isMessageValid(m) then [MessageCreate(m)] else [])))
  {
  }

  /** A remove of a message path changes no chat's messages. It emits
      `messageDelete` with the cached copy exactly when the ID is cached. */
  lemma MessageRemoveSpec(svc: Services, st: Store, tid: ChatId, id: MessageId)
    ensures var o := MessageRemoveEffect(svc, st, tid, id);
            && o.state == st.(chats := FetchChat(svc, st.chats, tid, false))
            && (forall k :: k in st.chats ==> o.state.chats[k].messages == st.chats[k].messages)
            && (id in o.state.chats[tid].messages ==> o.events == [MessageDelete(o.state.chats[tid].messages[id])])
            && (id !in o.state.chats[tid].messages ==> o.events == [])
  {
  }

  /** Replaying the same thread patch changes nothing and emits nothing. */
  lemma ThreadReplaceIdempotent(st: Store, tid: ChatId, p: ChatPayload)
    ensures var o := ThreadReplaceEffect(st, tid, p);
            ThreadReplaceEffect(o.state, tid, p) == Run(o.state, [])
  {
    var o := ThreadReplaceEffect(st, tid, p);
    var c := o.state.chats[tid];
    assert PatchChat(c, p) == c;
    assert o.state.chats[tid := c] == o.state.chats;
  }

  /** Replaying the same message patch changes nothing and emits nothing:
      the likes compare equal the second time. */
  lemma MessageReplaceIdempotent(svc: Services, st: Store, tid: ChatId, p: MessagePayload)
    ensures var o := MessageReplaceEffect(svc, st, tid, p);
            MessageReplaceEffect(svc, o.state, tid, p) == Run(o.state, [])
  {
    var chats1 := FetchChat(svc, st.chats, tid, false);
    var chat := chats1[tid];
    var o := MessageReplaceEffect(svc, st, tid, p);
    MessageReplaceSpec(svc, st, tid, p);
    var chat1 := o.state.chats[tid];
    assert FetchChat(svc, o.state.chats, tid, false) == o.state.chats;
    if p.itemId in chat.messages {
      var m := PatchMessage(chat.messages[p.itemId], p);
      assert chat1 == chat.(messages := chat.messages[p.itemId := m]);
      assert PatchMessage(m, p) == m;
      assert LikeDelta(m.likes, p.likes) == NoLikeChange;
      assert chat1.messages[p.itemId := m] == chat1.messages;
      assert chat1.(messages := chat1.messages) == chat1;
      assert o.state.chats[tid := chat1] == o.state.chats;
      assert o.state.(chats := o.state.chats) == o.state;
    } else {
      assert chat1 == chat;
    }
  }

  /** As written, an admin remove leaves the caches exactly as an admin add
      of the same user would. */
  lemma AdminRemoveAsWrittenActsAsAdd(svc: Services, st: Store, tid: ChatId, u: UserId)
    ensures AdminRemoveEffectAsWritten(svc, st, tid, u).state == AdminAddEffect(svc, st, tid, u).state
    ensures AdminRemoveEffectAsWritten(svc, st, tid, u).state != AdminRemoveEffect(svc, st, tid, u).state
  {
    var o := AdminRemoveEffect(svc, st, tid, u);
    assert u !in o.state.chats[tid].adminUserIds;
  }

  /** Where the like comparison as written faults (Client.js:222), the
      message has already been patched and no event has been emitted: the
      corrected handler leaves the same caches and emits nothing, without
      fetching a user. */
  lemma MessageReplaceAtFault(svc: Services, st: Store, tid: ChatId, p: MessagePayload)
    requires var chat := FetchChat(svc, st.chats, tid, false)[tid];
             p.itemId in chat.messages && LikeDeltaAsWritten(chat.messages[p.itemId].likes, p.likes).None?
    ensures var o := MessageReplaceEffect(svc, st, tid, p);
            var chats1 := FetchChat(svc, st.chats, tid, false);
            var chat := chats1[tid];
            && o.events == [] && o.state.users == st.users
            && o.state.chats == chats1[tid := chat.(messages := chat.messages[p.itemId := PatchMessage(chat.messages[p.itemId], p)])]
  {
    var chat := FetchChat(svc, st.chats, tid, false)[tid];
    var before := chat.messages[p.itemId];
    assert LikeDelta(before.likes, p.likes).NoLikeChange?;
  }

  // ------------------------------------------------------ well-formedness

  lemma ThreadReplaceWellFormed(st: Store, tid: ChatId, p: ChatPayload)
    requires WellFormed(st)
    ensures WellFormed(ThreadReplaceEffect(st, tid, p).state)
  {
    var r := ThreadReplaceEffect(st, tid, p).state;
    forall k | k in r.chats
      ensures ChatWellFormed(k, r.chats[k]) && Distinct(r.chats[k].users)
    {
      if k != tid {
        assert r.chats[k] == st.chats[k];
      }
    }
  }

  lemma MessageReplaceWellFormed(svc: Services, st: Store, tid: ChatId, p: MessagePayload)
    requires WellFormed(st)
    ensures WellFormed(MessageReplaceEffect(svc, st, tid, p).state)
  {
    var chats1 := FetchChat(svc, st.chats, tid, false);
    FetchChatWellFormed(svc, st.chats, tid, false);
    var chat := chats1[tid];
    if p.itemId in chat.messages {
      var r := MessageReplaceEffect(svc, st, tid, p).state;
      var after := PatchMessage(chat.messages[p.itemId], p);
      assert r.chats == chats1[tid := chat.(messages := chat.messages[p.itemId := after])];
      assert ChatWellFormed(tid, r.chats[tid]);
    }
  }

  /** A chat whose messages are untouched keeps its well-formedness. */
  lemma OnlyAdminsChangedWellFormed(chats1: map<ChatId, Chat>, tid: ChatId, admins: seq<UserId>)
    requires tid in chats1 && ChatsWellFormed(chats1)
    ensures ChatsWellFormed(chats1[tid := chats1[tid].(adminUserIds := admins)])
  {
  }

  lemma AdminWellFormed(svc: Services, st: Store, tid: ChatId, u: UserId)
    requires WellFormed(st)
    ensures WellFormed(AdminAddEffect(svc, st, tid, u).state)
    ensures WellFormed(AdminRemoveEffect(svc, st, tid, u).state)
  {
    var chats1 := FetchChat(svc, st.chats, tid, false);
    FetchChatWellFormed(svc, st.chats, tid, false);
    OnlyAdminsChangedWellFormed(chats1, tid, AdminsAfterAdd(chats1[tid].adminUserIds, u));
    OnlyAdminsChangedWellFormed(chats1, tid, AdminsAfterRemove(chats1[tid].adminUserIds, u));
  }

  lemma MessageAddWellFormed(svc: Services, st: Store, tid: ChatId, p: MessagePayload)
    requires WellFormed(st)
    ensures WellFormed(MessageAddEffect(svc, st, tid, p).state)
  {
    var chats1 := FetchChat(svc, st.chats, tid, false);
    FetchChatWellFormed(svc, st.chats, tid, false);
    if !IsSilentItemType(p.itemType) {
      var chat := chats1[tid];
      var m := NewMessage(tid, p);
      assert MessageAddEffect(svc, st, tid, p).state.chats == chats1[tid := chat.(messages := chat.messages[m.id := m])];
      assert ChatWellFormed(tid, chat.(messages := chat.messages[m.id := m]));
    }
  }

  /** No realtime record breaks the identity invariant of the store. */
  lemma RecordEffectWellFormed(svc: Services, st: Store, rec: Record)
    requires WellFormed(st)
    ensures WellFormed(RecordEffect(svc, st, rec).state)
  {
    var o := RecordEffect(svc, st, rec);
    match RouteOf(rec)
    case ThreadReplace(tid, p) =>
      ThreadReplaceWellFormed(st, tid, p);
      assert o == ThreadReplaceEffect(st, tid, p);
    case MessageReplace(tid, p) =>
      MessageReplaceWellFormed(svc, st, tid, p);
      assert o == MessageReplaceEffect(svc, st, tid, p);
    case AdminAdd(tid, u) =>
      AdminWellFormed(svc, st, tid, u);
      assert o == AdminAddEffect(svc, st, tid, u);
    case MessageAdd(tid, p) =>
      MessageAddWellFormed(svc, st, tid, p);
      assert o == MessageAddEffect(svc, st, tid, p);
    case AdminRemove(tid, u) =>
      AdminWellFormed(svc, st, tid, u);
      assert o == AdminRemoveEffect(svc, st, tid, u);
    case MessageRemove(tid, id) =>
      FetchChatWellFormed(svc, st.chats, tid, false);
      assert o.state == st.(chats := FetchChat(svc, st.chats, tid, false));
    case Unrouted =>
  }

  /** The way a realtime record may change the store: no cached chat or
      user is dropped and the pending chats are not touched. */
  predicate Grows(st: Store, o: Outcome)
  {
    && o.state.pendingChats == st.pendingChats
    && st.chats.Keys <= o.state.chats.Keys
    && st.users.Keys <= o.state.users.Keys
  }

  lemma ThreadReplaceGrows(st: Store, tid: ChatId, p: ChatPayload)
    ensures Grows(st, ThreadReplaceEffect(st, tid, p))
  {
  }

  lemma AdminGrows(svc: Services, st: Store, tid: ChatId, u: UserId)
    ensures Grows(st, AdminAddEffect(svc, st, tid, u)) && Grows(st, AdminRemoveEffect(svc, st, tid, u))
  {
  }

  lemma MessageAddGrows(svc: Services, st: Store, tid: ChatId, p: MessagePayload)
    ensures Grows(st, MessageAddEffect(svc, st, tid, p))
  {
  }

  lemma MessageReplaceGrows(svc: Services, st: Store, tid: ChatId, p: MessagePayload)
    ensures Grows(st, MessageReplaceEffect(svc, st, tid, p))
  {
  }

  /** A realtime record never drops a cached chat or user and never touches
      the pending chats; a record no handler accepts changes nothing. */
  lemma RecordEffectFrame(svc: Services, st: Store, rec: Record)
    ensures Grows(st, RecordEffect(svc, st, rec))
    ensures RouteOf(rec).Unrouted? ==> RecordEffect(svc, st, rec) == Run(st, [])
  {
    var o := RecordEffect(svc, st, rec);
    match RouteOf(rec)
    case ThreadReplace(tid, p) =>
      ThreadReplaceGrows(st, tid, p);
      assert o == ThreadReplaceEffect(st, tid, p);
    case MessageReplace(tid, p) =>
      MessageReplaceGrows(svc, st, tid, p);
      assert o == MessageReplaceEffect(svc, st, tid, p);
    case AdminAdd(tid, u) =>
      AdminGrows(svc, st, tid, u);
      assert o == AdminAddEffect(svc, st, tid, u);
    case MessageAdd(tid, p) =>
      MessageAddGrows(svc, st, tid, p);
      assert o == MessageAddEffect(svc, st, tid, p);
    case AdminRemove(tid, u) =>
      AdminGrows(svc, st, tid, u);
      assert o == AdminRemoveEffect(svc, st, tid, u);
    case MessageRemove(tid, id) =>
      assert o.state == st.(chats := FetchChat(svc, st.chats, tid, false));
    case Unrouted =>
  }

  lemma {:induction false} RegisterPendingWellFormed(st: Store, threads: seq<Thread>)
    requires WellFormed(st)
    ensures WellFormed(RegisterPending(st, threads))
    decreases |threads|
  {
    if threads != [] {
      var prev := RegisterPending(st, threads[..|threads| - 1]);
      var t := threads[|threads| - 1];
      var chat := NewChat(t.threadId, t.payload);
      RegisterPendingWellFormed(st, threads[..|threads| - 1]);
      assert RegisterPending(st, threads) ==
             Store(prev.users, prev.chats[t.threadId := chat], prev.pendingChats[t.threadId := chat]);
      assert ChatWellFormed(t.threadId, chat) && Distinct(chat.users);
    }
  }

  lemma FbnsEffectWellFormed(svc: Services, st: Store, n: Notification)
    requires WellFormed(st)
    ensures WellFormed(FbnsEffect(svc, st, n).state)
  {
    if n.pushCategory == "new_follower" || n.pushCategory == "private_user_follow_request" {
      var l := FetchUser(svc, st.users, n.sourceUserId, false);
      assert FbnsEffect(svc, st, n).state == st.(users := l.users);
    } else if n.pushCategory == "direct_v2_pending" && n.actionId !in st.pendingChats {
      RegisterPendingWellFormed(st, svc.pendingThreads);
      assert FbnsEffect(svc, st, n).state == RegisterPending(st, svc.pendingThreads);
    }
  }

  /** The identity invariant holds after any run of records. */
  lemma {:induction false} RecordsWellFormed(svc: Services, o: Outcome, data: seq<Record>)
    requires WellFormed(o.state)
    ensures WellFormed(Fold(RecordStep(svc), o, data).state)
    decreases |data|
  {
    if data != [] {
      var front, last := data[..|data| - 1], data[|data| - 1];
      RecordsWellFormed(svc, o, front);
      var prev := Fold(RecordStep(svc), o, front);
      RecordEffectWellFormed(svc, prev.state, last);
      assert RecordStep(svc)(prev.state, last) == RecordEffect(svc, prev.state, last);
    }
  }

  /** ... and after any run of batches. */
  lemma {:induction false} BatchesWellFormed(svc: Services, o: Outcome, payload: seq<RawMessage>)
    requires WellFormed(o.state)
    ensures WellFormed(Fold(BatchStep(svc), o, payload).state)
    decreases |payload|
  {
    if payload != [] {
      var front, last := payload[..|payload| - 1], payload[|payload| - 1];
      BatchesWellFormed(svc, o, front);
      var prev := Fold(BatchStep(svc), o, front);
      RecordsWellFormed(svc, Run(prev.state, []), last.data);
      assert BatchStep(svc)(prev.state, last) == Fold(RecordStep(svc), Run(prev.state, []), last.data);
    }
  }

  /** A realtime delivery keeps the identity invariant. */
  lemma ReceiveWellFormed(svc: Services, st: Store, topic: Topic, payload: seq<RawMessage>)
    requires WellFormed(st)
    ensures WellFormed(ReceiveEffect(svc, st, topic, payload).state)
  {
    if topic.id == "146" {
      BatchesWellFormed(svc, Run(st, [RawRealtime(topic, payload)]), payload);
    }
  }

  /** Replaying a buffer keeps the identity invariant. */
  lemma {:induction false} ReplayWellFormed(svc: Services, o: Outcome, buffer: seq<Inbound>)
    requires WellFormed(o.state)
    ensures WellFormed(Fold(InboundStep(svc), o, buffer).state)
    decreases |buffer|
  {
    if buffer != [] {
      var front, last := buffer[..|buffer| - 1], buffer[|buffer| - 1];
      ReplayWellFormed(svc, o, front);
      var prev := Fold(InboundStep(svc), o, front);
      assert InboundStep(svc)(prev.state, last) == InboundEffect(svc, prev.state, last);
      match last
      case RealtimeEntry(topic, payload) => ReceiveWellFormed(svc, prev.state, topic, payload);
      case FbnsEntry(n) => FbnsEffectWellFormed(svc, prev.state, n);
    }
  }

  // -------------------------------------------------------------- example

  /** A member joining a chat while a call starts: the patch of a cached chat
      with members a and b, not in a call, to members a, b and c in a call,
      under the same name, emits exactly `chatUserAdd` for c, then
      `callStart`. */
  lemma JoinDuringCallExample(st: Store, tid: ChatId, a: UserId, b: UserId, c: UserId, p: ChatPayload)
    requires a != b && a != c && b != c
    requires tid in st.chats && st.chats[tid].id == tid
    requires st.chats[tid].users == [a, b] && !st.chats[tid].calling
    requires p.name == st.chats[tid].name && p.users == [a, b, c] && p.calling
    ensures ThreadReplaceEffect(st, tid, p).events == [ChatUserAdd(tid, c), CallStart(tid)]
  {
    var before := st.chats[tid];
    var after := PatchChat(before, p);
    assert Distinct(p.users);
    MemberKeysOfDistinct(p.users);
    assert after.users == [a, b, c];
    NewcomerIsFound(a, b, c);
    ChatDiffParts(before, after);
    assert NameDiff(before, after) == [];
    assert MemberDiff(before, after) == [ChatUserAdd(tid, c)];
    assert CallDiff(before, after) == [CallStart(tid)];
    assert ThreadReplaceEffect(st, tid, p).events == ChatDiff(before, after);
  }

  lemma NewcomerIsFound(a: UserId, b: UserId, c: UserId)
    requires a != b && a != c && b != c
    ensures FirstMissing([a, b, c], [a, b]) == Some(c)
  {
    var ys := [a, b];
    assert [a, b, c][1..] == [b, c] && [b, c][1..] == [c];
    assert a in ys && b in ys && c !in ys;
    assert FirstMissing([c], ys) == Some(c);
    assert FirstMissing([b, c], ys) == FirstMissing([c], ys);
  }

  lemma ChatDiffParts(before: Chat, after: Chat)
    ensures ChatDiff(before, after) == NameDiff(before, after) + MemberDiff(before, after) + CallDiff(before, after)
  {
  }
}
