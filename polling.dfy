/** The polling fallback: one poll cycle over the inbox listing, guarded by
    the `lastPolledTimestamp` watermark, and the randomised delay between
    cycles. Timestamps are integers in microseconds. */
module Polling {
  import opened Entities
  import opened Folds

  // ------------------------------------------------------ new items

  /** The items strictly newer than the watermark, in listing order. */
  function NewerThan(items: seq<MessagePayload>, mark: int): (r: seq<MessagePayload>)
    ensures forall x :: x in r <==> x in items && x.timestamp > mark
    decreases |items|
  {
    if items == [] then []
    else
      var front, last := items[..|items| - 1], items[|items| - 1];
      assert items == front + [last];
      var r := NewerThan(front, mark);
      if last.timestamp > mark then r + [last] else r
  }

  /** With nothing newer than the watermark, nothing is kept. */
  lemma {:induction false} NewerThanNone(items: seq<MessagePayload>, mark: int)
    requires forall x :: x in items ==> x.timestamp <= mark
    ensures NewerThan(items, mark) == []
    decreases |items|
  {
    if items != [] {
      var front := items[..|items| - 1];
      assert items == front + [items[|items| - 1]];
      NewerThanNone(front, mark);
    }
  }

  /** Each newer item is kept as often as it is listed, every other dropped. */
  lemma {:induction false} NewerThanCounts(items: seq<MessagePayload>, mark: int)
    ensures forall x :: multiset(NewerThan(items, mark))[x] == if x.timestamp > mark then multiset(items)[x] else 0
    decreases |items|
  {
    if items != [] {
      var front, last := items[..|items| - 1], items[|items| - 1];
      assert items == front + [last];
      NewerThanCounts(front, mark);
    }
  }

  /** Ascending by `key`. */
  predicate SortedBy<T>(s: seq<T>, key: T -> int)
  {
    forall i, j :: 0 <= i < j < |s| ==> key(s[i]) <= key(s[j])
  }

  /** A sorted list stays sorted when an element whose key is not larger than
      any of its keys is put in front. */
  lemma SortedCons<T>(y: T, s: seq<T>, key: T -> int)
    requires SortedBy(s, key) && forall z :: z in s ==> key(y) <= key(z)
    ensures SortedBy([y] + s, key)
  {
    var r := [y] + s;
    forall i, j | 0 <= i < j < |r|
      ensures key(r[i]) <= key(r[j])
    {
      assert r[j] == s[j - 1];
      if i > 0 {
        assert r[i] == s[i - 1];
      }
    }
  }

  /** `x` placed after every element whose key is not larger. */
  function Insert<T>(x: T, s: seq<T>, key: T -> int): (r: seq<T>)
    decreases |s|
  {
    if s == [] then [x]
    else if key(x) < key(s[0]) then [x] + s
    else [s[0]] + Insert(x, s[1..], key)
  }

  /** Insertion adds `x` and loses nothing. */
  lemma {:induction false} InsertPermutes<T>(x: T, s: seq<T>, key: T -> int)
    ensures multiset(Insert(x, s, key)) == multiset(s) + multiset{x}
    decreases |s|
  {
    if s != [] && key(x) >= key(s[0]) {
      assert s == [s[0]] + s[1..];
      InsertPermutes(x, s[1..], key);
    }
  }

  /** Insertion into a sorted list keeps it sorted. */
  lemma {:induction false} InsertSorted<T>(x: T, s: seq<T>, key: T -> int)
    requires SortedBy(s, key)
    ensures SortedBy(Insert(x, s, key), key)
    decreases |s|
  {
    if s != [] {
      var tail := s[1..];
      if key(x) < key(s[0]) {
        forall z | z in s ensures key(x) <= key(z) {
          var i :| 0 <= i < |s| && s[i] == z;
        }
        SortedCons(x, s, key);
      } else {
        assert SortedBy(tail, key);
        InsertSorted(x, tail, key);
        InsertPermutes(x, tail, key);
        var r := Insert(x, tail, key);
        forall z | z in r
          ensures key(s[0]) <= key(z)
        {
          assert z in multiset(r);
          assert z in multiset(tail) || z == x;
          if z != x {
            assert z in tail;
            var i :| 0 <= i < |tail| && tail[i] == z;
            assert s[i + 1] == z;
          }
        }
        SortedCons(s[0], r, key);
      }
    }
  }

  /** A stable insertion sort by `key`: the result is ascending. */
  function SortBy<T>(s: seq<T>, key: T -> int): (r: seq<T>)
    ensures SortedBy(r, key)
    decreases |s|
  {
    if s == [] then []
    else
      InsertSorted(s[|s| - 1], SortBy(s[..|s| - 1], key), key);
      Insert(s[|s| - 1], SortBy(s[..|s| - 1], key), key)
  }

  /** The sort is a permutation of its input. */
  lemma {:induction false} SortByPermutes<T>(s: seq<T>, key: T -> int)
    ensures multiset(SortBy(s, key)) == multiset(s)
    decreases |s|
  {
    if s != [] {
      var front := s[..|s| - 1];
      assert s == front + [s[|s| - 1]];
      SortByPermutes(front, key);
      InsertPermutes(s[|s| - 1], SortBy(front, key), key);
    }
  }

  function Timestamp(p: MessagePayload): (t: int)
  {
    p.timestamp
  }

  predicate SortedByTimestamp(s: seq<MessagePayload>)
  {
    forall i, j :: 0 <= i < j < |s| ==> s[i].timestamp <= s[j].timestamp
  }

  /** The items one thread contributes to a cycle, in the order processed. */
  function NewItems(items: seq<MessagePayload>, mark: int): (r: seq<MessagePayload>)
    ensures SortedByTimestamp(r)
    ensures forall x :: x in r <==> x in items && x.timestamp > mark
  {
    var f := NewerThan(items, mark);
    var r := SortBy(f, Timestamp);
    SortByPermutes(f, Timestamp);
    assert forall i, j :: 0 <= i < j < |r| ==> Timestamp(r[i]) <= Timestamp(r[j]);
    assert forall x :: x in r <==> x in multiset(f);
    r
  }

  /** The processed items are a permutation of the newer listed items. */
  lemma NewItemsCounts(items: seq<MessagePayload>, mark: int)
    ensures forall x :: multiset(NewItems(items, mark))[x] == if x.timestamp > mark then multiset(items)[x] else 0
  {
    NewerThanCounts(items, mark);
    SortByPermutes(NewerThan(items, mark), Timestamp);
  }

  // ----------------------------------------------------------- one thread

  /** The chat being filled and the watermark, inside one thread's loop. */
  datatype Cursor = Cursor(chat: Chat, mark: int)

  /** One new item: stored as a message of chat `tid` under its ID,
      announced when valid, and the watermark moved to its timestamp. */
  function StoreItem(svc: Services, tid: ChatId, c: Cursor, item: MessagePayload): (r: Run<Cursor, Event>)
  {
    var m := NewMessage(tid, item);
    Run(Cursor(c.chat.(messages := c.chat.messages[m.id := m]), item.timestamp),
        if svc.isMessageValid(m) then [MessageCreate(m)] else [])
  }

  function ItemStep(svc: Services, tid: ChatId): (Cursor, MessagePayload) -> Run<Cursor, Event>
  {
    (c: Cursor, item: MessagePayload) => StoreItem(svc, tid, c, item)
  }

  /** The `messageCreate` events for `items`, in their order: one for each
      item that makes a valid message. */
  function Created(svc: Services, tid: ChatId, items: seq<MessagePayload>): (evs: seq<Event>)
    ensures |evs| <= |items|
    ensures forall e :: e in evs ==> e.MessageCreate? && svc.isMessageValid(e.message) &&
                                     exists x :: x in items && e.message == NewMessage(tid, x)
    ensures forall x :: x in items && svc.isMessageValid(NewMessage(tid, x)) ==> MessageCreate(NewMessage(tid, x)) in evs
    decreases |items|
  {
    if items == [] then []
    else
      var front, last := items[..|items| - 1], items[|items| - 1];
      var m := NewMessage(tid, last);
      var r := Created(svc, tid, front);
      assert forall x :: x in items ==> x in front || x == last;
      if svc.isMessageValid(m) then r + [MessageCreate(m)] else r
  }

  /** The loop over one thread's new items. */
  function ItemsRun(svc: Services, tid: ChatId, c: Cursor, items: seq<MessagePayload>): (r: Run<Cursor, Event>)
  {
    Fold(ItemStep(svc, tid), Run(c, []), items)
  }

  /** One more item is one more `StoreItem` on the state reached so far. */
  lemma ItemsRunStep(svc: Services, tid: ChatId, c: Cursor, items: seq<MessagePayload>, j: int)
    requires 0 <= j < |items|
    ensures var prev := ItemsRun(svc, tid, c, items[..j]);
            var st := StoreItem(svc, tid, prev.state, items[j]);
            ItemsRun(svc, tid, c, items[..j + 1]) == Run(st.state, prev.events + st.events)
  {
    FoldPrefix(ItemStep(svc, tid), Run(c, []), items, j);
  }

  /** The snapshot fields of the chat are untouched and the watermark ends at
      the last item's timestamp. */
  lemma {:induction false} ItemsRunMark(svc: Services, tid: ChatId, c: Cursor, items: seq<MessagePayload>)
    ensures ItemsRun(svc, tid, c, items).state.chat == c.chat.(messages := ItemsRun(svc, tid, c, items).state.chat.messages)
    ensures ItemsRun(svc, tid, c, items).state.mark == if items == [] then c.mark else items[|items| - 1].timestamp
    decreases |items|
  {
    if items != [] {
      ItemsRunMark(svc, tid, c, items[..|items| - 1]);
    }
  }

  /** The item loop stores every item under its ID as a message of the chat,
      the last of equal IDs winning, and leaves every other message alone. */
  lemma {:induction false} ItemsRunMessages(svc: Services, tid: ChatId, c: Cursor, items: seq<MessagePayload>)
    ensures var ms := ItemsRun(svc, tid, c, items).state.chat.messages;
            && ms.Keys == c.chat.messages.Keys + (set x | x in items :: x.itemId)
            && (forall k :: k in c.chat.messages && (forall x :: x in items ==> x.itemId != k) ==>
                  ms[k] == c.chat.messages[k])
            && (items != [] ==> ms[items[|items| - 1].itemId] == NewMessage(tid, items[|items| - 1]))
            && (forall k :: k in ms && k !in c.chat.messages ==>
                  exists x :: x in items && ms[k] == NewMessage(tid, x))
    decreases |items|
  {
    if items != [] {
      var front, last := items[..|items| - 1], items[|items| - 1];
      ItemsRunMessages(svc, tid, c, front);
      var prev := ItemsRun(svc, tid, c, front);
      assert ItemsRun(svc, tid, c, items) == Next(ItemStep(svc, tid), prev, last);
      assert ItemsRun(svc, tid, c, items).state.chat.messages ==
             prev.state.chat.messages[last.itemId := NewMessage(tid, last)];
      assert forall x :: x in items <==> x in front || x == last;
      assert (set x | x in items :: x.itemId) == (set x | x in front :: x.itemId) + {last.itemId};
    }
  }

  /** Item `i` is the last of the list with its ID. */
  predicate LastWithItemId(items: seq<MessagePayload>, i: int)
    requires 0 <= i < |items|
  {
    forall j :: i < j < |items| ==> items[j].itemId != items[i].itemId
  }

  /** Every item that is the last with its ID leaves its own message under
      that ID, whether or not the ID was cached before. */
  lemma {:induction false} ItemsRunLastWins(svc: Services, tid: ChatId, c: Cursor, items: seq<MessagePayload>, i: int)
    requires 0 <= i < |items| && LastWithItemId(items, i)
    ensures var ms := ItemsRun(svc, tid, c, items).state.chat.messages;
            items[i].itemId in ms && ms[items[i].itemId] == NewMessage(tid, items[i])
    decreases |items|
  {
    var n := |items| - 1;
    var front := items[..n];
    var prev := ItemsRun(svc, tid, c, front);
    assert ItemsRun(svc, tid, c, items) == Next(ItemStep(svc, tid), prev, items[n]);
    assert ItemsRun(svc, tid, c, items).state.chat.messages ==
           prev.state.chat.messages[items[n].itemId := NewMessage(tid, items[n])];
    if i < n {
      assert LastWithItemId(front, i) by {
        forall j | i < j < n
          ensures front[j].itemId != front[i].itemId
        {
          assert front[j] == items[j];
        }
      }
      ItemsRunLastWins(svc, tid, c, front, i);
      assert items[n].itemId != items[i].itemId;
    }
  }

  /** The item loop announces exactly the valid items, in their order. */
  lemma {:induction false} ItemsRunEvents(svc: Services, tid: ChatId, c: Cursor, items: seq<MessagePayload>)
    ensures ItemsRun(svc, tid, c, items).events == Created(svc, tid, items)
    decreases |items|
  {
    if items != [] {
      var front, last := items[..|items| - 1], items[|items| - 1];
      ItemsRunEvents(svc, tid, c, front);
    }
  }

  // ------------------------------------------------------------ one cycle

  /** The chat cache and the watermark between threads of a cycle. */
  datatype PollState = PollState(chats: map<ChatId, Chat>, mark: int)

  /** The chat a thread's items go to: the cached one, or a new one built
      from the listing. */
  function PolledChats(chats: map<ChatId, Chat>, t: Thread): (r: map<ChatId, Chat>)
    ensures t.threadId in r && r.Keys == chats.Keys + {t.threadId}
    ensures t.threadId in chats ==> r == chats
    ensures t.threadId !in chats ==> r[t.threadId] == NewChat(t.threadId, t.payload)
    ensures forall k :: k in chats ==> r[k] == chats[k]
  {
    if t.threadId in chats then chats else chats[t.threadId := NewChat(t.threadId, t.payload)]
  }

  /** One thread of the inbox listing: its chat is created when missing, its
      items newer than the watermark at the start of the thread are processed
      in ascending order, and the chat is stored back. */
  function PollThread(svc: Services, s: PollState, t: Thread): (r: Run<PollState, Event>)
  {
    var chats1 := PolledChats(s.chats, t);
    var inner := ItemsRun(svc, t.threadId, Cursor(chats1[t.threadId], s.mark), NewItems(t.items, s.mark));
    Run(PollState(chats1[t.threadId := inner.state.chat], inner.state.mark), inner.events)
  }

  function ThreadStep(svc: Services): (PollState, Thread) -> Run<PollState, Event>
  {
    (s: PollState, t: Thread) => PollThread(svc, s, t)
  }

  /** A polled thread's chat is cached, its snapshot fields are those of the
      cached (or newly built) chat, and every other chat is untouched. */
  lemma PollThreadChats(svc: Services, s: PollState, t: Thread)
    ensures var r := PollThread(svc, s, t);
            var base := PolledChats(s.chats, t)[t.threadId];
            && r.state.chats.Keys == s.chats.Keys + {t.threadId}
            && (forall k :: k in s.chats && k != t.threadId ==> r.state.chats[k] == s.chats[k])
            && r.state.chats[t.threadId] == base.(messages := r.state.chats[t.threadId].messages)
  {
    var chats1 := PolledChats(s.chats, t);
    ItemsRunMark(svc, t.threadId, Cursor(chats1[t.threadId], s.mark), NewItems(t.items, s.mark));
  }

  /** Exactly the items newer than the watermark are stored, each under its ID. */
  lemma PollThreadMessages(svc: Services, s: PollState, t: Thread)
    ensures var r := PollThread(svc, s, t);
            var base := PolledChats(s.chats, t)[t.threadId];
            r.state.chats[t.threadId].messages.Keys ==
              base.messages.Keys + (set x | x in t.items && x.timestamp > s.mark :: x.itemId)
  {
    var chats1 := PolledChats(s.chats, t);
    var newer := NewItems(t.items, s.mark);
    ItemsRunMessages(svc, t.threadId, Cursor(chats1[t.threadId], s.mark), newer);
    assert (set x | x in newer :: x.itemId) == (set x | x in t.items && x.timestamp > s.mark :: x.itemId);
  }

  /** Each new item that is the last of the sorted new items with its ID
      leaves its own message in the thread's chat, replacing any message
      cached under that ID. */
  lemma PollThreadValue(svc: Services, s: PollState, t: Thread, i: int)
    requires 0 <= i < |NewItems(t.items, s.mark)| && LastWithItemId(NewItems(t.items, s.mark), i)
    ensures var newer := NewItems(t.items, s.mark);
            var ms := PollThread(svc, s, t).state.chats[t.threadId].messages;
            newer[i].itemId in ms && ms[newer[i].itemId] == NewMessage(t.threadId, newer[i])
  {
    var chats1 := PolledChats(s.chats, t);
    var newer := NewItems(t.items, s.mark);
    var inner := ItemsRun(svc, t.threadId, Cursor(chats1[t.threadId], s.mark), newer);
    assert PollThread(svc, s, t).state.chats[t.threadId] == inner.state.chat;
    ItemsRunLastWins(svc, t.threadId, Cursor(chats1[t.threadId], s.mark), newer, i);
  }

  /** A message of the thread's chat that no new item names keeps its value. */
  lemma PollThreadKeeps(svc: Services, s: PollState, t: Thread, k: MessageId)
    requires var base := PolledChats(s.chats, t)[t.threadId];
             k in base.messages && forall x :: x in t.items && x.timestamp > s.mark ==> x.itemId != k
    ensures var ms := PollThread(svc, s, t).state.chats[t.threadId].messages;
            k in ms && ms[k] == PolledChats(s.chats, t)[t.threadId].messages[k]
  {
    var chats1 := PolledChats(s.chats, t);
    var newer := NewItems(t.items, s.mark);
    var inner := ItemsRun(svc, t.threadId, Cursor(chats1[t.threadId], s.mark), newer);
    assert PollThread(svc, s, t).state.chats[t.threadId] == inner.state.chat;
    ItemsRunMessages(svc, t.threadId, Cursor(chats1[t.threadId], s.mark), newer);
    assert forall x :: x in newer ==> x.itemId != k;
  }

  /** The valid new items are announced, in ascending timestamp order. */
  lemma PollThreadEvents(svc: Services, s: PollState, t: Thread)
    ensures PollThread(svc, s, t).events == Created(svc, t.threadId, NewItems(t.items, s.mark))
  {
    var chats1 := PolledChats(s.chats, t);
    ItemsRunEvents(svc, t.threadId, Cursor(chats1[t.threadId], s.mark), NewItems(t.items, s.mark));
  }

  /** The last element of a sorted list has the largest timestamp. */
  lemma SortedLastIsMax(s: seq<MessagePayload>)
    requires SortedByTimestamp(s) && s != []
    ensures forall x :: x in s ==> x.timestamp <= s[|s| - 1].timestamp
  {
    forall x | x in s
      ensures x.timestamp <= s[|s| - 1].timestamp
    {
      var i :| 0 <= i < |s| && s[i] == x;
    }
  }

  /** The watermark never goes down, and ends at the largest timestamp
      processed; with nothing new it stays where it was. */
  lemma PollThreadMark(svc: Services, s: PollState, t: Thread)
    ensures var r := PollThread(svc, s, t);
            && r.state.mark >= s.mark
            && (forall x :: x in t.items && x.timestamp > s.mark ==> x.timestamp <= r.state.mark)
            && (NewItems(t.items, s.mark) != [] ==>
                  exists x :: x in t.items && x.timestamp > s.mark && x.timestamp == r.state.mark)
            && (NewItems(t.items, s.mark) == [] ==> r.state.mark == s.mark)
  {
    var chats1 := PolledChats(s.chats, t);
    var newer := NewItems(t.items, s.mark);
    ItemsRunMark(svc, t.threadId, Cursor(chats1[t.threadId], s.mark), newer);
    if newer != [] {
      SortedLastIsMax(newer);
      assert newer[|newer| - 1] in newer;
    }
  }

  /** Storing items keeps a chat in agreement with its messages. */
  lemma {:induction false} ItemsRunWellFormed(svc: Services, tid: ChatId, c: Cursor, items: seq<MessagePayload>)
    requires ChatWellFormed(tid, c.chat)
    ensures ChatWellFormed(tid, ItemsRun(svc, tid, c, items).state.chat)
    decreases |items|
  {
    if items != [] {
      var front := items[..|items| - 1];
      ItemsRunWellFormed(svc, tid, c, front);
      var prev := ItemsRun(svc, tid, c, front);
      assert ItemsRun(svc, tid, c, items) == Next(ItemStep(svc, tid), prev, items[|items| - 1]);
    }
  }

  /** A polled thread keeps the chat cache well formed. */
  lemma PollThreadWellFormed(svc: Services, s: PollState, t: Thread)
    requires ChatsWellFormed(s.chats)
    ensures ChatsWellFormed(PollThread(svc, s, t).state.chats)
  {
    var chats1 := PolledChats(s.chats, t);
    var c := Cursor(chats1[t.threadId], s.mark);
    var newer := NewItems(t.items, s.mark);
    ItemsRunWellFormed(svc, t.threadId, c, newer);
    ItemsRunMark(svc, t.threadId, c, newer);
    var r := PollThread(svc, s, t).state.chats;
    forall k | k in r
      ensures ChatWellFormed(k, r[k]) && Distinct(r[k].users)
    {
      if k != t.threadId {
        assert r[k] == s.chats[k];
      }
    }
  }

  /** The poll cycle over an inbox listing, thread by thread. */
  function PollCycle(svc: Services, s: PollState, inbox: seq<Thread>): (r: Run<PollState, Event>)
  {
    Fold(ThreadStep(svc), Run(s, []), inbox)
  }

  /** One more listed thread is one more `PollThread` on the state reached
      so far. */
  lemma PollCycleStep(svc: Services, s: PollState, inbox: seq<Thread>, i: int, ps: PollState, evs: seq<Event>)
    requires 0 <= i < |inbox| && PollCycle(svc, s, inbox[..i]) == Run(ps, evs)
    ensures PollCycle(svc, s, inbox[..i + 1]) ==
            Run(PollThread(svc, ps, inbox[i]).state, evs + PollThread(svc, ps, inbox[i]).events)
  {
    FoldPrefix(ThreadStep(svc), Run(s, []), inbox, i);
  }

  /** A whole cycle keeps every cached chat well-formed. */
  lemma {:induction false} PollCycleWellFormed(svc: Services, s: PollState, inbox: seq<Thread>)
    requires ChatsWellFormed(s.chats)
    ensures ChatsWellFormed(PollCycle(svc, s, inbox).state.chats)
    decreases |inbox|
  {
    if inbox != [] {
      var front := inbox[..|inbox| - 1];
      PollCycleWellFormed(svc, s, front);
      PollThreadWellFormed(svc, PollCycle(svc, s, front).state, inbox[|inbox| - 1]);
    }
  }

  /** Over a whole cycle the watermark never goes down, every listed thread
      ends up cached, and no cached chat is dropped. */
  lemma {:induction false} PollCycleMonotone(svc: Services, s: PollState, inbox: seq<Thread>)
    ensures PollCycle(svc, s, inbox).state.mark >= s.mark
    ensures PollCycle(svc, s, inbox).state.chats.Keys == s.chats.Keys + ThreadIds(inbox)
    decreases |inbox|
  {
    if inbox != [] {
      var front, last := inbox[..|inbox| - 1], inbox[|inbox| - 1];
      PollCycleMonotone(svc, s, front);
      var mid := PollCycle(svc, s, front);
      assert PollCycle(svc, s, inbox).state == PollThread(svc, mid.state, last).state;
      PollThreadChats(svc, mid.state, last);
      PollThreadMark(svc, mid.state, last);
      assert ThreadIds(inbox) == ThreadIds(front) + {last.threadId};
    }
  }

  /** Over a whole cycle the watermark reaches every listed timestamp newer
      than the one the cycle started from. */
  lemma {:induction false} PollCycleMarkCovers(svc: Services, s: PollState, inbox: seq<Thread>)
    ensures forall t, x :: t in inbox && x in t.items && x.timestamp > s.mark ==>
              x.timestamp <= PollCycle(svc, s, inbox).state.mark
    decreases |inbox|
  {
    if inbox != [] {
      var front, last := inbox[..|inbox| - 1], inbox[|inbox| - 1];
      PollCycleMarkCovers(svc, s, front);
      var mid := PollCycle(svc, s, front);
      var m := PollCycle(svc, s, inbox).state.mark;
      assert m == PollThread(svc, mid.state, last).state.mark;
      PollThreadMark(svc, mid.state, last);
      forall t, x | t in inbox && x in t.items && x.timestamp > s.mark
        ensures x.timestamp <= m
      {
        if t != last {
          assert t in front;
        }
      }
    }
  }

  /** The watermark after a cycle is either the one it started from or the
      timestamp of a listed item newer than that. */
  lemma {:induction false} PollCycleMarkAttained(svc: Services, s: PollState, inbox: seq<Thread>)
    ensures var m := PollCycle(svc, s, inbox).state.mark;
            m == s.mark || exists t, x :: t in inbox && x in t.items && x.timestamp > s.mark && x.timestamp == m
    decreases |inbox|
  {
    if inbox != [] {
      var front, last := inbox[..|inbox| - 1], inbox[|inbox| - 1];
      PollCycleMarkAttained(svc, s, front);
      PollCycleMonotone(svc, s, front);
      var mid := PollCycle(svc, s, front);
      var m := PollCycle(svc, s, inbox).state.mark;
      assert m == PollThread(svc, mid.state, last).state.mark;
      PollThreadMark(svc, mid.state, last);
      if m != s.mark {
        if m == mid.state.mark {
          var t, x :| t in front && x in t.items && x.timestamp > s.mark && x.timestamp == m;
          assert t in inbox;
        } else {
          var x :| x in last.items && x.timestamp > mid.state.mark && x.timestamp == m;
          assert last in inbox;
        }
      }
    }
  }

  /** A cycle announces only listed items newer than the watermark it
      started from, each as the creation of that item's message. */
  lemma {:induction false} PollCycleOnlyNewer(svc: Services, s: PollState, inbox: seq<Thread>)
    ensures forall e :: e in PollCycle(svc, s, inbox).events ==>
              exists t, x :: t in inbox && x in t.items && x.timestamp > s.mark &&
                             e == MessageCreate(NewMessage(t.threadId, x)) && svc.isMessageValid(NewMessage(t.threadId, x))
    decreases |inbox|
  {
    if inbox != [] {
      var front, last := inbox[..|inbox| - 1], inbox[|inbox| - 1];
      PollCycleOnlyNewer(svc, s, front);
      PollCycleMonotone(svc, s, front);
      var mid := PollCycle(svc, s, front);
      PollCycleStep(svc, s, inbox, |inbox| - 1, mid.state, mid.events);
      assert inbox[..|inbox|] == inbox;
      var tail := PollThread(svc, mid.state, last).events;
      assert PollCycle(svc, s, inbox).events == mid.events + tail;
      PollThreadEvents(svc, mid.state, last);
      forall e | e in PollCycle(svc, s, inbox).events
        ensures exists t, x :: t in inbox && x in t.items && x.timestamp > s.mark &&
                               e == MessageCreate(NewMessage(t.threadId, x)) && svc.isMessageValid(NewMessage(t.threadId, x))
      {
        if e in mid.events {
          var t, x :| t in front && x in t.items && x.timestamp > s.mark &&
                      e == MessageCreate(NewMessage(t.threadId, x)) && svc.isMessageValid(NewMessage(t.threadId, x));
          assert t in inbox;
        } else {
          assert e in tail;
          var x :| x in NewItems(last.items, mid.state.mark) && e.message == NewMessage(last.threadId, x);
          assert last in inbox && x in last.items;
        }
      }
    }
  }

  /** A thread with no item newer than the watermark announces nothing. */
  lemma PollThreadSilent(svc: Services, s: PollState, t: Thread)
    requires forall x :: x in t.items ==> x.timestamp <= s.mark
    ensures PollThread(svc, s, t).events == []
  {
    NewerThanNone(t.items, s.mark);
    assert NewItems(t.items, s.mark) == [];
    PollThreadEvents(svc, s, t);
  }

  /** A cycle over a listing none of whose items is newer than the
      watermark announces nothing. */
  lemma {:induction false} PollCycleSilent(svc: Services, s: PollState, inbox: seq<Thread>)
    requires forall t, x :: t in inbox && x in t.items ==> x.timestamp <= s.mark
    ensures PollCycle(svc, s, inbox).events == []
    decreases |inbox|
  {
    if inbox != [] {
      var front, last := inbox[..|inbox| - 1], inbox[|inbox| - 1];
      assert forall t :: t in front ==> t in inbox;
      PollCycleSilent(svc, s, front);
      PollCycleMonotone(svc, s, front);
      var mid := PollCycle(svc, s, front);
      PollCycleStep(svc, s, inbox, |inbox| - 1, mid.state, mid.events);
      assert inbox[..|inbox|] == inbox;
      assert last in inbox;
      PollThreadSilent(svc, mid.state, last);
    }
  }

  /** Polling the same listing twice in a row announces nothing the second
      time: the first cycle's watermark already covers every listed item. */
  lemma SecondCycleRepeatsNothing(svc: Services, s: PollState, inbox: seq<Thread>)
    ensures var r := PollCycle(svc, s, inbox);
            PollCycle(svc, r.state, inbox).events == []
  {
    var r := PollCycle(svc, s, inbox);
    PollCycleMarkCovers(svc, s, inbox);
    PollCycleMonotone(svc, s, inbox);
    forall t, x | t in inbox && x in t.items
      ensures x.timestamp <= r.state.mark
    {
      if x.timestamp > s.mark {
      }
    }
    PollCycleSilent(svc, r.state, inbox);
  }

  /** Across two cycles, the second announces only items newer than every
      item the first one listed, so none of the first listing's items again. */
  lemma SecondCycleAnnouncesOnlyUnseen(svc: Services, s: PollState, inbox1: seq<Thread>, inbox2: seq<Thread>)
    ensures var r := PollCycle(svc, s, inbox1);
            forall e :: e in PollCycle(svc, r.state, inbox2).events ==>
              exists t, x :: t in inbox2 && x in t.items && e == MessageCreate(NewMessage(t.threadId, x)) &&
                             (forall t1, y :: t1 in inbox1 && y in t1.items ==> y.timestamp < x.timestamp)
  {
    var r := PollCycle(svc, s, inbox1);
    PollCycleMarkCovers(svc, s, inbox1);
    PollCycleMonotone(svc, s, inbox1);
    PollCycleOnlyNewer(svc, r.state, inbox2);
    forall t1, y | t1 in inbox1 && y in t1.items
      ensures y.timestamp <= r.state.mark
    {
      if y.timestamp > s.mark {
      }
    }
  }

  /** The watermark is shared by all threads of a cycle: an item of a later
      thread that is newer than the watermark at the start of the cycle, but
      older than an item of an earlier thread, is never stored. */
  lemma SharedWatermarkSkipsOlderItems(svc: Services, mark: int, id1: ChatId, id2: ChatId, p: ChatPayload,
                                       a: MessagePayload, b: MessagePayload)
    requires id1 != id2 && mark < b.timestamp < a.timestamp
    ensures var r := PollCycle(svc, PollState(map[], mark), [Thread(id1, p, [a]), Thread(id2, p, [b])]);
            && id2 in r.state.chats && b.itemId !in r.state.chats[id2].messages
            && r.state.mark == a.timestamp
  {
    var t1, t2 := Thread(id1, p, [a]), Thread(id2, p, [b]);
    var inbox := [t1, t2];
    var s0 := PollState(map[], mark);
    assert inbox[..0] == [] && inbox[..2] == inbox;
    PollCycleStep(svc, s0, inbox, 0, s0, []);
    var r1 := PollThread(svc, s0, t1);
    PollCycleStep(svc, s0, inbox, 1, r1.state, r1.events);
    assert a in NewItems(t1.items, mark);
    PollThreadMark(svc, s0, t1);
    PollThreadChats(svc, s0, t1);
    var s1 := r1.state;
    assert s1.mark == a.timestamp && id2 !in s1.chats;
    PollThreadMessages(svc, s1, t2);
    PollThreadMark(svc, s1, t2);
    assert NewItems(t2.items, s1.mark) == [];
    assert (set x | x in t2.items && x.timestamp > s1.mark :: x.itemId) == {};
  }

  // --------------------------------------------------------------- delay

  /** The delay band of an hour of the day, in milliseconds. */
  datatype DelayBand = DelayBand(minDelay: int, maxDelay: int)

  /** Daytime (from 7h to before 19h) polls every 5 to 20 seconds; the rest
      of the day every 30 to 60 seconds. */
  function BandOf(hour: int): (b: DelayBand)
    ensures 7 <= hour < 19 ==> b == DelayBand(5000, 20000)
    ensures !(7 <= hour < 19) ==> b == DelayBand(30000, 60000)
  {
    if hour >= 7 && hour < 19 then DelayBand(5000, 20000) else DelayBand(30000, 60000)
  }

  /** `getRandomPollingDelay` for an hour and a draw `r` in [0, 1):
      `floor(r * (max - min + 1)) + min`, which lies within the band. */
  function PollingDelay(hour: int, r: real): (d: int)
    requires 0.0 <= r < 1.0
    ensures BandOf(hour).minDelay <= d <= BandOf(hour).maxDelay
  {
    var b := BandOf(hour);
    var n := b.maxDelay - b.minDelay + 1;
    var k := (r * n as real).Floor;
    assert 0.0 <= r * n as real < n as real;
    k + b.minDelay
  }

  /** Every delay in the band is drawn by some `r` in [0, 1): the band is
      covered, endpoints included. */
  lemma PollingDelayCoversBand(hour: int, d: int)
    requires BandOf(hour).minDelay <= d <= BandOf(hour).maxDelay
    ensures var b := BandOf(hour);
            var r := (d - b.minDelay) as real / (b.maxDelay - b.minDelay + 1) as real;
            0.0 <= r < 1.0 && PollingDelay(hour, r) == d
  {
    var b := BandOf(hour);
    var n := (b.maxDelay - b.minDelay + 1) as real;
    var r := (d - b.minDelay) as real / n;
    assert r * n == (d - b.minDelay) as real;
  }
}
