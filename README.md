# insta.js client core in Dafny

This project models the core of the `Client` object of the insta.js
Instagram bot library (`insta.js/src/structures/Client.js`). It covers five parts:

- **Entity store.** The user, chat and pending-chat caches. An entry is
  patched in place when it is already cached and created when it is
  missing (`_patchOrCreateUser`, `fetchUser`, `fetchChat`).
- **Patch reconciler.** When a cached thread is replaced, its old snapshot is
  compared with the patched chat. This emits at most one `chatNameUpdate`,
  one `chatUserAdd`/`chatUserRemove` and one `callStart`/`callEnd`, in that
  order. When a cached message is replaced, its before and after like lists
  give `likeAdd`/`likeRemove`.
- **Change router.** `handleRealtimeReceive` classifies each record of a
  realtime batch by operation (`replace`, `add`, `remove`) and by which path
  matcher accepts its path. Each class goes to its own handler: thread
  replace, message replace, admin add/remove, message add, message
  remove. `handleFbnsReceive` does the same for push notifications: new
  follower, follow request, pending direct thread.
- **Replay buffer.** Until the client is ready, every inbound update is
  appended to `eventsToReplay` and nothing else happens. When login finishes,
  the client sets `ready`, emits `connected` and replays the buffer in arrival
  order through the normal handlers.
- **Polling.** `startMessagePolling` sets the watermark. Each polling cycle
  caches unknown inbox threads and stores the items newer than the watermark
  in ascending timestamp order. It emits `messageCreate` for the valid ones
  and moves the watermark along. The delay before the next cycle is drawn
  from a band that depends on the hour of the day.

Layout:

- `entities.dfy` (module `Entities`): the payload and entity datatypes,
  `_patch` and the constructors, events, the external services, and the
  store with its identity invariant `WellFormed`. That invariant says every
  user and chat is cached under its own ID, every message under its own ID
  in the chat it belongs to, and every member list has no repeated ID.
- `cache.dfy` (`Cache`): the create-or-patch functions.
- `reconcile.dfy` (`Reconcile`): the snapshot diffs and the admin-list
  updates.
- `folds.dfy` (`Folds`): a generic fold over a list of inputs that
  collects the events emitted. Every loop of the client that visits inputs
  in order is an instance of it.
- `router.dfy` (`Router`): the routing, one effect function per handler,
  and the well-formedness and frame lemmas.
- `polling.dfy` (`Polling`): filtering by watermark, sorting by
  timestamp, the polling cycle and the delay.
- `client.dfy` (`ClientModel`): the class `Client`. Its mutable fields are
  the ones the source mutates, of those modelled: the three caches, `ready`, `eventsToReplay`
  and `lastPolledTimestamp`. A `services` constant, fixed at
  construction, stands for the remote API and the `Util` tests, which the
  source reaches through `this.ig` and `Util`. Its methods update those fields in place, with
  `while` loops where the source loops. Each method is proved equal to the
  specification function of its handler, so the lemmas about those
  functions hold of the object.

Events are returned from each method as a sequence, in emission order. The
services the client calls are the remote API (thread, user and pending
listings, username lookup) and the `Util` tests (`isID`, `isMessageValid`).
They are fields of a `Services` value, given as total functions.

Three points where the code's behaviour is easy to misread:

- `getRandomPollingDelay` hard-codes its delay bands, and nothing
  configures them: an hour from 7 to before 19 gives 5 000 to 20 000 ms,
  any other hour 30 000 to 60 000 ms.
- `startMessagePolling` starts the watermark in microseconds, as
  `Date.now() * 1000`.
- A polling cycle shares one watermark among all its threads, and updates
  it item by item. So an item of a later thread that is newer than the
  watermark at the start of the cycle, but older than an item already stored
  for an earlier thread, is skipped (`SharedWatermarkSkipsOlderItems`).
  This is modelled as written.

## Model

| member | source | states |
|---|---|---|
| ClientModel.Client.constructor | insta.js/src/structures/Client.js:26-71 | A new client has empty user, chat and pending caches, is not ready, has an empty replay buffer and satisfies the identity invariant. |
| ClientModel.Client.PatchOrCreateUser | insta.js/src/structures/Client.js:80-87 | The user cache becomes `Cache.PatchOrCreateUser` of the old one, and the returned user is the cached entry; the chat caches, the latch, the buffer and the watermark are unchanged. |
| ClientModel.Client.FetchChat | insta.js/src/structures/Client.js:112-124 | The chat cache becomes `Cache.FetchChat` of the old one, and the returned chat is the cached entry; nothing else changes. |
| ClientModel.Client.FetchUser | insta.js/src/structures/Client.js:137-150 | The user cache becomes the one `Cache.FetchUser` computes, the returned user is the one cached under the resolved ID, and the user cache stays well formed. |
| ClientModel.Client.HandleThreadReplace | insta.js/src/structures/Client.js:175-208 | The new caches and the events equal `ThreadReplaceEffect` of the old caches; users are untouched. |
| ClientModel.Client.HandleMessageReplace | insta.js/src/structures/Client.js:209-235 | The new caches and the events equal `MessageReplaceEffect`, including the user fetch behind a like event. |
| ClientModel.Client.HandleAdminAdd | insta.js/src/structures/Client.js:240-251 | The new caches and the events equal `AdminAddEffect`. |
| ClientModel.Client.HandleAdminRemove | insta.js/src/structures/Client.js:268-279 | The new caches and the events equal `AdminRemoveEffect`, which uses the corrected admin list (see Findings). |
| ClientModel.Client.HandleMessageAdd | insta.js/src/structures/Client.js:252-263 | The new caches and the events equal `MessageAddEffect`; users are untouched. |
| ClientModel.Client.HandleMessageRemove | insta.js/src/structures/Client.js:280-289 | The new caches and the events equal `MessageRemoveEffect`; users are untouched. |
| ClientModel.Client.HandleRecord | insta.js/src/structures/Client.js:173-295 | One record is dispatched on its route and has exactly the effect `RecordEffect` gives it. |
| ClientModel.Client.HandleBatch | insta.js/src/structures/Client.js:171-296 | The records of one batch are handled in order, and the result is the fold of `RecordStep` over them. |
| ClientModel.Client.HandleRealtimeReceive | insta.js/src/structures/Client.js:158-299 | Before ready, the update is appended to the replay buffer and nothing else changes or is emitted. Once ready, the caches and the events equal `ReceiveEffect`, and the buffer is untouched. The identity invariant is kept either way. |
| ClientModel.Client.HandleFbnsReceive | insta.js/src/structures/Client.js:306-337 | Before ready, the notification is appended to the replay buffer and nothing else changes. Once ready, the caches and the events equal `FbnsEffect`. The identity invariant is kept. |
| ClientModel.Client.RegisterPendingThreads | insta.js/src/structures/Client.js:324-331 | The caches become `RegisterPending` of the old caches over the API's pending listing. |
| ClientModel.Client.FinishLogin | insta.js/src/structures/Client.js:490-500 | The client becomes ready. It emits `connected`, then the events of replaying the old buffer in arrival order through the normal handlers (a fold of `InboundStep`). The buffer ends empty and the identity invariant holds. |
| ClientModel.Client.StartMessagePolling | insta.js/src/structures/Client.js:379 | The watermark becomes the start time in microseconds (`nowMs * 1000`); nothing else changes. |
| ClientModel.Client.StoreNewItems | insta.js/src/structures/Client.js:402-411 | The loop over the new items leaves the chat, the watermark and the events that `ItemsRun` gives. |
| ClientModel.Client.HandlePolledThread | insta.js/src/structures/Client.js:388-411 | One inbox thread: the chat cache, the watermark and the events equal `PollThread`. |
| ClientModel.Client.PollThreads | insta.js/src/structures/Client.js:387-412 | The loop over the inbox equals the fold `PollCycle` over it. |
| ClientModel.Client.PollOnce | insta.js/src/structures/Client.js:384-421 | One polling cycle. A failed inbox fetch emits only the error and changes nothing. A fetched inbox has the effect of `PollCycle`. The identity invariant is kept either way. |
| Cache.PatchOrCreateUser | insta.js/src/structures/Client.js:80-87 | The given ID is cached afterwards. An existing user is patched, a missing one created, every other user is unchanged and no key is dropped. Well-formedness is kept. |
| Cache.FetchUser | insta.js/src/structures/Client.js:137-150 | The query is resolved as an ID when it has the shape of one, else by username. A cached user without `force` leaves the cache as it is. With `force` the cached user is patched from the API, and a missing user is created from it. Other users are unchanged and well-formedness is kept. |
| Cache.ResolveUserId | insta.js/src/structures/Client.js:138 | The ID a query resolves to: the query itself when `Util.isID` accepts it, else the ID the API returns for that username. Its use is stated by `Cache.FetchUser`. |
| Cache.FetchChat | insta.js/src/structures/Client.js:112-124 | A cached chat without `force` leaves the cache as it is. With `force` it is patched and keeps its messages. A missing chat is created from the remote thread. Other chats are unchanged. |
| Cache.FetchChatIdempotent | insta.js/src/structures/Client.js:112-124 | A second fetch of the same chat without `force` leaves the cache exactly as the first one left it. |
| Cache.FetchChatWellFormed | insta.js/src/structures/Client.js:112-124 | A fetch keeps every chat under its own ID, consistent with its messages. |
| Entities.MemberKeys | insta.js/src/structures/Client.js:189-194 | The member collection keyed by user ID has no repeated ID, holds exactly the listed users and is no longer than the listing. |
| Entities.ThreadIds | insta.js/src/structures/Client.js:326-330 | The set of thread IDs of a listing holds exactly the IDs of its threads. |
| Reconcile.FirstMissing | insta.js/src/structures/Client.js:190 | The first element of the new list that is not in the old one. The result is absent exactly when every element is in the old list. |
| Reconcile.NameDiff | insta.js/src/structures/Client.js:184-186 | A single `chatNameUpdate`, carrying the old and the new name, exactly when the name changed. |
| Reconcile.MemberDiff | insta.js/src/structures/Client.js:189-195 | At most one membership event. An added user is in the new members and not the old; a removed user is in the old and not the new. There is no event when the counts are equal. |
| Reconcile.CallDiff | insta.js/src/structures/Client.js:198-202 | `callStart` exactly when the chat went from not calling to calling; `callEnd` exactly for the reverse. |
| Reconcile.ChatDiff | insta.js/src/structures/Client.js:183-202 | Name events come before membership events, which come before call events. Every event names the chat. An unchanged snapshot emits nothing. |
| Reconcile.ChatDiffNameAndCall | insta.js/src/structures/Client.js:183-202 | In the full diff, the name update and the call events occur exactly when their fields changed. |
| Reconcile.ChatDiffMembershipSound | insta.js/src/structures/Client.js:189-195 | In the full diff, each membership event is justified by the member lists, and there is none when the member count is unchanged. |
| Reconcile.MemberDiffReports | insta.js/src/structures/Client.js:189-195 | With keyed member lists, a larger membership always reports `chatUserAdd` and a smaller one `chatUserRemove`. |
| Reconcile.ChatDiffReportsMembership | insta.js/src/structures/Client.js:189-195 | The full diff reports exactly one membership change when the member count changed, and none otherwise. |
| Reconcile.LikeDelta | insta.js/src/structures/Client.js:220-232 | A like removal names a user who was in the old likes and not the new; an addition names a user who is in the new likes and not the old. "No change" with different lengths means no such user exists. |
| Reconcile.LikeDeltaReportsChange | insta.js/src/structures/Client.js:220-232 | For like lists without repeats, the result is an addition, a removal or no change exactly as the list got longer, shorter or stayed the same length. |
| Reconcile.LikeDeltaAsWritten | insta.js/src/structures/Client.js:220-224 | The removal branch as written faults (no result) exactly when the list got shorter and no removed user is found. Otherwise it agrees with `LikeDelta`. |
| Reconcile.LikeDeltaAsWrittenFaults | insta.js/src/structures/Client.js:221-223 | For old likes `["u1","u1"]` and new likes `["u1"]`, the code as written faults, while the guarded version reports no change. |
| Reconcile.AdminsAfterAdd | insta.js/src/structures/Client.js:245 | The user ID is appended to the admin list, which is otherwise unchanged. |
| Reconcile.AdminsAfterRemoveAsWritten | insta.js/src/structures/Client.js:273 | As written, an admin removal appends the user, so they are still listed as an admin. |
| Reconcile.AdminsAfterRemove | insta.js/src/structures/Client.js:272-273 | The corrected removal: the user is no longer an admin, every other admin stays, and the list does not grow. |
| Reconcile.AdminRemoveUndoesAdd | insta.js/src/structures/Client.js:245-273 | Removing a user who was just added as an admin restores the admin list. |
| Reconcile.AdminRemoveAsWrittenKeepsAdmin | insta.js/src/structures/Client.js:273 | After the as-written removal the user is still an admin; after the corrected one they are not. |
| Router.RouteOf | insta.js/src/structures/Client.js:173-295 | Unknown operations are dropped, and a record is unrouted exactly when no path matcher accepts it for its operation. A thread or message replace comes only from a `replace`, an admin or message add only from an `add`, an admin or message remove only from a `remove`. A thread replace takes priority over a message replace, and an admin path over a message path. A thread replace needs an inbox-thread match and an admin add or remove an admin match. A `replace`, `add` or `remove` whose path only the message matcher accepts goes to the message replace, add or remove handler with that message ID. The thread patch and message item are the record's decoded value; a message remove uses the raw value as the message ID. |
| Router.ThreadReplaceIdempotent | insta.js/src/structures/Client.js:176-206 | Replaying the same thread replace on its own result changes nothing and emits no event. |
| Router.MessageReplaceIdempotent | insta.js/src/structures/Client.js:209-235 | Replaying the same message replace on its own result changes nothing and emits no event. |
| Router.ThreadReplaceEffect | insta.js/src/structures/Client.js:176-206 | The thread-replace handler: snapshot, patch and diff of a cached chat, silent creation of an unknown one. Its behaviour is stated by `Router.ThreadReplaceSpec`, `Router.ThreadReplaceWellFormed` and `Router.ThreadReplaceGrows`. |
| Router.MessageReplaceEffect | insta.js/src/structures/Client.js:209-235 | The message-replace handler: fetch the chat, patch a cached message, compare its likes, fetch the liking user and emit the like event. Stated by `Router.MessageReplaceSpec`, `Router.MessageReplaceAtFault` and `Router.MessageReplaceWellFormed`. |
| Router.AdminAddEffect | insta.js/src/structures/Client.js:240-251 | The admin-add handler: fetch the chat, append the user to its admins, fetch the user, emit `chatAdminAdd`. Stated by `Router.AdminSpec` and `Router.AdminWellFormed`. |
| Router.AdminRemoveEffect | insta.js/src/structures/Client.js:268-279 | The corrected admin-remove handler the client runs: the user is taken out of the admins instead of pushed (see Findings). Stated by `Router.AdminSpec` and `Router.AdminRemoveAsWrittenActsAsAdd`. |
| Router.AdminRemoveEffectAsWritten | insta.js/src/structures/Client.js:270-276 | The admin-remove handler as written: afterwards the user is listed among the chat's admins, and `chatAdminRemove` names the resolved user. |
| Router.MessageAddEffect | insta.js/src/structures/Client.js:252-263 | The message-add handler: fetch the chat, skip action-log and video-call items, store any other item and announce it when valid. Stated by `Router.MessageAddSpec` and `Router.MessageAddWellFormed`. |
| Router.MessageRemoveEffect | insta.js/src/structures/Client.js:280-289 | The message-remove handler: fetch the chat and announce the cached message. Stated by `Router.MessageRemoveSpec`. |
| Router.RecordEffect | insta.js/src/structures/Client.js:173-295 | One record through the handler `RouteOf` picks, or nothing for an unrouted record. Stated by `Router.RecordEffectWellFormed` and `Router.RecordEffectFrame`. |
| Router.InboundEffect | insta.js/src/structures/Client.js:493-500 | One buffered entry through its normal handler: a realtime entry through `ReceiveEffect`, a notification through `FbnsEffect`. Stated by `Router.ReplayWellFormed` and `ClientModel.Client.FinishLogin`. |
| Router.ReceiveEffect | insta.js/src/structures/Client.js:167-171 | `rawRealtime` is always emitted first. A topic other than `146` emits only that and leaves the caches unchanged. |
| Router.RegisterPending | insta.js/src/structures/Client.js:325-330 | Every listed pending thread ends up in both the chat cache and the pending cache, no cached key is dropped, and users are unchanged. |
| Router.RegisterPendingKeys | insta.js/src/structures/Client.js:325-330 | Registration adds exactly the listed thread IDs to each of the two caches. |
| Router.RegisterPendingShared | insta.js/src/structures/Client.js:327-329 | A registered thread is the same chat in the chat cache and in the pending cache. |
| Router.RegisterPendingValue | insta.js/src/structures/Client.js:326-330 | A listed thread is cached in both caches as the chat built from its last listing. |
| Router.RegisterPendingFrame | insta.js/src/structures/Client.js:326-330 | A chat the listing does not name keeps its value in both caches. |
| Router.FbnsEffect | insta.js/src/structures/Client.js:314-336 | `rawFbns` is always emitted first. `new_follower` and `private_user_follow_request` fetch the source user and emit `newFollower` or `followRequest` naming the resolved user, with no chat touched. `direct_v2_pending` leaves users alone, fetches the pending listing only when the thread is not a cached pending chat, and emits exactly `rawFbns` followed by `pendingRequest` when the thread is then a pending chat, `rawFbns` alone otherwise. Any other category changes nothing. |
| Router.ThreadReplaceSpec | insta.js/src/structures/Client.js:176-206 | A replace of a cached thread patches that chat, keeps its messages and emits the snapshot diff. An uncached thread is created silently. |
| Router.MessageReplaceSpec | insta.js/src/structures/Client.js:209-235 | A replace of a cached message patches it in its chat. When the like diff reports no change, nothing is emitted and no user is fetched. When it reports an added (removed) like, exactly one `likeAdd` (`likeRemove`) is emitted, naming the resolved user the diff found and carrying the patched message, and the user cache is the one that fetch leaves. An uncached message changes no message and emits nothing. |
| Router.AdminSpec | insta.js/src/structures/Client.js:240-279 | An admin add appends the user to the fetched chat's admins and emits `chatAdminAdd`. A corrected admin remove sets the chat cache to the fetched cache with that chat's admins replaced by `AdminsAfterRemove`: every occurrence of the user is gone and the other admins are kept. It emits `chatAdminRemove`. Both events name the resolved user. In both, the user cache is exactly what fetching that user leaves and the pending chats are unchanged. |
| Router.MessageAddSpec | insta.js/src/structures/Client.js:252-263 | Action-log and video-call items store nothing and emit nothing. Any other item is stored under its ID, and `messageCreate` is emitted exactly when it is valid. |
| Router.MessageRemoveSpec | insta.js/src/structures/Client.js:280-289 | A message removal changes no chat's messages. It emits `messageDelete` with the cached message exactly when that message exists. |
| Router.AdminRemoveAsWrittenActsAsAdd | insta.js/src/structures/Client.js:245-273 | As written, an admin remove leaves the caches exactly as an admin add of the same user, and differently from the corrected removal. |
| Router.MessageReplaceAtFault | insta.js/src/structures/Client.js:214-223 | Where the written like comparison throws, the corrected handler leaves the caches the source has left by then: the message patched, no user fetched, no event. |
| Router.ThreadReplaceWellFormed | insta.js/src/structures/Client.js:176-206 | A thread replace keeps the identity invariant. |
| Router.MessageReplaceWellFormed | insta.js/src/structures/Client.js:209-235 | A message replace keeps the identity invariant. |
| Router.AdminWellFormed | insta.js/src/structures/Client.js:240-279 | Admin adds and removes keep the identity invariant. |
| Router.MessageAddWellFormed | insta.js/src/structures/Client.js:252-263 | A message add keeps the identity invariant. |
| Router.RecordEffectWellFormed | insta.js/src/structures/Client.js:173-295 | No realtime record breaks the identity invariant. |
| Router.RecordEffectFrame | insta.js/src/structures/Client.js:173-295 | A record never drops a cached chat or user and never touches the pending cache. An unrouted record changes nothing and emits nothing. |
| Router.RegisterPendingWellFormed | insta.js/src/structures/Client.js:325-330 | Registering pending threads keeps the identity invariant. |
| Router.FbnsEffectWellFormed | insta.js/src/structures/Client.js:314-336 | A push notification keeps the identity invariant. |
| Router.RecordsWellFormed | insta.js/src/structures/Client.js:171-296 | Any run of records keeps the identity invariant. |
| Router.BatchesWellFormed | insta.js/src/structures/Client.js:170-297 | Any run of batches keeps the identity invariant. |
| Router.ReceiveWellFormed | insta.js/src/structures/Client.js:167-298 | A realtime delivery keeps the identity invariant. |
| Router.ReplayWellFormed | insta.js/src/structures/Client.js:493-500 | Replaying any buffer keeps the identity invariant. |
| Router.JoinDuringCallExample | insta.js/src/structures/Client.js:183-202 | A thread patch that adds one member and starts a call emits `chatUserAdd` for that member, then `callStart`, and nothing else. |
| Polling.NewerThan | insta.js/src/structures/Client.js:395-397 | The kept items are exactly those with a timestamp strictly above the watermark. |
| Polling.NewerThanCounts | insta.js/src/structures/Client.js:395-397 | The filter keeps every newer item as many times as it occurs, and drops every other. |
| Polling.SortBy | insta.js/src/structures/Client.js:400 | The sorted list is in ascending key order. |
| Polling.SortByPermutes | insta.js/src/structures/Client.js:400 | The sorted list is a permutation of its input. |
| Polling.NewItems | insta.js/src/structures/Client.js:395-400 | The new items are in ascending timestamp order, and an item is new exactly when it is listed with a timestamp above the watermark. |
| Polling.NewItemsCounts | insta.js/src/structures/Client.js:395-400 | The new items are, as a multiset, exactly the listed items above the watermark. |
| Polling.Created | insta.js/src/structures/Client.js:402-411 | Only `messageCreate` events for valid messages built from the items are emitted, and every valid item is announced. |
| Polling.ItemsRunMark | insta.js/src/structures/Client.js:402-411 | Storing items touches only the chat's messages, and leaves the watermark at the timestamp of the last item stored. |
| Polling.ItemsRunMessages | insta.js/src/structures/Client.js:402-411 | The chat's message IDs become the old ones plus the items' IDs. A message no item names keeps its value, the last item's message is stored under its ID, and every ID that was not cached holds the message of one of the items. |
| Polling.ItemsRunLastWins | insta.js/src/structures/Client.js:402-411 | Every item that is the last with its ID leaves its own message under that ID, replacing any message cached there before. |
| Polling.ItemsRunEvents | insta.js/src/structures/Client.js:402-411 | The events of storing the items are `Created` of those items, in their order. |
| Polling.ItemsRunWellFormed | insta.js/src/structures/Client.js:402-411 | Storing polled items keeps the chat consistent with its messages. |
| Polling.PolledChats | insta.js/src/structures/Client.js:388-393 | An unknown inbox thread is created from its listing, and a cached one is left as it is. |
| Polling.StoreItem | insta.js/src/structures/Client.js:402-411 | One new item: stored under its ID in the chat, announced when valid, and the watermark set to its timestamp. Stated over runs of items by `Polling.ItemsRunMark`, `Polling.ItemsRunMessages` and `Polling.ItemsRunEvents`. |
| Polling.PollThread | insta.js/src/structures/Client.js:388-411 | One inbox thread: cache it when missing, then store its new items in order. Stated by `Polling.PollThreadChats`, `Polling.PollThreadMessages`, `Polling.PollThreadValue`, `Polling.PollThreadKeeps`, `Polling.PollThreadEvents` and `Polling.PollThreadMark`. |
| Polling.PollThreadChats | insta.js/src/structures/Client.js:388-411 | Polling a thread caches it. Only its messages may differ from the cached or newly built chat, and every other chat is untouched. |
| Polling.PollThreadMessages | insta.js/src/structures/Client.js:395-411 | Exactly the items newer than the watermark are added to the thread's messages. |
| Polling.PollThreadValue | insta.js/src/structures/Client.js:395-411 | Each new item that is the last of the sorted new items with its ID leaves its own message in the thread's chat, replacing any message cached under that ID. |
| Polling.PollThreadKeeps | insta.js/src/structures/Client.js:395-411 | A message of the thread's chat that no new item names keeps its value. |
| Polling.PollThreadEvents | insta.js/src/structures/Client.js:400-409 | The events are `messageCreate` for the valid new items, in ascending timestamp order. |
| Polling.PollThreadMark | insta.js/src/structures/Client.js:395-410 | The watermark never decreases, ends at the largest new timestamp and stays put when nothing is new. |
| Polling.PollThreadWellFormed | insta.js/src/structures/Client.js:388-411 | Polling a thread keeps every chat under its own ID and consistent with its messages. |
| Polling.PollCycle | insta.js/src/structures/Client.js:387-412 | One polling cycle, thread by thread. Stated by `Polling.PollCycleWellFormed`, `Polling.PollCycleMonotone`, `Polling.PollCycleMarkCovers`, `Polling.PollCycleMarkAttained`, `Polling.PollCycleOnlyNewer`, `Polling.SecondCycleRepeatsNothing`, `Polling.SecondCycleAnnouncesOnlyUnseen` and `Polling.SharedWatermarkSkipsOlderItems`. |
| Polling.PollCycleWellFormed | insta.js/src/structures/Client.js:387-412 | A whole polling cycle keeps the chat invariant. |
| Polling.PollCycleMonotone | insta.js/src/structures/Client.js:387-412 | Over a cycle the watermark never decreases, and the chat cache gains exactly the inbox's thread IDs. |
| Polling.PollCycleMarkCovers | insta.js/src/structures/Client.js:387-412 | After a cycle the watermark is at least the timestamp of every listed item newer than the starting watermark. |
| Polling.PollCycleMarkAttained | insta.js/src/structures/Client.js:387-412 | After a cycle the watermark is the starting one or the timestamp of a listed item newer than it. |
| Polling.PollCycleOnlyNewer | insta.js/src/structures/Client.js:387-412 | Every event of a cycle is `messageCreate` of the message built from a listed item newer than the starting watermark, in that item's thread, and that message is valid. |
| Polling.PollThreadSilent | insta.js/src/structures/Client.js:395-412 | A thread with no item newer than the watermark emits nothing. |
| Polling.PollCycleSilent | insta.js/src/structures/Client.js:387-412 | A cycle over a listing with no item newer than the watermark emits nothing. |
| Polling.SecondCycleRepeatsNothing | insta.js/src/structures/Client.js:384-421 | A second cycle over the same listing emits nothing. |
| Polling.SecondCycleAnnouncesOnlyUnseen | insta.js/src/structures/Client.js:384-421 | Every message a second cycle announces comes from an item newer than every item of the first cycle's listing. |
| Polling.NewerThanNone | insta.js/src/structures/Client.js:395-397 | With no item newer than the watermark, the filter keeps nothing. |
| Polling.SharedWatermarkSkipsOlderItems | insta.js/src/structures/Client.js:395-410 | With one watermark shared by all threads, a later thread's item that is older than an earlier thread's new item is not stored, and the watermark ends at the earlier item's timestamp. |
| Polling.BandOf | insta.js/src/structures/Client.js:349-363 | From 7h to before 19h the band is 5 000 to 20 000 ms; at any other hour it is 30 000 to 60 000 ms. |
| Polling.PollingDelay | insta.js/src/structures/Client.js:344-367 | For any draw in [0, 1), the delay lies within the hour's band, endpoints included. |
| Polling.PollingDelayCoversBand | insta.js/src/structures/Client.js:349-365 | Every delay in the hour's band, endpoints included, is produced by some draw in [0, 1). |
| Folds.FoldAppend | insta.js/src/structures/Client.js:493-500 | Handling `a + b` in order is handling `a` and then `b`. So replaying a buffer gives the same result as the same updates arriving one after another once ready. |
| Folds.FoldKeepsEvents | insta.js/src/structures/Client.js:170-171 | A loop over inputs only appends events: the events already emitted stay in front. |
| Folds.FoldEventsShift | insta.js/src/structures/Client.js:491-493 | A loop's events do not depend on those emitted before it. Replay after `connected` emits `connected` followed by the events of the replay alone. |
| Folds.FoldPrefix | insta.js/src/structures/Client.js:170-171 | The fold over the first `i + 1` inputs is one step after the fold over the first `i`. |

## Left out

- Object identity and aliasing: caches hold chat and user values, not shared objects. The chat is shared between `cache.chats` and `cache.pendingChats` only at registration (`RegisterPendingShared`). Later patches through one cache are not seen through the other.
- The `Object.assign(Object.create(chat), chat)` snapshot is modelled as a copy of the chat value taken before the patch.
- Asynchronous interleaving: the `.then` callbacks, `forEach(async …)` and `await`ed API calls run to completion in issue order. Races between overlapping fetches are not modelled.
- `JSON.parse` failures on a record value or payload: the decoded value is part of the record, so a malformed payload cannot be expressed.
- The `Util` path matchers are modelled by their results on a record's path (`PathMatch`). `Util.isID` and `Util.isMessageValid` are functions in `Services`. Util.js is not part of this model.
- `_patch` of `User`, `Chat` and `Message` is modelled as replacing the payload fields (`PatchUser`, `PatchChat`, `PatchMessage`). The structure files are not part of this model.
- The `Chat` constructor is modelled as creating a chat with no cached messages, since any items in the payload are not modelled.
- Message timestamps are integers. The API's string timestamps and JavaScript's comparison of them are not modelled.
- `Math.random()` and the current hour are parameters of `PollingDelay`, and `Date.now()` is a parameter of `StartMessagePolling`. The timers themselves are not modelled: `setTimeout`, `clearTimeout`, `scheduleNextPoll` and the two-second wait in login. `PollOnce` is one cycle, and the caller reschedules it.
- The polling cycle's error path is modelled as a `PollingError(reason)` event for a failed inbox fetch. Errors thrown by later steps of the cycle are not modelled.
- The watermark is 0 until `startMessagePolling` sets it. In the source it is undefined until then.
- FinishLogin: leaves the buffer empty. The source shifts the tag off each entry and leaves the entries in place. A later `login()` runs the `forEach` at Client.js:493-500 again and shifts each entry again. The value shifted off then is the entry's payload, not a `realtime` or `fbns` tag, so no handler runs and no later behaviour differs.
- SortBy: its contract states order and permutation, not stability. Items with equal timestamps may be stored in any relative order.
- `login`, `logout` and `createChat` (network calls) are not modelled, nor is the thread caching at login (Client.js:473-480). The unused `cache.messages` map, `toJSON` and console logging are not modelled either.
- `main.js` (the Discord bridge that consumes the events) and `session.js` (session persistence) are callers outside this model.
- ClientModel.Client.HandleAdminRemove: runs the corrected removal, so after a realtime admin remove the user is no longer an admin, while Client.js:273 keeps them listed. What the source does is `Router.AdminRemoveEffectAsWritten`, which `Router.AdminRemoveAsWrittenActsAsAdd` shows acts like an add.
- Router.AdminRemoveEffect: is the corrected handler, not the code at Client.js:273 (see Findings). `ReceiveEffect`, `HandleRealtimeReceive` and `FinishLogin` run it too.
- Router.MessageReplaceEffect: where Client.js:222 throws (a shrinking like list with no removed user found), the model emits no event and raises nothing. `Router.MessageReplaceAtFault` shows the caches and events agree with what the source has done before it throws. The rejected promise itself is not modelled.
- ClientModel.Client.HandleFbnsReceive: the remote API is the `services` value fixed when the client is built, so the pending listing fetched at Client.js:325 (and every other lookup) gives the same answer for the client's whole life. A pending thread that appears after construction is not modelled.
- Polling.PollingDelay: the draw of `Math.random()` is an exact real in [0, 1), not a double. The rounding of `Math.floor` at a band boundary under floating point is not modelled.

## Findings

| source | as written | input that shows it | evidently intended | confidence | as-written member | corrected member |
|---|---|---|---|---|---|---|
| insta.js/src/structures/Client.js:273 | A `remove` on an admin path runs `chat.adminUserIDs.push(userID)`, the same statement as the `add` branch, so the user is appended to the admins. | Any admin removal, e.g. admins `[]` and user `u`: the list becomes `[u]`. | The user is taken out of `adminUserIDs`, as the comment above the statement says. | not executed | Reconcile.AdminsAfterRemoveAsWritten, Reconcile.AdminRemoveAsWrittenKeepsAdmin, Router.AdminRemoveEffectAsWritten, Router.AdminRemoveAsWrittenActsAsAdd | Reconcile.AdminsAfterRemove, Reconcile.AdminRemoveUndoesAdd, Router.AdminRemoveEffect |
| insta.js/src/structures/Client.js:221-223 | When the like list got shorter, `removed.userID` is read before the `if (removed)` guard. When no like user is missing from the new list, `removed` is `undefined` and the handler throws. | Old likes by users `["u1","u1"]`, new likes `["u1"]`. | The guard runs before the user is fetched, as on the `likeAdd` branch, and no event is emitted. | not executed | Reconcile.LikeDeltaAsWritten, Reconcile.LikeDeltaAsWrittenFaults | Reconcile.LikeDelta, Reconcile.LikeDeltaReportsChange, Router.MessageReplaceAtFault |
