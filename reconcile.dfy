/** The patch reconciler: pure comparisons of an entity's snapshot taken
    before a patch with the entity after it, yielding the change events.
    Membership and like changes are detected one element at a time, as the
    client does: the first element found on one side and not the other. */
module Reconcile {
  import opened Entities

  /** The first element of `xs` that is absent from `ys`: the client's
      `xs.find(x => !ys.has(x))`. */
  function FirstMissing(xs: seq<UserId>, ys: seq<UserId>): (r: Option<UserId>)
    ensures r.Some? ==> r.value in xs && r.value !in ys
    ensures r.Some? ==> exists i :: 0 <= i < |xs| && xs[i] == r.value && forall j :: 0 <= j < i ==> xs[j] in ys
    ensures r.None? <==> forall x :: x in xs ==> x in ys
    decreases |xs|
  {
    if xs == [] then None
    else if xs[0] !in ys then Some(xs[0])
    else
      var r := FirstMissing(xs[1..], ys);
      assert forall x :: x in xs ==> x == xs[0] || x in xs[1..];
      if r.Some? then
        var i :| 0 <= i < |xs[1..]| && xs[1..][i] == r.value && forall j :: 0 <= j < i ==> xs[1..][j] in ys;
        assert xs[i + 1] == r.value && forall j :: 0 <= j < i + 1 ==> xs[j] in ys;
        r
      else r
  }

  /** The number of distinct elements of a list is at most its length, and
      equal to it for a key list. */
  lemma {:induction false} ElementCount(s: seq<UserId>)
    ensures |set x | x in s| <= |s|
    ensures Distinct(s) ==> |set x | x in s| == |s|
  {
    if s != [] {
      var front, last := s[..|s| - 1], s[|s| - 1];
      ElementCount(front);
      assert s == front + [last];
      assert (set x | x in s) == (set x | x in front) + {last};
      if Distinct(s) {
        assert Distinct(front);
        assert last !in front;
      }
    }
  }

  /** A key list longer than another list holds an element the other lacks. */
  lemma LongerKeyListHasNewElement(a: seq<UserId>, b: seq<UserId>)
    requires Distinct(b) && |a| < |b|
    ensures exists x :: x in b && x !in a
  {
    ElementCount(a);
    ElementCount(b);
    var sa, sb := set x | x in a, set x | x in b;
    assert sb == (sb * sa) + (sb - sa);
    assert |sb| == |sb * sa| + |sb - sa|;
    assert |sb * sa| <= |sa| by {
      assert sa == (sb * sa) + (sa - sb);
    }
    var x :| x in sb - sa;
  }

  // ---------------------------------------------------------------- chats

  /** The three stages of the chat comparison, in the order they are run. */
  function Stage(e: Event): (k: nat)
  {
    match e
    case ChatNameUpdate(_, _, _) => 0
    case ChatUserAdd(_, _) => 1
    case ChatUserRemove(_, _) => 1
    case CallStart(_) => 2
    case CallEnd(_) => 2
    case _ => 3
  }

  function NameDiff(before: Chat, after: Chat): (evs: seq<Event>)
    ensures |evs| <= 1 && forall e :: e in evs ==> e == ChatNameUpdate(after.id, before.name, after.name)
    ensures evs != [] <==> before.name != after.name
  {
    if before.name != after.name then [ChatNameUpdate(after.id, before.name, after.name)] else []
  }

  function MemberDiff(before: Chat, after: Chat): (evs: seq<Event>)
    ensures |evs| <= 1 && forall e :: e in evs ==> Stage(e) == 1 && e.chatId == after.id
    ensures forall u :: ChatUserAdd(after.id, u) in evs ==>
              |before.users| < |after.users| && u in after.users && u !in before.users
    ensures forall u :: ChatUserRemove(after.id, u) in evs ==>
              |before.users| > |after.users| && u in before.users && u !in after.users
    ensures |before.users| == |after.users| ==> evs == []
  {
    if |before.users| < |after.users| then
      match FirstMissing(after.users, before.users)
      case Some(u) => [ChatUserAdd(after.id, u)]
      case None => []
    else if |before.users| > |after.users| then
      match FirstMissing(before.users, after.users)
      case Some(u) => [ChatUserRemove(after.id, u)]
      case None => []
    else []
  }

  function CallDiff(before: Chat, after: Chat): (evs: seq<Event>)
    ensures |evs| <= 1 && forall e :: e in evs ==> Stage(e) == 2 && e.chatId == after.id
    ensures CallStart(after.id) in evs <==> !before.calling && after.calling
    ensures CallEnd(after.id) in evs <==> before.calling && !after.calling
  {
    if !before.calling && after.calling then [CallStart(after.id)]
    else if before.calling && !after.calling then [CallEnd(after.id)]
    else []
  }

  /** The events of a replace patch of a cached chat: the name, then the
      membership, then the call flag, each compared between the snapshot
      `before` and the patched chat `after`; at most one event per stage. */
  function ChatDiff(before: Chat, after: Chat): (evs: seq<Event>)
    ensures forall i, j :: 0 <= i < j < |evs| ==> Stage(evs[i]) < Stage(evs[j])
    ensures forall e :: e in evs ==> Stage(e) < 3 && e.chatId == after.id
    ensures (before.name == after.name && before.users == after.users && before.calling == after.calling)
              ==> evs == []
  {
    var n, m, c := NameDiff(before, after), MemberDiff(before, after), CallDiff(before, after);
    StagesIncrease(n, m, c);
    n + m + c
  }

  /** `chatNameUpdate` carries the old and new names and is emitted exactly
      when the name changed; `callStart` and `callEnd` exactly on a rising
      and a falling call flag. */
  lemma ChatDiffNameAndCall(before: Chat, after: Chat)
    ensures ChatNameUpdate(after.id, before.name, after.name) in ChatDiff(before, after) <==> before.name != after.name
    ensures forall e :: e in ChatDiff(before, after) && e.ChatNameUpdate? ==> e == ChatNameUpdate(after.id, before.name, after.name)
    ensures CallStart(after.id) in ChatDiff(before, after) <==> !before.calling && after.calling
    ensures CallEnd(after.id) in ChatDiff(before, after) <==> before.calling && !after.calling
  {
    var n, m, c := NameDiff(before, after), MemberDiff(before, after), CallDiff(before, after);
    assert ChatDiff(before, after) == n + m + c;
    InConcat3(n, m, c);
  }

  /** A membership event names a member that joined when the list grew, or
      one that left when it shrank, and there is none when the size is equal. */
  lemma ChatDiffMembershipSound(before: Chat, after: Chat)
    ensures forall u :: ChatUserAdd(after.id, u) in ChatDiff(before, after) ==>
              |before.users| < |after.users| && u in after.users && u !in before.users
    ensures forall u :: ChatUserRemove(after.id, u) in ChatDiff(before, after) ==>
              |before.users| > |after.users| && u in before.users && u !in after.users
    ensures |before.users| == |after.users| ==> forall e :: e in ChatDiff(before, after) ==> Stage(e) != 1
  {
    var n, m, c := NameDiff(before, after), MemberDiff(before, after), CallDiff(before, after);
    assert ChatDiff(before, after) == n + m + c;
    InConcat3(n, m, c);
  }

  lemma InConcat3(n: seq<Event>, m: seq<Event>, c: seq<Event>)
    ensures forall e :: e in n + m + c <==> e in n || e in m || e in c
  {
  }

  /** One event at most from each stage, concatenated in stage order. */
  lemma StagesIncrease(n: seq<Event>, m: seq<Event>, c: seq<Event>)
    requires |n| <= 1 && |m| <= 1 && |c| <= 1
    requires (forall e :: e in n ==> Stage(e) == 0) && (forall e :: e in m ==> Stage(e) == 1)
    requires forall e :: e in c ==> Stage(e) == 2
    ensures forall i, j :: 0 <= i < j < |n + m + c| ==> Stage((n + m + c)[i]) < Stage((n + m + c)[j])
  {
    var evs := n + m + c;
    forall k | 0 <= k < |evs|
      ensures Stage(evs[k]) == if k < |n| then 0 else if k < |n| + |m| then 1 else 2
    {
      if k < |n| {
        assert evs[k] == n[k];
      } else if k < |n| + |m| {
        assert evs[k] == m[k - |n|];
      } else {
        assert evs[k] == c[k - |n| - |m|];
      }
    }
  }

  /** The membership events of the comparison are those of its second stage. */
  lemma StageOneIsMembership(n: seq<Event>, m: seq<Event>, c: seq<Event>)
    requires (forall e :: e in n ==> Stage(e) == 0) && (forall e :: e in m ==> Stage(e) == 1)
    requires forall e :: e in c ==> Stage(e) == 2
    ensures (set e | e in n + m + c && Stage(e) == 1) == (set e | e in m)
  {
    InConcat3(n, m, c);
  }

  /** The membership stage reports a member that joined when the key list
      grew and one that left when it shrank. */
  lemma MemberDiffReports(before: Chat, after: Chat)
    requires Distinct(before.users) && Distinct(after.users)
    ensures |before.users| < |after.users| ==>
              exists u :: u in after.users && u !in before.users && MemberDiff(before, after) == [ChatUserAdd(after.id, u)]
    ensures |before.users| > |after.users| ==>
              exists u :: u in before.users && u !in after.users && MemberDiff(before, after) == [ChatUserRemove(after.id, u)]
  {
    if |before.users| < |after.users| {
      LongerKeyListHasNewElement(before.users, after.users);
    } else if |before.users| > |after.users| {
      LongerKeyListHasNewElement(after.users, before.users);
    }
  }

  /** When the member list grew (shrank), exactly one membership event is
      emitted and it names a member that joined (left). */
  lemma ChatDiffReportsMembership(before: Chat, after: Chat)
    requires Distinct(before.users) && Distinct(after.users)
    ensures |before.users| < |after.users| ==>
              exists u :: u in after.users && u !in before.users && ChatUserAdd(after.id, u) in ChatDiff(before, after)
    ensures |before.users| > |after.users| ==>
              exists u :: u in before.users && u !in after.users && ChatUserRemove(after.id, u) in ChatDiff(before, after)
    ensures |set e | e in ChatDiff(before, after) && Stage(e) == 1| == (if |before.users| == |after.users| then 0 else 1)
  {
    var n, m, c := NameDiff(before, after), MemberDiff(before, after), CallDiff(before, after);
    assert ChatDiff(before, after) == n + m + c;
    StageOneIsMembership(n, m, c);
    InConcat3(n, m, c);
    MemberDiffReports(before, after);
    if |before.users| != |after.users| {
      var e := m[0];
      assert m == [e];
      assert (set x | x in m) == {e};
    } else {
      assert (set x | x in m) == {};
    }
  }

  // ---------------------------------------------------------------- likes

  datatype LikeChange = NoLikeChange | LikeAdded(userId: UserId) | LikeRemoved(userId: UserId)

  /** The like comparison of a replace patch of a cached message: a removal
      only when the list shrank, an addition only when it grew. */
  function LikeDelta(before: seq<UserId>, after: seq<UserId>): (c: LikeChange)
    ensures c.LikeAdded? ==> |before| < |after| && c.userId in after && c.userId !in before
    ensures c.LikeRemoved? ==> |before| > |after| && c.userId in before && c.userId !in after
    ensures c.NoLikeChange? && |before| < |after| ==> forall u :: u in after ==> u in before
    ensures c.NoLikeChange? && |before| > |after| ==> forall u :: u in before ==> u in after
  {
    if |before| > |after| then
      match FirstMissing(before, after)
      case Some(u) => LikeRemoved(u)
      case None => NoLikeChange
    else if |after| > |before| then
      match FirstMissing(after, before)
      case Some(u) => LikeAdded(u)
      case None => NoLikeChange
    else NoLikeChange
  }

  /** On lists without repeated likes, a change of length is always reported. */
  lemma LikeDeltaReportsChange(before: seq<UserId>, after: seq<UserId>)
    requires Distinct(before) && Distinct(after)
    ensures |before| < |after| ==> LikeDelta(before, after).LikeAdded?
    ensures |before| > |after| ==> LikeDelta(before, after).LikeRemoved?
    ensures |before| == |after| <==> LikeDelta(before, after).NoLikeChange?
  {
    if |before| < |after| {
      LongerKeyListHasNewElement(before, after);
    } else if |before| > |after| {
      LongerKeyListHasNewElement(after, before);
    }
  }

  /** The like comparison as the client writes it: on a shrinking list it
      reads the user ID of the removed like before testing that one was found,
      so when every old like is still present (a user who had liked twice)
      the read throws. `None` stands for that fault. */
  function LikeDeltaAsWritten(before: seq<UserId>, after: seq<UserId>): (r: Option<LikeChange>)
    ensures r.None? <==> |before| > |after| && FirstMissing(before, after).None?
    ensures r.Some? ==> r.value == LikeDelta(before, after)
  {
    if |before| > |after| then
      match FirstMissing(before, after)
      case Some(u) => Some(LikeRemoved(u))
      case None => None
    else Some(LikeDelta(before, after))
  }

  /** A message liked twice by one user, patched down to one like, makes the
      code as written fault, where the guarded comparison reports nothing. */
  lemma LikeDeltaAsWrittenFaults()
    ensures LikeDeltaAsWritten(["u1", "u1"], ["u1"]) == None
    ensures LikeDelta(["u1", "u1"], ["u1"]) == NoLikeChange
  {
    assert FirstMissing(["u1", "u1"], ["u1"]).None?;
  }

  // --------------------------------------------------------------- admins

  /** An admin-add record appends the user ID to the chat's admin list. */
  function AdminsAfterAdd(admins: seq<UserId>, u: UserId): (r: seq<UserId>)
    ensures |r| == |admins| + 1 && r[..|admins|] == admins && r[|admins|] == u
  {
    admins + [u]
  }

  /** The admin-remove path as written appends the user ID as well. */
  function AdminsAfterRemoveAsWritten(admins: seq<UserId>, u: UserId): (r: seq<UserId>)
    ensures u in r && |r| == |admins| + 1
  {
    admins + [u]
  }

  /** Removing a user from the administrators: every occurrence of the ID
      goes, every other ID stays in its order. */
  function AdminsAfterRemove(admins: seq<UserId>, u: UserId): (r: seq<UserId>)
    ensures u !in r
    ensures forall x :: x in r <==> x in admins && x != u
    ensures |r| <= |admins|
  {
    if admins == [] then []
    else if admins[0] == u then AdminsAfterRemove(admins[1..], u)
    else [admins[0]] + AdminsAfterRemove(admins[1..], u)
  }

  /** Removal undoes an addition of a user who was not an admin. */
  lemma {:induction false} AdminRemoveUndoesAdd(admins: seq<UserId>, u: UserId)
    requires u !in admins
    ensures AdminsAfterRemove(AdminsAfterAdd(admins, u), u) == admins
  {
    if admins == [] {
      assert AdminsAfterAdd(admins, u) == [u];
    } else {
      assert AdminsAfterAdd(admins, u)[1..] == AdminsAfterAdd(admins[1..], u);
      AdminRemoveUndoesAdd(admins[1..], u);
    }
  }

  /** As written, a user removed from the administrators is still listed as one. */
  lemma AdminRemoveAsWrittenKeepsAdmin(admins: seq<UserId>, u: UserId)
    ensures u in AdminsAfterRemoveAsWritten(admins, u)
    ensures u !in AdminsAfterRemove(admins, u)
  {
  }
}
