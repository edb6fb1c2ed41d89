/** A user's notifications (`/api/notifications`): `GET` lists them, `PATCH`
    marks them read, either all of the caller's or those with the given ids. */
module Notifications {
  import opened Common
  import opened Schema
  import opened Store

  // ---------------------------------------------------------------------
  // GET

  /** The `where` of the listing: the caller's, and unread with `?unread=true`. */
  predicate Wanted(n: Notification, userId: nat, unreadOnly: bool) {
    n.userId == userId && (unreadOnly ==> !n.isRead)
  }

  /** The notifications the listing selects, before ordering and `take: 50`. */
  function Inbox(ns: seq<Notification>, userId: nat, unreadOnly: bool): (r: seq<Notification>)
    ensures forall i :: 0 <= i < |r| ==> r[i] in ns && Wanted(r[i], userId, unreadOnly)
    ensures forall i :: 0 <= i < |ns| && Wanted(ns[i], userId, unreadOnly) ==> ns[i] in r
  {
    Filter(ns, (n: Notification) => Wanted(n, userId, unreadOnly))
  }

  /** The caller's unread notifications, counted. */
  function UnreadOf(ns: seq<Notification>, userId: nat): (n: nat)
    ensures n == |Inbox(ns, userId, true)|
  {
    |Inbox(ns, userId, true)|
  }

  function NewestNotificationFirst(): (le: (Notification, Notification) -> bool)
    ensures TotalPreorder(le)
    ensures forall a, b :: le(a, b) <==> a.createdAt >= b.createdAt
  {
    (a: Notification, b: Notification) => a.createdAt >= b.createdAt
  }

  const PageSize: nat := 50

  datatype Listing = Listing(notifications: seq<Notification>, unreadCount: nat)

  /** `GET /api/notifications?unread=`: at most 50 of the caller's notifications
      (unread ones only with `unread=true`), newest first, none left out that
      is newer than one listed; `unreadCount` counts all of the caller's unread
      notifications whatever the filter and the limit. */
  function ListNotifications(ns: seq<Notification>, userId: nat, unread: Option<string>): (r: Listing)
    ensures var page := r.notifications;
      && |page| == Min(PageSize, |Inbox(ns, userId, QueryFlag(unread))|)
      && multiset(page) <= multiset(Inbox(ns, userId, QueryFlag(unread)))
      && (forall i :: 0 <= i < |page| ==> page[i] in ns && page[i].userId == userId)
      && (QueryFlag(unread) ==> forall i :: 0 <= i < |page| ==> !page[i].isRead)
      && (forall i, j :: 0 <= i < j < |page| ==> page[i].createdAt >= page[j].createdAt)
      && (forall n :: n in ns && Wanted(n, userId, QueryFlag(unread)) && n !in page ==>
            forall i :: 0 <= i < |page| ==> n.createdAt <= page[i].createdAt)
    ensures r.unreadCount == UnreadOf(ns, userId)
  {
    var inbox := Inbox(ns, userId, QueryFlag(unread));
    var le := NewestNotificationFirst();
    var page := TopBy(inbox, le, PageSize);
    NewestPage(ns, userId, QueryFlag(unread), inbox, le, page);
    Listing(page, UnreadOf(ns, userId))
  }

  /** What the page promises, from the facts `TopBy` gives about the inbox. */
  lemma NewestPage(ns: seq<Notification>, userId: nat, unreadOnly: bool, inbox: seq<Notification>,
                   le: (Notification, Notification) -> bool, page: seq<Notification>)
    requires inbox == Inbox(ns, userId, unreadOnly)
    requires forall a, b :: le(a, b) <==> a.createdAt >= b.createdAt
    requires SortedBy(page, le) && multiset(page) <= multiset(inbox)
    requires forall x :: x in inbox && x !in page ==> forall i :: 0 <= i < |page| ==> le(page[i], x)
    ensures forall i :: 0 <= i < |page| ==> page[i] in ns && page[i].userId == userId
    ensures unreadOnly ==> forall i :: 0 <= i < |page| ==> !page[i].isRead
    ensures forall i, j :: 0 <= i < j < |page| ==> page[i].createdAt >= page[j].createdAt
    ensures forall n :: n in ns && Wanted(n, userId, unreadOnly) && n !in page ==>
      forall i :: 0 <= i < |page| ==> n.createdAt <= page[i].createdAt
  {
    assert forall i :: 0 <= i < |page| ==> page[i] in multiset(inbox);
    assert forall i, j :: 0 <= i < j < |page| ==> le(page[i], page[j]);
  }

  /** With `unread=true` the page never holds more than `unreadCount`. */
  lemma UnreadPageWithinCount(ns: seq<Notification>, userId: nat)
    ensures var r := ListNotifications(ns, userId, Some("true"));
      |r.notifications| <= r.unreadCount
  {
    assert QueryFlag(Some("true"));
  }

  /** The count does not depend on the `unread` parameter. */
  lemma UnreadCountIgnoresFilter(ns: seq<Notification>, userId: nat, p: Option<string>, q: Option<string>)
    ensures ListNotifications(ns, userId, p).unreadCount == ListNotifications(ns, userId, q).unreadCount
  {
  }

  // ---------------------------------------------------------------------
  // PATCH

  /** The `where` of the `updateMany`: with `markAllRead`, the caller's
      unread notifications; otherwise, with an id array, the caller's
      notifications among those ids; otherwise none. */
  predicate Selected(n: Notification, userId: nat, markAllRead: bool, ids: Option<seq<nat>>) {
    if markAllRead then n.userId == userId && !n.isRead
    else ids.Some? && n.id in ids.value && n.userId == userId
  }

  /** The notification table after the `updateMany` set `isRead` on the selected rows. */
  function Patched(ns: seq<Notification>, userId: nat, markAllRead: bool, ids: Option<seq<nat>>)
    : (r: seq<Notification>)
    ensures |r| == |ns|
    ensures forall i :: 0 <= i < |ns| ==>
      r[i].id == ns[i].id && r[i].userId == ns[i].userId && r[i].createdAt == ns[i].createdAt
    ensures forall i :: 0 <= i < |ns| ==> (r[i].isRead <==> ns[i].isRead || Selected(ns[i], userId, markAllRead, ids))
  {
    seq(|ns|, i requires 0 <= i < |ns| =>
      if Selected(ns[i], userId, markAllRead, ids) then ns[i].(isRead := true) else ns[i])
  }

  /** Other users' notifications are never touched, whatever ids are sent. */
  lemma OthersUntouched(ns: seq<Notification>, userId: nat, markAllRead: bool, ids: Option<seq<nat>>)
    ensures forall i :: 0 <= i < |ns| && ns[i].userId != userId ==>
      Patched(ns, userId, markAllRead, ids)[i] == ns[i]
  {
  }

  /** Marking all leaves the caller with no unread notification. */
  lemma MarkAllClearsUnread(ns: seq<Notification>, userId: nat, ids: Option<seq<nat>>)
    ensures UnreadOf(Patched(ns, userId, true, ids), userId) == 0
  {
    var r := Patched(ns, userId, true, ids);
    FilterNone(r, (n: Notification) => Wanted(n, userId, true));
  }

  /** With ids, exactly the caller's notifications among them become read. */
  lemma MarkIdsExactly(ns: seq<Notification>, userId: nat, ids: seq<nat>)
    ensures forall i :: 0 <= i < |ns| ==>
      (Patched(ns, userId, false, Some(ids))[i].isRead <==> ns[i].isRead || (ns[i].userId == userId && ns[i].id in ids))
  {
  }

  /** `markAllRead` takes precedence: the ids are then ignored. */
  lemma MarkAllPrecedence(ns: seq<Notification>, userId: nat, ids1: Option<seq<nat>>, ids2: Option<seq<nat>>)
    ensures Patched(ns, userId, true, ids1) == Patched(ns, userId, true, ids2)
  {
  }

  /** With neither `markAllRead` nor an id array nothing changes. */
  lemma NeitherChangesNothing(ns: seq<Notification>, userId: nat)
    ensures Patched(ns, userId, false, None) == ns
  {
  }

  /** Applying the same `PATCH` twice gives the table that applying it once gives. */
  lemma PatchIdempotent(ns: seq<Notification>, userId: nat, markAllRead: bool, ids: Option<seq<nat>>)
    ensures Patched(Patched(ns, userId, markAllRead, ids), userId, markAllRead, ids)
      == Patched(ns, userId, markAllRead, ids)
  {
    var once := Patched(ns, userId, markAllRead, ids);
    var twice := Patched(once, userId, markAllRead, ids);
    forall i | 0 <= i < |ns|
      ensures twice[i] == once[i]
    {
      if Selected(once[i], userId, markAllRead, ids) {
        assert once[i].isRead;
      }
    }
  }

  /** The patched table still has its ids in place and its owners in range. */
  lemma PatchedStaysValid(ns: seq<Notification>, nUsers: nat, userId: nat, markAllRead: bool, ids: Option<seq<nat>>)
    requires NotificationsOk(ns, nUsers)
    ensures NotificationsOk(Patched(ns, userId, markAllRead, ids), nUsers)
  {
  }

  /** `PATCH /api/notifications` with body `{ notificationIds, markAllRead }`:
      the update runs row by row over the table. */
  method MarkRead(db: Db, userId: nat, markAllRead: bool, ids: Option<seq<nat>>) returns (message: string)
    requires db.Valid()
    modifies db
    ensures db.notifications == Patched(old(db.notifications), userId, markAllRead, ids)
    ensures db.users == old(db.users) && db.customers == old(db.customers) && db.classes == old(db.classes)
    ensures db.instances == old(db.instances) && db.bookings == old(db.bookings)
    ensures db.transactions == old(db.transactions) && db.attendances == old(db.attendances)
    ensures db.checkpoints == old(db.checkpoints)
    ensures db.Valid()
    ensures message == "Notifications updated"
  {
    ghost var before := db.notifications;
    ghost var after := Patched(before, userId, markAllRead, ids);
    PatchedStaysValid(before, |db.users|, userId, markAllRead, ids);
    var i := 0;
    while i < |db.notifications|
      invariant |db.notifications| == |before|
      invariant 0 <= i <= |before|
      invariant forall j :: 0 <= j < i ==> db.notifications[j] == after[j]
      invariant forall j :: i <= j < |before| ==> db.notifications[j] == before[j]
      invariant db.users == old(db.users) && db.customers == old(db.customers) && db.classes == old(db.classes)
      invariant db.instances == old(db.instances) && db.bookings == old(db.bookings)
      invariant db.transactions == old(db.transactions) && db.attendances == old(db.attendances)
      invariant db.checkpoints == old(db.checkpoints)
    {
      var n := db.notifications[i];
      if Selected(n, userId, markAllRead, ids) {
        db.notifications := db.notifications[i := n.(isRead := true)];
      }
      i := i + 1;
    }
    assert db.notifications == after;
    message := "Notifications updated";
  }
}
