/** The notification bell: the list of notifications and the unread count
    it shows, and how marking one or all as read changes them. */
module Notifications {
  import opened Common
  import JsText

  datatype Kind = Success | Warning | Info | Payment | Investment | Zakat

  datatype Notification = Notification(id: string, kind: Kind, title: string, message: string,
                                       timestamp: string, read: bool, actionUrl: Option<string>)

  /** The list with the notification(s) of that id marked read. */
  function MarkRead(ns: seq<Notification>, id: string): (r: seq<Notification>)
    ensures |r| == |ns|
    ensures forall i :: 0 <= i < |ns| && ns[i].id == id ==> r[i] == ns[i].(read := true)
    ensures forall i :: 0 <= i < |ns| && ns[i].id != id ==> r[i] == ns[i]
  {
    seq(|ns|, i requires 0 <= i < |ns| => if ns[i].id == id then ns[i].(read := true) else ns[i])
  }

  /** The list with every notification marked read. */
  function MarkAllRead(ns: seq<Notification>): (r: seq<Notification>)
    ensures |r| == |ns|
    ensures forall i :: 0 <= i < |ns| ==> r[i] == ns[i].(read := true)
  {
    seq(|ns|, i requires 0 <= i < |ns| => ns[i].(read := true))
  }

  /** The number of unread notifications in the list. */
  function CountUnread(ns: seq<Notification>): (n: nat)
    ensures n <= |ns|
  {
    if ns == [] then 0 else (if ns[0].read then 0 else 1) + CountUnread(ns[1..])
  }

  predicate UniqueIds(ns: seq<Notification>)
  {
    forall i, j :: 0 <= i < j < |ns| ==> ns[i].id != ns[j].id
  }

  /** Marking everything read is idempotent and leaves nothing unread. */
  lemma MarkAllReadIdempotent(ns: seq<Notification>)
    ensures MarkAllRead(MarkAllRead(ns)) == MarkAllRead(ns)
    ensures CountUnread(MarkAllRead(ns)) == 0
  {
    NoneUnread(MarkAllRead(ns));
  }

  lemma {:induction false} NoneUnread(ns: seq<Notification>)
    requires forall i :: 0 <= i < |ns| ==> ns[i].read
    ensures CountUnread(ns) == 0
  {
    if ns != [] {
      NoneUnread(ns[1..]);
    }
  }

  /** With unique ids, marking an unread notification read lowers the
      unread count by exactly one, and marking a read one changes nothing. */
  lemma {:induction false} MarkReadCount(ns: seq<Notification>, k: nat)
    requires UniqueIds(ns) && k < |ns|
    ensures !ns[k].read ==> CountUnread(MarkRead(ns, ns[k].id)) == CountUnread(ns) - 1
    ensures ns[k].read ==> MarkRead(ns, ns[k].id) == ns
  {
    var id := ns[k].id;
    if k == 0 {
      assert forall i :: 0 <= i < |ns| - 1 ==> ns[1..][i].id != id;
      assert MarkRead(ns, id)[1..] == MarkRead(ns[1..], id) == ns[1..];
    } else {
      MarkReadCount(ns[1..], k - 1);
      assert MarkRead(ns, id)[1..] == MarkRead(ns[1..], id);
    }
  }

  /** The bell's badge: hidden at zero, "9+" above nine, the count
      otherwise; the "Mark all read" button shows exactly with the badge. */
  function BadgeLabel(unreadCount: int): (badge: Option<string>)
    ensures badge.None? <==> unreadCount <= 0
    ensures badge.Some? <==> ShowsMarkAll(unreadCount)
    ensures unreadCount > 9 ==> badge == Some("9+")
    ensures 0 < unreadCount <= 9 ==> badge.Some? && |badge.value| == 1 &&
                                      JsText.NumberOf(badge.value) == Some(unreadCount)
  {
    if unreadCount <= 0 then None
    else if unreadCount > 9 then Some("9+")
    else
      JsText.NumberOfNatToString(unreadCount);
      Some(JsText.NatToString(unreadCount))
  }

  /** The "Mark all read" button is shown exactly when something is unread. */
  predicate ShowsMarkAll(unreadCount: int)
  {
    unreadCount > 0
  }

  /** The component state: the list and the count, replaced on each event. */
  class NotificationCenter {
    var notifications: seq<Notification>
    var unreadCount: int

    /** The count matches the list, as after a successful fetch whose
        server-side count agrees with its list. */
    ghost predicate Consistent()
      reads this
    {
      UniqueIds(notifications) && unreadCount == CountUnread(notifications)
    }

    constructor ()
      ensures notifications == [] && unreadCount == 0
      ensures Consistent()
    {
      notifications := [];
      unreadCount := 0;
    }

    /** A fetch replaces both fields with the server's answer when the
        response is ok and leaves them otherwise. */
    method Load(ok: bool, fetched: seq<Notification>, fetchedCount: int)
      modifies this
      ensures ok ==> notifications == fetched && unreadCount == fetchedCount
      ensures !ok ==> notifications == old(notifications) && unreadCount == old(unreadCount)
    {
      if ok {
        notifications := fetched;
        unreadCount := fetchedCount;
      }
    }

    /** Marks one notification read: when the request throws nothing
        changes, otherwise that id is marked read and the count drops by
        one, never below zero. */
    method MarkAsRead(id: string, requestThrew: bool)
      modifies this
      ensures requestThrew ==> notifications == old(notifications) && unreadCount == old(unreadCount)
      ensures !requestThrew ==> notifications == MarkRead(old(notifications), id)
      ensures !requestThrew ==> unreadCount == if old(unreadCount) - 1 > 0 then old(unreadCount) - 1 else 0
      ensures old(unreadCount) >= 0 ==> unreadCount >= 0
    {
      if !requestThrew {
        notifications := MarkRead(notifications, id);
        unreadCount := if unreadCount - 1 > 0 then unreadCount - 1 else 0;
      }
    }

    /** Marks everything read; when the request throws nothing changes. */
    method MarkAllAsRead(requestThrew: bool)
      modifies this
      ensures requestThrew ==> notifications == old(notifications) && unreadCount == old(unreadCount)
      ensures !requestThrew ==> notifications == MarkAllRead(old(notifications)) && unreadCount == 0
      ensures old(Consistent()) ==> Consistent()
    {
      if !requestThrew {
        notifications := MarkAllRead(notifications);
        unreadCount := 0;
        MarkAllReadIdempotent(old(notifications));
      }
    }

    /** A click on the k-th item: only an unread item is marked read, and
        the item's link, when it has a non-empty one, is where the page
        navigates. The guard keeps the count in step with the list. */
    method Click(k: nat, requestThrew: bool) returns (navigateTo: Option<string>)
      requires k < |notifications|
      modifies this
      ensures old(notifications[k].read) ==> notifications == old(notifications) && unreadCount == old(unreadCount)
      ensures !old(notifications[k].read) ==> notifications == if requestThrew then old(notifications)
                                                               else MarkRead(old(notifications), old(notifications[k].id))
      ensures !old(notifications[k].read) ==>
                unreadCount == if requestThrew then old(unreadCount)
                               else if old(unreadCount) > 0 then old(unreadCount) - 1 else 0
      ensures navigateTo.Some? <==> old(notifications[k].actionUrl).Some? && old(notifications[k].actionUrl).value != ""
      ensures navigateTo.Some? ==> navigateTo == old(notifications[k].actionUrl)
      ensures old(Consistent()) ==> Consistent()
    {
      var item := notifications[k];
      if !item.read {
        if Consistent() {
          MarkReadCount(notifications, k);
        }
        MarkAsRead(item.id, requestThrew);
      }
      navigateTo := if item.actionUrl.Some? && item.actionUrl.value != "" then item.actionUrl else None;
    }
  }
}
