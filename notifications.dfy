/**
 * The notification context provider: the signed-in user's notifications, the
 * number still unread, marking one or all as read through the server, and
 * notifications pushed over the socket. Server answers are parameters; a
 * failed request is `None`.
 */
module Notifications {
  import opened Wrappers
  import Seqs

  /** A notification; `status` is the server's string, "unread" or "read". */
  datatype Notification = Notification(id: string, status: string, message: string)

  /** The filter callback `(notification) => notification.status === "unread"`. */
  function IsUnread(): Notification -> bool {
    (n: Notification) => n.status == "unread"
  }

  /** `notifications.filter(unread)`. */
  function Unread(ns: seq<Notification>): (r: seq<Notification>)
    ensures forall n :: n in r <==> n in ns && n.status == "unread"
    ensures forall n :: multiset(r)[n] == if n.status == "unread" then multiset(ns)[n] else 0
    ensures Seqs.IsSubsequence(r, ns)
  {
    Seqs.FilterMultiset(ns, IsUnread());
    Seqs.FilterIsSubsequence(ns, IsUnread());
    Seqs.Filter(ns, IsUnread())
  }

  /** `unreadCount`: the number of notifications whose status is "unread". */
  function UnreadCount(ns: seq<Notification>): (c: nat)
    ensures c <= |ns|
    ensures c == 0 <==> forall n :: n in ns ==> n.status != "unread"
  {
    var r := Unread(ns);
    assert r != [] ==> r[0] in r;
    |r|
  }

  /** The ids of `u`, in order: `u.map((n) => n.id)`. */
  function IdsOf(u: seq<Notification>): (ids: seq<string>)
    ensures |ids| == |u|
    ensures forall i :: 0 <= i < |u| ==> ids[i] == u[i].id
  {
    seq(|u|, i requires 0 <= i < |u| => u[i].id)
  }

  /** An id is among `IdsOf(u)` exactly when some notification of `u` carries it. */
  lemma IdsOfMembers(u: seq<Notification>)
    ensures forall id :: id in IdsOf(u) <==> exists n :: n in u && n.id == id
  {
    var ids := IdsOf(u);
    forall id | id in ids ensures exists n :: n in u && n.id == id {
      var i :| 0 <= i < |ids| && ids[i] == id;
      assert u[i] in u;
    }
    forall n | n in u ensures n.id in ids {
      var i :| 0 <= i < |u| && u[i] == n;
      assert ids[i] == n.id;
    }
  }

  /** The ids `markAllAsRead` sends an update for: those of the unread notifications, in list order. */
  function UnreadIds(ns: seq<Notification>): (ids: seq<string>)
    ensures forall id :: id in ids <==> exists n :: n in ns && n.status == "unread" && n.id == id
    ensures |ids| == UnreadCount(ns)
  {
    IdsOfMembers(Unread(ns));
    IdsOf(Unread(ns))
  }

  /** `updatedNotifications.find((u) => u.id === id)`: the first record with that id. */
  function FindById(updated: seq<Notification>, id: string): (r: Option<Notification>)
    ensures r.Some? ==> r.value in updated && r.value.id == id
    ensures r.None? <==> forall u :: u in updated ==> u.id != id
    ensures r.Some? ==> exists j :: 0 <= j < |updated| && updated[j] == r.value &&
                                    forall k :: 0 <= k < j ==> updated[k].id != id
  {
    if updated == [] then None
    else if updated[0].id == id then Some(updated[0])
    else FindById(updated[1..], id)
  }

  /** The merge step of `markAllAsRead`: each notification becomes the returned record with its id, if any. */
  function Merge(prev: seq<Notification>, updated: seq<Notification>): (r: seq<Notification>)
    ensures |r| == |prev|
    ensures forall i :: 0 <= i < |prev| ==> r[i].id == prev[i].id
    ensures forall i :: 0 <= i < |prev| ==> r[i] == prev[i] || r[i] in updated
    ensures forall i :: 0 <= i < |prev| && (forall u :: u in updated ==> u.id != prev[i].id) ==> r[i] == prev[i]
    ensures forall i :: 0 <= i < |prev| && (exists u :: u in updated && u.id == prev[i].id) ==>
              r[i] in updated && r[i] == FindById(updated, prev[i].id).value
  {
    seq(|prev|, i requires 0 <= i < |prev| => FindById(updated, prev[i].id).GetOr(prev[i]))
  }

  /** `prev.map((n) => n.id === id ? updatedNotification : n)`. */
  function ReplaceById(prev: seq<Notification>, id: string, x: Notification): (r: seq<Notification>)
    ensures |r| == |prev|
    ensures forall i :: 0 <= i < |prev| && prev[i].id != id ==> r[i] == prev[i]
    ensures forall i :: 0 <= i < |prev| && prev[i].id == id ==> r[i] == x
  {
    Seqs.ReplaceWhere(prev, (n: Notification) => n.id, id, x)
  }

  /**
   * If the server answered for every unread notification and every answer is
   * "read", nothing is unread after the merge.
   */
  lemma MarkAllReadLeavesNoneUnread(prev: seq<Notification>, updated: seq<Notification>)
    requires forall u :: u in updated ==> u.status == "read"
    requires forall n :: n in prev && n.status == "unread" ==> exists u :: u in updated && u.id == n.id
    ensures UnreadCount(Merge(prev, updated)) == 0
  {
    var r := Merge(prev, updated);
    forall n | n in r ensures n.status != "unread" {
      var i :| 0 <= i < |r| && r[i] == n;
      assert prev[i] in prev;
      var f := FindById(updated, prev[i].id);
      if f.None? {
        assert r[i] == prev[i];
      }
    }
  }

  /**
   * Marking a notification read never raises the unread count: whatever id was
   * requested, a reply whose status is "read" only takes unread slots away.
   */
  lemma MarkReadNeverRaisesUnread(prev: seq<Notification>, id: string, x: Notification)
    requires x.status == "read"
    ensures UnreadCount(ReplaceById(prev, id, x)) <= UnreadCount(prev)
  {
    UnreadSubset(ReplaceById(prev, id, x), prev);
  }

  /** Position by position, a list whose unread notifications all stand at the same place in another has no more of them. */
  lemma {:induction false} UnreadSubset(r: seq<Notification>, prev: seq<Notification>)
    requires |r| == |prev|
    requires forall i :: 0 <= i < |r| && r[i].status == "unread" ==> r[i] == prev[i]
    ensures UnreadCount(r) <= UnreadCount(prev)
  {
    if r != [] {
      var r', p' := r[1..], prev[1..];
      forall i | 0 <= i < |r'| && r'[i].status == "unread" ensures r'[i] == p'[i] {
        assert r'[i] == r[i + 1] && p'[i] == prev[i + 1];
      }
      UnreadSubset(r', p');
      UnreadCountFront(r);
      UnreadCountFront(prev);
    }
  }

  /** The unread count of a non-empty list: its head's contribution plus the rest's count. */
  lemma UnreadCountFront(s: seq<Notification>)
    requires s != []
    ensures UnreadCount(s) == UnreadCount(s[1..]) + (if s[0].status == "unread" then 1 else 0)
  {
    assert s == [s[0]] + s[1..];
    Seqs.FilterConcat([s[0]], s[1..], IsUnread());
  }

  // ---------------------------------------------------------------------------
  // The provider's state

  class NotificationCenter {
    var notifications: seq<Notification>
    var loading: bool

    constructor ()
      ensures notifications == [] && !loading
    {
      notifications, loading := [], false;
    }

    /**
     * `fetchNotifications`: nothing at all without a user; otherwise ask for the
     * user's notifications by email, replace the list on success, keep it on
     * failure, and end with loading false.
     */
    method FetchNotifications(userEmail: Option<string>, api: string -> Option<seq<Notification>>)
      modifies this
      ensures userEmail.None? ==> notifications == old(notifications) && loading == old(loading)
      ensures userEmail.Some? ==> !loading
      ensures userEmail.Some? ==>
                notifications == api(userEmail.value).GetOr(old(notifications))
    {
      if userEmail.None? {
        return;
      }
      loading := true;
      var response := api(userEmail.value);
      if response.Some? {
        notifications := response.value;
      }
      loading := false;
    }

    /** `markAsRead(id)`: on success the notification with that id becomes the server's record; on failure nothing changes. */
    method MarkAsRead(id: string, reply: Option<Notification>)
      modifies this`notifications
      ensures notifications == if reply.Some? then ReplaceById(old(notifications), id, reply.value) else old(notifications)
    {
      if reply.Some? {
        notifications := ReplaceById(notifications, id, reply.value);
      }
    }

    /**
     * `markAllAsRead`: request an update for each unread notification; if every
     * request succeeds, merge the answers by id; if any fails, nothing changes.
     */
    method MarkAllAsRead(replies: Option<seq<Notification>>) returns (requested: seq<string>)
      modifies this`notifications
      ensures requested == UnreadIds(old(notifications))
      ensures notifications == if replies.Some? then Merge(old(notifications), replies.value) else old(notifications)
    {
      requested := UnreadIds(notifications);
      if replies.Some? {
        notifications := Merge(notifications, replies.value);
      }
    }

    /** A notification pushed over the socket goes to the top of the list. */
    method Receive(n: Notification)
      modifies this`notifications
      ensures notifications == [n] + old(notifications)
      ensures UnreadCount(notifications) == UnreadCount(old(notifications)) + (if n.status == "unread" then 1 else 0)
    {
      notifications := [n] + notifications;
      UnreadCountFront(notifications);
      assert notifications[1..] == old(notifications);
    }
  }
}
