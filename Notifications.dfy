/** The notification store: the user's latest notifications, the unread count
    derived from them, and the two "mark as read" updates that rewrite the
    list locally after the backend call. */
module Notifications {
  import opened Base
  import Seqs

  /** The `type` column. The switch over it in the bell has a default branch,
      so a type outside the four is kept as `Other`. */
  datatype Kind = Like | Comment | WorkApproved | WorkRejected | Other(name: string)

  /** The `payload` fields the client reads; each may be absent. */
  datatype Payload = Payload(
    likerName: Option<string>,
    commenterName: Option<string>,
    workTitle: Option<string>,
    note: Option<string>)

  datatype Notification = Notification(
    id: string,
    kind: Kind,
    targetId: Option<string>,
    payload: Payload,
    readAt: Option<string>)

  /** `!n.read_at`: a null or empty read stamp counts as unread. */
  predicate IsUnread(n: Notification) {
    !Truthy(n.readAt)
  }

  /** `notifications.filter(n => !n.read_at).length`. */
  function UnreadCount(ns: seq<Notification>): (c: nat)
    ensures c <= |ns|
  {
    |Seqs.Filter(ns, IsUnread)|
  }

  /** The count is zero exactly when every notification is read. */
  lemma UnreadCountZero(ns: seq<Notification>)
    ensures UnreadCount(ns) == 0 <==> forall i :: 0 <= i < |ns| ==> !IsUnread(ns[i])
  {
    var u := Seqs.Filter(ns, IsUnread);
    if |u| > 0 {
      assert u[0] in u;
    }
    assert forall i :: 0 <= i < |ns| ==> ns[i] in ns;
  }

  /** The list after `markAsRead(ids)`: every notification whose id is listed
      gets the stamp, even one that was already read; nothing else changes. */
  function MarkRead(ns: seq<Notification>, ids: seq<string>, stamp: string): (r: seq<Notification>)
    ensures |r| == |ns|
    ensures forall i :: 0 <= i < |ns| ==> r[i].(readAt := ns[i].readAt) == ns[i]
    ensures forall i :: 0 <= i < |ns| ==> (ns[i].id in ids ==> r[i].readAt == Some(stamp))
    ensures forall i :: 0 <= i < |ns| ==> (ns[i].id !in ids ==> r[i] == ns[i])
  {
    seq(|ns|, i requires 0 <= i < |ns| =>
      if ns[i].id in ids then ns[i].(readAt := Some(stamp)) else ns[i])
  }

  /** The list after `markAllRead()`: an existing read stamp is never replaced,
      and every unread notification gets the new one. */
  function MarkAll(ns: seq<Notification>, stamp: string): (r: seq<Notification>)
    ensures |r| == |ns|
    ensures forall i :: 0 <= i < |ns| ==> r[i].(readAt := ns[i].readAt) == ns[i]
    ensures forall i :: 0 <= i < |ns| ==> (!IsUnread(ns[i]) ==> r[i] == ns[i])
    ensures forall i :: 0 <= i < |ns| ==> (IsUnread(ns[i]) ==> r[i].readAt == Some(stamp))
  {
    seq(|ns|, i requires 0 <= i < |ns| =>
      if IsUnread(ns[i]) then ns[i].(readAt := Some(stamp)) else ns[i])
  }

  predicate UnreadAndNotIn(ids: seq<string>, n: Notification) {
    IsUnread(n) && n.id !in ids
  }

  /** After `markAsRead(ids)` the unread ones are exactly those that were
      unread and not listed. (`toISOString()` is never empty.) */
  lemma MarkReadUnread(ns: seq<Notification>, ids: seq<string>, stamp: string)
    requires stamp != ""
    ensures UnreadCount(MarkRead(ns, ids, stamp)) == |Seqs.Filter(ns, n => UnreadAndNotIn(ids, n))|
    ensures UnreadCount(MarkRead(ns, ids, stamp)) <= UnreadCount(ns)
  {
    var r := MarkRead(ns, ids, stamp);
    var p := (n: Notification) => UnreadAndNotIn(ids, n);
    forall i | 0 <= i < |r| ensures IsUnread(r[i]) <==> p(ns[i]) {
      if ns[i].id in ids {
        assert r[i].readAt == Some(stamp);
      }
    }
    Seqs.FilterSameCount(r, IsUnread, ns, p);
    CountMonotone(ns, p, IsUnread);
  }

  /** A stricter predicate keeps no more elements. */
  lemma {:induction false} CountMonotone(s: seq<Notification>, p: Notification -> bool, q: Notification -> bool)
    requires forall x :: p(x) ==> q(x)
    ensures |Seqs.Filter(s, p)| <= |Seqs.Filter(s, q)|
  {
    if s != [] {
      CountMonotone(s[1..], p, q);
    }
  }

  /** After `markAllRead()` nothing is unread. */
  lemma MarkAllClearsUnread(ns: seq<Notification>, stamp: string)
    requires stamp != ""
    ensures UnreadCount(MarkAll(ns, stamp)) == 0
  {
    var r := MarkAll(ns, stamp);
    forall i | 0 <= i < |r| ensures !IsUnread(r[i]) {
      if IsUnread(ns[i]) {
        assert r[i].readAt == Some(stamp);
      }
    }
    UnreadCountZero(r);
  }

  /** Marking every unread id reads the same as marking all, as far as the
      unread count goes. */
  lemma MarkListedUnreadClears(ns: seq<Notification>, ids: seq<string>, stamp: string)
    requires stamp != ""
    requires forall i :: 0 <= i < |ns| && IsUnread(ns[i]) ==> ns[i].id in ids
    ensures UnreadCount(MarkRead(ns, ids, stamp)) == 0
  {
    var r := MarkRead(ns, ids, stamp);
    forall i | 0 <= i < |r| ensures !IsUnread(r[i]) {
      if ns[i].id in ids {
        assert r[i].readAt == Some(stamp);
      }
    }
    UnreadCountZero(r);
  }

  /** `useNotifications()`: the list and its loading flag. */
  class Store {
    var notifications: seq<Notification>
    var loading: bool

    constructor ()
      ensures notifications == [] && loading
    {
      notifications, loading := [], true;
    }

    function Unread(): nat
      reads this
    {
      UnreadCount(notifications)
    }

    /** `fetchNotifications()`: no user, or a failed query, leaves the list as
      it was (the failure is swallowed); otherwise the rows replace it, an
      absent result as the empty list. Loading ends false in every case. */
    method Fetch(signedIn: bool, rows: Option<seq<Notification>>, failed: bool)
      modifies this
      ensures !loading
      ensures !signedIn || failed ==> notifications == old(notifications)
      ensures signedIn && !failed ==> notifications == rows.GetOr([])
    {
      loading := true;
      if signedIn && !failed {
        notifications := rows.GetOr([]);
      }
      loading := false;
    }

    /** `markAsRead(ids)`. The rpc's own error result is not inspected; only a
      thrown call (`throws`) skips the local update. */
    method MarkAsRead(ids: seq<string>, stamp: string, throws: bool)
      requires stamp != ""
      modifies this`notifications
      ensures throws ==> notifications == old(notifications)
      ensures !throws ==> notifications == MarkRead(old(notifications), ids, stamp)
      ensures Unread() <= old(Unread())
    {
      if !throws {
        MarkReadUnread(notifications, ids, stamp);
        notifications := MarkRead(notifications, ids, stamp);
      }
    }

    /** `markAllRead()`: afterwards nothing is unread unless the call threw. */
    method MarkAllRead(stamp: string, throws: bool)
      requires stamp != ""
      modifies this`notifications
      ensures throws ==> notifications == old(notifications)
      ensures !throws ==> notifications == MarkAll(old(notifications), stamp) && Unread() == 0
    {
      if !throws {
        MarkAllClearsUnread(notifications, stamp);
        notifications := MarkAll(notifications, stamp);
      }
    }
  }
}
