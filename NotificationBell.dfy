/** The bell in the header: the compact relative time with weeks, the text and
    link of each notification, the unread badge, and the delayed auto-mark of
    the unread notifications while the panel is open. */
module NotificationBell {
  import opened Base
  import Seqs
  import Text
  import TimeAgo
  import N = Notifications

  /** What the bell's `getTimeAgo` distinguishes: a day count of a week or more
      is shown in whole weeks. */
  datatype Shown = Now | Minutes(m: nat) | Hours(h: nat) | Days(d: nat) | Weeks(w: nat)

  function Coarse(a: TimeAgo.Ago): (s: Shown)
    ensures a.Days? && a.d >= 7 ==> s == Weeks(a.d / 7) && s.w >= 1
    ensures a.Days? && a.d < 7 ==> s == Days(a.d)
  {
    match a
    case Now => Now
    case Minutes(m) => Minutes(m)
    case Hours(h) => Hours(h)
    case Days(d) => if d < 7 then Days(d) else Weeks(d / 7)
  }

  function Label(s: Shown): string {
    match s
    case Now => "ahora"
    case Minutes(m) => Text.NatToString(m) + "min"
    case Hours(h) => Text.NatToString(h) + "h"
    case Days(d) => Text.NatToString(d) + "d"
    case Weeks(w) => Text.NatToString(w) + "sem"
  }

  /** `getTimeAgo(created_at)` for an age of `diff` milliseconds. */
  function GetTimeAgo(diff: int): string {
    Label(Coarse(TimeAgo.Bucket(diff)))
  }

  lemma LabelInjective(a: Shown, b: Shown)
    requires Label(a) == Label(b)
    ensures a == b
  {
    var s := Label(a);
    assert s[|s| - 1] == Label(b)[|Label(b)| - 1];
    match a
    case Now =>
    case Minutes(m) =>
      assert b.Minutes?;
      assert Label(a) == "" + Text.NatToString(m) + "min";
      assert Label(b) == "" + Text.NatToString(b.m) + "min";
      Text.AffixCancel("", Text.NatToString(m), Text.NatToString(b.m), "min");
      Text.NatToStringInjective(m, b.m);
    case Hours(h) =>
      assert b.Hours?;
      assert Label(a) == "" + Text.NatToString(h) + "h";
      assert Label(b) == "" + Text.NatToString(b.h) + "h";
      Text.AffixCancel("", Text.NatToString(h), Text.NatToString(b.h), "h");
      Text.NatToStringInjective(h, b.h);
    case Days(d) =>
      assert b.Days?;
      assert Label(a) == "" + Text.NatToString(d) + "d";
      assert Label(b) == "" + Text.NatToString(b.d) + "d";
      Text.AffixCancel("", Text.NatToString(d), Text.NatToString(b.d), "d");
      Text.NatToStringInjective(d, b.d);
    case Weeks(w) =>
      assert b.Weeks?;
      assert Label(a) == "" + Text.NatToString(w) + "sem";
      assert Label(b) == "" + Text.NatToString(b.w) + "sem";
      Text.AffixCancel("", Text.NatToString(w), Text.NatToString(b.w), "sem");
      Text.NatToStringInjective(w, b.w);
  }

  /** Two ages read the same exactly when they fall in the same minute, hour,
      day under a week, or whole week. */
  lemma SameLabelSameSpan(d1: int, d2: int)
    ensures GetTimeAgo(d1) == GetTimeAgo(d2) <==> Coarse(TimeAgo.Bucket(d1)) == Coarse(TimeAgo.Bucket(d2))
  {
    if GetTimeAgo(d1) == GetTimeAgo(d2) {
      LabelInjective(Coarse(TimeAgo.Bucket(d1)), Coarse(TimeAgo.Bucket(d2)));
    }
  }

  /** What `getNotificationContent` gives: the text and the optional link; the
      icon is presentation only. */
  datatype Content = Content(text: string, href: Option<string>)

  const WORK_LINK: string := "/dashboard/work/"
  const MY_WORKS: string := "/dashboard/my-works"
  const GENERIC: string := "Nueva notificación"

  /** `n.target_id ? "/dashboard/work/{target}" : null`. */
  function WorkLink(target: Option<string>): (href: Option<string>)
    ensures href.Some? <==> Truthy(target)
    ensures href.Some? ==> href.value == WORK_LINK + target.value
  {
    if Truthy(target) then Some(WORK_LINK + target.value) else None
  }

  function Quoted(s: string): string {
    "\"" + s + "\""
  }

  function ContentOf(n: N.Notification): Content {
    var p := n.payload;
    match n.kind
    case Like =>
      Content(p.likerName.GetOr("Alguien") + " le dio like a " + Quoted(p.workTitle.GetOr("tu obra")),
              WorkLink(n.targetId))
    case Comment =>
      Content(p.commenterName.GetOr("Alguien") + " comentó en " + Quoted(p.workTitle.GetOr("tu obra")),
              WorkLink(n.targetId))
    case WorkApproved =>
      Content("Tu obra " + Quoted(p.workTitle.GetOr("")) + " fue aprobada", WorkLink(n.targetId))
    case WorkRejected =>
      Content("Tu obra " + Quoted(p.workTitle.GetOr("")) + " fue rechazada"
              + (if Truthy(p.note) then ": " + p.note.value else ""),
              Some(MY_WORKS))
    case Other(_) =>
      Content(GENERIC, None)
  }

  /** The links: likes, comments and approvals open the work when it has a
      target, rejections always open "my works", anything else has no link. */
  lemma LinkRule(n: N.Notification)
    ensures n.kind.WorkRejected? ==> ContentOf(n).href == Some(MY_WORKS)
    ensures n.kind.Other? ==> ContentOf(n).href == None && ContentOf(n).text == GENERIC
    ensures (n.kind.Like? || n.kind.Comment? || n.kind.WorkApproved?) ==>
      (ContentOf(n).href.Some? <==> Truthy(n.targetId))
    ensures ContentOf(n).href.Some? && !n.kind.WorkRejected? ==>
      ContentOf(n).href == Some(WORK_LINK + n.targetId.value)
  {
  }

  /** A rejection shows its note, after ": ", exactly when the note is
      non-empty; without one the text ends at "fue rechazada". */
  lemma RejectionNote(n: N.Notification)
    requires n.kind.WorkRejected?
    ensures Truthy(n.payload.note) ==> Text.Contains(ContentOf(n).text, ": " + n.payload.note.value)
    ensures !Truthy(n.payload.note) ==>
      ContentOf(n).text == "Tu obra " + Quoted(n.payload.workTitle.GetOr("")) + " fue rechazada"
  {
    var base := "Tu obra " + Quoted(n.payload.workTitle.GetOr("")) + " fue rechazada";
    if Truthy(n.payload.note) {
      var tail := ": " + n.payload.note.value;
      assert ContentOf(n).text == base + tail + "";
      Text.ContainsInfix(base, tail, "");
    } else {
      assert ContentOf(n).text == base + "";
    }
  }

  /** The badge over the bell: hidden at zero, "9+" above nine, the count
      otherwise. */
  function Badge(unread: nat): (b: Option<string>)
    ensures b.None? <==> unread == 0
    ensures b == Some("9+") <==> unread > 9
  {
    if unread == 0 then None
    else if unread > 9 then Some("9+")
    else Some(Text.NatToString(unread))
  }

  /** A shown count from one to nine is the single digit that reads back as it. */
  lemma BadgeDigit(unread: nat)
    requires 1 <= unread <= 9
    ensures Badge(unread).Some? && |Badge(unread).value| == 1
    ensures Text.ParseNat(Badge(unread).value) == unread
  {
    Text.ParseNatToString(unread);
  }

  const AUTO_MARK_MAX: nat := 20

  function Id(n: N.Notification): string {
    n.id
  }

  function Ids(ns: seq<N.Notification>): (ids: seq<string>)
    ensures |ids| == |ns|
    ensures forall i :: 0 <= i < |ns| ==> ids[i] == ns[i].id
  {
    seq(|ns|, i requires 0 <= i < |ns| => ns[i].id)
  }

  /** The ids the open panel schedules to mark: the first twenty unread, in
      list order; nothing is scheduled when the panel is closed, the count is
      zero, or there is no unread notification. */
  function AutoMarkIds(open: bool, ns: seq<N.Notification>, unreadCount: nat): (ids: Option<seq<string>>)
    ensures ids.Some? ==> open && unreadCount > 0
    ensures ids.Some? ==> 1 <= |ids.value| <= AUTO_MARK_MAX
    ensures ids.Some? ==> ids.value == Ids(Seqs.Take(Seqs.Filter(ns, N.IsUnread), AUTO_MARK_MAX))
  {
    if open && unreadCount > 0 then
      var ids := Ids(Seqs.Take(Seqs.Filter(ns, N.IsUnread), AUTO_MARK_MAX));
      if |ids| > 0 then Some(ids) else None
    else None
  }

  /** With the count the store derives, a mark is scheduled exactly when the
      panel is open and something is unread. */
  lemma AutoMarkSchedule(open: bool, ns: seq<N.Notification>)
    ensures AutoMarkIds(open, ns, N.UnreadCount(ns)).Some? <==> open && N.UnreadCount(ns) > 0
  {
    var t := Seqs.Take(Seqs.Filter(ns, N.IsUnread), AUTO_MARK_MAX);
    if open && N.UnreadCount(ns) > 0 {
      assert |Ids(t)| > 0;
    }
  }

  /** Every scheduled id is that of an unread notification. */
  lemma AutoMarkUnread(open: bool, ns: seq<N.Notification>, unreadCount: nat, k: nat)
    requires AutoMarkIds(open, ns, unreadCount).Some?
    requires k < |AutoMarkIds(open, ns, unreadCount).value|
    ensures exists i :: 0 <= i < |ns| && ns[i].id == AutoMarkIds(open, ns, unreadCount).value[k] && N.IsUnread(ns[i])
  {
    var u := Seqs.Filter(ns, N.IsUnread);
    var t := Seqs.Take(u, AUTO_MARK_MAX);
    assert t[k] == u[k] && u[k] in u;
    var i :| 0 <= i < |ns| && ns[i] == u[k];
    assert ns[i].id == AutoMarkIds(open, ns, unreadCount).value[k];
  }

  /** The bell: whether the panel is open, and the pending auto-mark timer
      with the ids it will mark. */
  class Bell {
    var open: bool
    var timer: Option<seq<string>>

    constructor ()
      ensures !open && timer == None
    {
      open, timer := false, None;
    }

    /** The effect on `[open, unreadCount, notifications]`: the previous timer
      is cleared, then a new one is set if the condition holds. */
    method Effect(ns: seq<N.Notification>, unreadCount: nat)
      modifies this`timer
      ensures timer == AutoMarkIds(open, ns, unreadCount)
    {
      timer := None;
      timer := AutoMarkIds(open, ns, unreadCount);
    }

    /** A click on the bell flips the panel; the effect then re-runs. */
    method Toggle(s: N.Store)
      modifies this
      ensures open == !old(open)
      ensures timer == AutoMarkIds(open, s.notifications, s.Unread())
      ensures !open ==> timer == None
    {
      open := !open;
      Effect(s.notifications, s.Unread());
    }

    /** A click outside the panel, or on a link, closes it and so cancels a
      pending mark. */
    method Close(s: N.Store)
      modifies this
      ensures !open && timer == None
    {
      open := false;
      Effect(s.notifications, s.Unread());
    }

    /** The timer fires: the scheduled ids are marked. A successful call
      stores a new list, so the effect re-runs on it; a call that throws sets
      no state, so the effect does not re-run and, the timer having fired,
      nothing stays scheduled. */
    method Fire(s: N.Store, stamp: string, throws: bool)
      requires stamp != "" && timer.Some?
      modifies this`timer, s`notifications
      ensures open == old(open)
      ensures !throws ==> s.notifications == N.MarkRead(old(s.notifications), old(timer.value), stamp)
      ensures !throws ==> timer == AutoMarkIds(open, s.notifications, s.Unread())
      ensures throws ==> s.notifications == old(s.notifications) && timer == None
    {
      s.MarkAsRead(timer.value, stamp, throws);
      if throws {
        timer := None;
      } else {
        Effect(s.notifications, s.Unread());
      }
    }
  }
}
