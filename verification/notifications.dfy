/** The notification bells: the customer's dropdown
    (components/notification/NotificationDropdown.tsx) and the
    administrator's header (layout/components/header/HeaderManagePage.tsx).
    Both keep a list, newest first, and a separate unread counter that
    every action updates by hand. */
module Notifications {
  import opened Models
  import Seqs
  import Global

  const PATH_ORDERS: string := "/account/orders"
  const PATH_MANAGE_ORDERS: string := "/admin/manage-order"
  const MSG_MARK_FAILED: string := "Failed to mark notification as read"
  const MSG_MARK_ALL_FAILED: string := "Failed to mark all as read"

  /** The list shown and the number on the badge. */
  datatype Inbox = Inbox(notifications: seq<Notification>, unreadCount: nat)

  function IsNew(): Notification -> bool
  {
    (n: Notification) => n.isNew
  }

  function OfAudience(audience: string): Notification -> bool
  {
    (n: Notification) => n.notiType == audience
  }

  function SameNoti(id: int): Notification -> bool
  {
    (n: Notification) => n.notiId == id
  }

  function Read(): Notification -> Notification
  {
    (n: Notification) => n.(isNew := false)
  }

  /** The badge counts exactly the unread notifications listed. */
  predicate Consistent(b: Inbox) {
    b.unreadCount == Seqs.Count(b.notifications, IsNew())
  }

  predicate UniqueNotiIds(s: seq<Notification>) {
    forall i, j :: 0 <= i < j < |s| ==> s[i].notiId != s[j].notiId
  }

  /** `prev > 0 ? prev - 1 : 0`. */
  function Decrement(n: nat): (m: nat)
    ensures n > 0 ==> m + 1 == n
    ensures n == 0 ==> m == 0
  {
    if n > 0 then n - 1 else 0
  }

  // ---------------------------------------------------------------------
  // Loading
  // ---------------------------------------------------------------------

  /** The list a load shows: the answer's notifications for the audience,
      newest first. */
  lemma ShownOfAnswer(response: seq<Notification>, audience: string)
    ensures var shown := Seqs.Reverse(Seqs.Filter(response, OfAudience(audience)));
      && (forall i :: 0 <= i < |shown| ==> shown[i].notiType == audience)
      && (forall i :: 0 <= i < |response| && response[i].notiType == audience ==> response[i] in shown)
      && Seqs.IsSubsequence(Seqs.Reverse(shown), response)
      && |shown| == Seqs.Count(response, OfAudience(audience))
  {
    var mine := Seqs.Filter(response, OfAudience(audience));
    var shown := Seqs.Reverse(mine);
    assert Seqs.IsSubsequence(Seqs.Reverse(shown), response) by {
      Seqs.FilterIsSubsequence(response, OfAudience(audience));
      Seqs.ReverseReverse(mine);
    }
    assert forall i :: 0 <= i < |shown| ==> shown[i].notiType == audience by {
      forall i | 0 <= i < |shown|
        ensures shown[i].notiType == audience
      {
        assert shown[i] == mine[|mine| - 1 - i];
      }
    }
    assert forall x :: x in mine ==> x in shown by {
      forall x | x in mine
        ensures x in shown
      {
        var i :| 0 <= i < |mine| && mine[i] == x;
        assert shown[|mine| - 1 - i] == x;
      }
    }
  }

  /** fetchNotifications: with a token and an answer (None when the request
      threw), keep the notifications addressed to `audience`, newest first,
      and count the unread ones; otherwise nothing changes. */
  function FetchInbox(previous: Inbox, hasToken: bool, response: Option<seq<Notification>>, audience: string): (b: Inbox)
    ensures !hasToken || response.None? ==> b == previous
    ensures hasToken && response.Some? ==>
      && Consistent(b)
      && (forall i :: 0 <= i < |b.notifications| ==> b.notifications[i].notiType == audience)
      && (forall i :: 0 <= i < |response.value| && response.value[i].notiType == audience ==> response.value[i] in b.notifications)
      && Seqs.IsSubsequence(Seqs.Reverse(b.notifications), response.value)
      && |b.notifications| == Seqs.Count(response.value, OfAudience(audience))
  {
    if !hasToken || response.None? then previous
    else
      ShownOfAnswer(response.value, audience);
      var shown := Seqs.Reverse(Seqs.Filter(response.value, OfAudience(audience)));
      Inbox(shown, Seqs.Count(shown, IsNew()))
  }

  /** Both lists hold the same notifications whichever way they are ordered:
      the badge of a fresh load equals the unread count of the answer's
      notifications for that audience. */
  lemma FetchCountsUnread(previous: Inbox, response: seq<Notification>, audience: string)
    ensures FetchInbox(previous, true, Some(response), audience).unreadCount
      == Seqs.Count(Seqs.Filter(response, OfAudience(audience)), IsNew())
  {
    Seqs.CountReverse(Seqs.Filter(response, OfAudience(audience)), IsNew());
  }

  // ---------------------------------------------------------------------
  // Marking read
  // ---------------------------------------------------------------------

  /** The server accepted the "seen" request for `noti`: every listed entry
      with its id is read and the badge goes down by one, never below
      zero. */
  function MarkOne(b: Inbox, noti: Notification): (r: Inbox)
    ensures |r.notifications| == |b.notifications|
    ensures forall i :: 0 <= i < |b.notifications| ==>
      r.notifications[i] == if b.notifications[i].notiId == noti.notiId then b.notifications[i].(isNew := false) else b.notifications[i]
    ensures r.unreadCount == Decrement(b.unreadCount)
  {
    Inbox(Seqs.MapWhere(b.notifications, SameNoti(noti.notiId), Read()), Decrement(b.unreadCount))
  }

  /** Marking a listed notification that is still unread keeps the badge
      right. */
  lemma MarkOneKeepsConsistent(b: Inbox, noti: Notification)
    requires Consistent(b) && UniqueNotiIds(b.notifications)
    requires noti in b.notifications && noti.isNew
    ensures Consistent(MarkOne(b, noti))
  {
    var s := b.notifications;
    var k :| 0 <= k < |s| && s[k] == noti;
    Seqs.CountPositive(s, IsNew());
    Seqs.CountMapWhereOne(s, SameNoti(noti.notiId), Read(), IsNew(), k);
  }

  /** What a click leaves: the inbox, whether the "seen" request was sent,
      the error toast and where the router goes. */
  datatype ClickOutcome = ClickOutcome(
    inbox: Inbox,
    requestSent: bool,
    toast: Option<string>,
    navigate: Option<string>)

  /** markAsRead of the customer's dropdown: a notification already read
      sends nothing; a failure changes nothing and hands its fixed message to
      toastError as a bare string, which shows the default text instead. */
  function MarkAsRead(b: Inbox, noti: Notification, callOk: bool): (o: ClickOutcome)
    ensures o.requestSent <==> noti.isNew
    ensures !noti.isNew ==> o.inbox == b && o.toast.None?
    ensures noti.isNew && !callOk ==> o.inbox == b && o.toast == Some(Global.DEFAULT_ERROR)
    ensures noti.isNew && callOk ==> o.inbox == MarkOne(b, noti) && o.toast.None?
    ensures o.navigate.None?
  {
    if !noti.isNew then ClickOutcome(b, false, None, None)
    else if !callOk then ClickOutcome(b, true, Some(Global.ToastError(Global.PlainString(MSG_MARK_FAILED))), None)
    else ClickOutcome(MarkOne(b, noti), true, None, None)
  }

  /** handleNotificationClick of the dropdown: mark as read, then open the
      order history for a customer notification. */
  function DropdownClick(b: Inbox, noti: Notification, callOk: bool): (o: ClickOutcome)
    ensures o.inbox == MarkAsRead(b, noti, callOk).inbox
    ensures o.navigate.Some? <==> noti.notiType == TO_USER
    ensures o.navigate.Some? ==> o.navigate.value == PATH_ORDERS
  {
    MarkAsRead(b, noti, callOk).(navigate := if noti.notiType == TO_USER then Some(PATH_ORDERS) else None)
  }

  /** The dropdown keeps its badge right, whatever is clicked. */
  lemma DropdownClickKeepsConsistent(b: Inbox, noti: Notification, callOk: bool)
    requires Consistent(b) && UniqueNotiIds(b.notifications)
    requires noti in b.notifications
    ensures Consistent(DropdownClick(b, noti, callOk).inbox)
  {
    if noti.isNew && callOk {
      MarkOneKeepsConsistent(b, noti);
    }
  }

  /** markAllAsRead and seenAllNotifications: with a session, everything is
      read and the badge is cleared once the server agreed. A failure passes
      its fixed message to toastError as a bare string, which shows the
      default text. */
  function MarkAllAsRead(b: Inbox, hasSession: bool, callOk: bool): (o: ClickOutcome)
    ensures o.requestSent <==> hasSession
    ensures !hasSession ==> o.inbox == b && o.toast.None?
    ensures hasSession && !callOk ==> o.inbox == b && o.toast == Some(Global.DEFAULT_ERROR)
    ensures hasSession && callOk ==>
      && |o.inbox.notifications| == |b.notifications|
      && o.inbox.unreadCount == 0
      && (forall i :: 0 <= i < |b.notifications| ==> o.inbox.notifications[i] == b.notifications[i].(isNew := false))
    ensures o.navigate.None?
  {
    if !hasSession then ClickOutcome(b, false, None, None)
    else if !callOk then ClickOutcome(b, true, Some(Global.ToastError(Global.PlainString(MSG_MARK_ALL_FAILED))), None)
    else ClickOutcome(Inbox(Seqs.MapWhere(b.notifications, (n: Notification) => true, Read()), 0), true, None, None)
  }

  /** After marking everything read the badge is right whatever it showed
      before. */
  lemma MarkAllKeepsConsistent(b: Inbox, hasSession: bool, callOk: bool)
    requires Consistent(b)
    ensures Consistent(MarkAllAsRead(b, hasSession, callOk).inbox)
  {
    if hasSession && callOk {
      Seqs.CountPositive(MarkAllAsRead(b, hasSession, callOk).inbox.notifications, IsNew());
    }
  }

  // ---------------------------------------------------------------------
  // The administrator's header
  // ---------------------------------------------------------------------

  /** seenNotification of the header: with a token it sends the request
      whether or not the notification is still unread, and on success takes
      one off the badge. A failure toasts the thrown error. */
  function SeenNotification(b: Inbox, hasToken: bool, noti: Notification, callOk: bool, error: Global.ErrorValue): (o: ClickOutcome)
    ensures o.requestSent <==> hasToken
    ensures hasToken && callOk ==> o.inbox == MarkOne(b, noti)
    ensures !(hasToken && callOk) ==> o.inbox == b
    ensures o.toast.Some? <==> hasToken && !callOk
    ensures hasToken && !callOk ==> o.toast == Some(Global.ToastError(error))
    ensures o.navigate.None?
  {
    if !hasToken then ClickOutcome(b, false, None, None)
    else if !callOk then ClickOutcome(b, true, Some(Global.ToastError(error)), None)
    else ClickOutcome(MarkOne(b, noti), true, None, None)
  }

  /** The unread dot: `noti.is_new && seenNotification(noti)`. */
  function OnDotClick(b: Inbox, hasToken: bool, noti: Notification, callOk: bool, error: Global.ErrorValue): (o: ClickOutcome)
    ensures !noti.isNew ==> o.inbox == b && !o.requestSent
    ensures noti.isNew ==> o == SeenNotification(b, hasToken, noti, callOk, error)
  {
    if noti.isNew then SeenNotification(b, hasToken, noti, callOk, error) else ClickOutcome(b, false, None, None)
  }

  /** handleNotificationClick of the header as written: seenNotification is
      called without the unread guard the dot has, then an administrator
      notification opens the order management page. */
  function HeaderClickAsWritten(b: Inbox, hasToken: bool, noti: Notification, callOk: bool, error: Global.ErrorValue): (o: ClickOutcome)
    ensures o.inbox == SeenNotification(b, hasToken, noti, callOk, error).inbox
    ensures o.navigate.Some? <==> noti.notiType == TO_ADMIN
  {
    SeenNotification(b, hasToken, noti, callOk, error).(navigate := if noti.notiType == TO_ADMIN then Some(PATH_MANAGE_ORDERS) else None)
  }

  /** The click with the dot's guard: a read notification only navigates. */
  function HeaderClick(b: Inbox, hasToken: bool, noti: Notification, callOk: bool, error: Global.ErrorValue): (o: ClickOutcome)
    ensures o.inbox == OnDotClick(b, hasToken, noti, callOk, error).inbox
    ensures !noti.isNew ==> o.inbox == b && !o.requestSent
    ensures o.navigate.Some? <==> noti.notiType == TO_ADMIN
    ensures o.navigate.Some? ==> o.navigate.value == PATH_MANAGE_ORDERS
  {
    OnDotClick(b, hasToken, noti, callOk, error).(navigate := if noti.notiType == TO_ADMIN then Some(PATH_MANAGE_ORDERS) else None)
  }

  /** The guarded click keeps the header's badge right. */
  lemma HeaderClickKeepsConsistent(b: Inbox, hasToken: bool, noti: Notification, callOk: bool, error: Global.ErrorValue)
    requires Consistent(b) && UniqueNotiIds(b.notifications)
    requires noti in b.notifications
    ensures Consistent(HeaderClick(b, hasToken, noti, callOk, error).inbox)
  {
    if noti.isNew && hasToken && callOk {
      MarkOneKeepsConsistent(b, noti);
    }
  }

  /** The unguarded click loses count: with one unread (#1) and one read
      (#2) notification, clicking #2 clears the badge while #1 is still
      unread; the guarded click leaves the badge at one. */
  lemma HeaderClickAsWrittenMiscounts()
    ensures var a := Notification(1, true, "New order", TO_ADMIN, "", "");
      var c := Notification(2, false, "New order", TO_ADMIN, "", "");
      var b := Inbox([a, c], 1);
      var e := Global.PlainString("");
      && Consistent(b)
      && HeaderClickAsWritten(b, true, c, true, e).inbox.unreadCount == 0
      && !Consistent(HeaderClickAsWritten(b, true, c, true, e).inbox)
      && HeaderClick(b, true, c, true, e).inbox == b
  {
    var a := Notification(1, true, "New order", TO_ADMIN, "", "");
    var c := Notification(2, false, "New order", TO_ADMIN, "", "");
    var b := Inbox([a, c], 1);
    var e := Global.PlainString("");
    assert [a, c][1..] == [c];
    assert Seqs.Filter([c], IsNew()) == [];
    assert Seqs.Count([a, c], IsNew()) == 1;
    var after := HeaderClickAsWritten(b, true, c, true, e).inbox;
    assert after.notifications == [a, c];
  }

  /** Both handlers a click on the unread dot runs. */
  datatype BubbledClick = BubbledClick(dot: ClickOutcome, row: ClickOutcome)

  /** A click on the unread dot as written. The dot sits inside the row and
      its handler does not stop the click, so the row's handleNotificationClick
      runs as well, with the notification as it was rendered. Both handlers
      update the list and the badge through functions of the previous state,
      so the row's update applies on top of the dot's whichever reply comes
      first. */
  function DotClickAsWritten(b: Inbox, hasToken: bool, noti: Notification,
                             dotOk: bool, rowOk: bool, dotError: Global.ErrorValue, rowError: Global.ErrorValue): (c: BubbledClick)
    ensures c.dot.requestSent <==> noti.isNew && hasToken
    ensures c.row.requestSent <==> hasToken
    ensures c.row.navigate.Some? <==> noti.notiType == TO_ADMIN
    ensures noti.isNew && hasToken && dotOk && rowOk ==>
      c.row.inbox.unreadCount == Decrement(Decrement(b.unreadCount))
  {
    var dot := OnDotClick(b, hasToken, noti, dotOk, dotError);
    BubbledClick(dot, HeaderClickAsWritten(dot.inbox, hasToken, noti, rowOk, rowError))
  }

  /** The dot's own handler, with the click kept from the row, keeps the
      header's badge right. */
  lemma DotClickKeepsConsistent(b: Inbox, hasToken: bool, noti: Notification, callOk: bool, error: Global.ErrorValue)
    requires Consistent(b) && UniqueNotiIds(b.notifications)
    requires noti in b.notifications
    ensures Consistent(OnDotClick(b, hasToken, noti, callOk, error).inbox)
  {
    if noti.isNew && hasToken && callOk {
      MarkOneKeepsConsistent(b, noti);
    }
  }

  /** The bubbled click counts one notification twice: with #1 and #2 both
      unread, a click on #1's dot sends two requests and clears the badge
      while #2 is still unread; the dot's handler alone leaves the badge at
      one. */
  lemma DotClickAsWrittenMiscounts()
    ensures var a := Notification(1, true, "New order", TO_ADMIN, "", "");
      var c := Notification(2, true, "New order", TO_ADMIN, "", "");
      var b := Inbox([a, c], 2);
      var e := Global.PlainString("");
      var click := DotClickAsWritten(b, true, a, true, true, e, e);
      && Consistent(b)
      && click.dot.requestSent && click.row.requestSent
      && click.row.inbox.unreadCount == 0
      && !Consistent(click.row.inbox)
      && OnDotClick(b, true, a, true, e).inbox.unreadCount == 1
      && Consistent(OnDotClick(b, true, a, true, e).inbox)
  {
    var a := Notification(1, true, "New order", TO_ADMIN, "", "");
    var c := Notification(2, true, "New order", TO_ADMIN, "", "");
    var b := Inbox([a, c], 2);
    var e := Global.PlainString("");
    var a' := a.(isNew := false);
    assert [a, c][1..] == [c] && [a', c][1..] == [c];
    assert Seqs.Count([c], IsNew()) == 1 by {
      assert [c][1..] == [];
    }
    assert Seqs.Count([a, c], IsNew()) == 2;
    assert Seqs.Count([a', c], IsNew()) == 1;
    assert MarkOne(b, a).notifications == [a', c];
    assert MarkOne(MarkOne(b, a), a).notifications == [a', c];
  }
}
