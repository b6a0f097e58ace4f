/** The notification panel (src/components/NotificationSystem.tsx): the
    same list and counter as the bell, fed also by the realtime channel. A
    click marks a row read whether or not it already is, so the counter is
    only kept non-negative and can fall below the number of unread rows.
    The table and the channel are inputs: a fetch receives the user's
    rows, newest first, and each insert event is a call. */
module NotificationSystem {
  import opened Wrappers
  import opened Lists
  import opened Notifications

  class Panel {
    var notifications: seq<Note>
    var unreadCount: int

    /** The counter as the bell keeps it. */
    predicate Valid()
      reads this
    {
      unreadCount == Unread(notifications)
    }

    /** What the panel does keep. */
    predicate NonNegative()
      reads this
    {
      unreadCount >= 0
    }

    constructor ()
      ensures notifications == [] && unreadCount == 0 && Valid() && NonNegative()
    {
      notifications := [];
      unreadCount := 0;
    }

    /** An insert event: the row goes first and the counter up by one. */
    method OnInsert(n: Note)
      modifies this
      ensures notifications == [n] + old(notifications) && unreadCount == old(unreadCount) + 1
      ensures old(Valid()) && !n.read ==> Valid()
      ensures old(NonNegative()) ==> NonNegative()
    {
      CountAppend((m: Note) => !m.read, [n], notifications);
      notifications := [n] + notifications;
      unreadCount := unreadCount + 1;
    }

    /** `fetchNotifications`: as the bell's, with the user read here. */
    method FetchNotifications(user: Option<string>, rows: Option<seq<Note>>)
      modifies this
      ensures user.None? || rows.None? ==> (notifications == old(notifications) && unreadCount == old(unreadCount))
      ensures user.Some? && rows.Some? ==> (notifications == Take(rows.value, FetchLimit) && Valid())
      ensures old(NonNegative()) ==> NonNegative()
      ensures old(Valid()) ==> Valid()
    {
      if user.None? || rows.None? {
        return;
      }
      notifications := Take(rows.value, FetchLimit);
      unreadCount := Unread(notifications);
    }

    /** `markAsRead(id)`, as the bell's. */
    method MarkAsRead(id: string, updateFails: bool)
      modifies this
      ensures updateFails ==> (notifications == old(notifications) && unreadCount == old(unreadCount))
      ensures !updateFails ==> (notifications == MarkRead(old(notifications), id)
        && unreadCount == if old(unreadCount) > 0 then old(unreadCount) - 1 else 0)
      ensures !updateFails ==> Unread(notifications) == Unread(old(notifications)) - UnreadWithId(old(notifications), id)
      ensures !updateFails || old(NonNegative()) ==> NonNegative()
    {
      if updateFails {
        return;
      }
      MarkReadUnread(notifications, id);
      notifications := MarkRead(notifications, id);
      unreadCount := if unreadCount - 1 > 0 then unreadCount - 1 else 0;
    }

    /** A click on the row at `k`, as written: it marks the row read even
        when it already is. Clicking a read row with unique ids leaves the
        rows as they were but still lowers a positive counter, which then
        sits one below the number of unread rows. */
    method Click(k: nat, updateFails: bool)
      requires k < |notifications|
      modifies this
      ensures updateFails ==> notifications == old(notifications) && unreadCount == old(unreadCount)
      ensures !updateFails ==> notifications == MarkRead(old(notifications), old(notifications[k].id))
      ensures !updateFails ==> unreadCount == if old(unreadCount) > 0 then old(unreadCount) - 1 else 0
      ensures old(NonNegative()) ==> NonNegative()
      ensures old(Valid()) && UniqueIds(old(notifications)) && !old(notifications[k].read) ==> Valid()
      ensures (old(Valid()) && UniqueIds(old(notifications)) && old(notifications[k].read) && !updateFails
        && old(unreadCount) > 0) ==> unreadCount == Unread(notifications) - 1
    {
      ghost var before := notifications;
      if !updateFails && UniqueIds(before) {
        ReadOneRow(before, k);
      }
      MarkAsRead(notifications[k].id, updateFails);
    }

    /** The click the bell makes, which marks only an unread row and so
        keeps the counter equal to the number of unread rows. */
    method ClickUnread(k: nat, updateFails: bool)
      requires k < |notifications|
      modifies this
      ensures old(notifications[k].read) || updateFails ==>
        (notifications == old(notifications) && unreadCount == old(unreadCount))
      ensures !old(notifications[k].read) && !updateFails ==>
        notifications == MarkRead(old(notifications), old(notifications[k].id))
        && unreadCount == if old(unreadCount) > 0 then old(unreadCount) - 1 else 0
      ensures old(NonNegative()) ==> NonNegative()
      ensures old(Valid()) && UniqueIds(old(notifications)) ==> Valid()
    {
      if !notifications[k].read {
        ghost var before := notifications;
        if !updateFails && UniqueIds(before) {
          ReadOneRow(before, k);
        }
        MarkAsRead(notifications[k].id, updateFails);
      }
    }
  }

  /** The input that shows the drift: a read row and an unread row with
      the counter at 1. Clicking the read row leaves the rows as they are,
      so `Panel.Click` brings the counter to 0 while one row is unread;
      `Panel.ClickUnread` does nothing on that row. */
  lemma ReadRowClickDrifts()
    ensures var l := [Note("a", "", "", "info", true, ""), Note("b", "", "", "info", false, "")];
      UniqueIds(l) && l[0].read && Unread(l) == 1 && MarkRead(l, l[0].id) == l && Unread(MarkRead(l, l[0].id)) == 1
  {
    var l := [Note("a", "", "", "info", true, ""), Note("b", "", "", "info", false, "")];
    MarkReadRows(l, "a");
    assert MarkRead(l, "a") == l;
    CountAppend((n: Note) => !n.read, [l[0]], [l[1]]);
    assert l == [l[0]] + [l[1]];
  }
}
