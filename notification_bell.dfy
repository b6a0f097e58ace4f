/** The bell of the header (src/components/NotificationBell.tsx): the ten
    newest notifications of the signed-in user and a counter of the unread
    ones, which the bell keeps equal to the number of unread rows listed.
    The table is an input: a fetch receives the user's rows, newest
    first. */
module NotificationBell {
  import opened Wrappers
  import opened Lists
  import opened Notifications

  class Bell {
    var notifications: seq<Note>
    var unreadCount: int

    /** The counter is the number of unread rows listed. */
    predicate Valid()
      reads this
    {
      unreadCount == Unread(notifications)
    }

    constructor ()
      ensures notifications == [] && unreadCount == 0 && Valid()
    {
      notifications := [];
      unreadCount := 0;
    }

    /** `fetchNotifications`: without a user, or when the query fails
        (`None`), nothing changes; otherwise the list is the newest ten and
        the counter their unread count. */
    method FetchNotifications(user: Option<string>, rows: Option<seq<Note>>)
      modifies this
      ensures user.None? || rows.None? ==> (notifications == old(notifications) && unreadCount == old(unreadCount))
      ensures user.Some? && rows.Some? ==> (notifications == Take(rows.value, FetchLimit) && Valid())
      ensures |notifications| <= FetchLimit || notifications == old(notifications)
      ensures old(Valid()) ==> Valid()
    {
      if user.None? || rows.None? {
        return;
      }
      notifications := Take(rows.value, FetchLimit);
      unreadCount := Unread(notifications);
    }

    /** `markAsRead(id)`: when the update fails nothing changes; otherwise
        the rows with the id are marked read and the counter goes down by
        one, never below zero. */
    method MarkAsRead(id: string, updateFails: bool)
      modifies this
      ensures updateFails ==> (notifications == old(notifications) && unreadCount == old(unreadCount))
      ensures !updateFails ==> (notifications == MarkRead(old(notifications), id)
        && unreadCount == if old(unreadCount) > 0 then old(unreadCount) - 1 else 0)
      ensures !updateFails ==> Unread(notifications) == Unread(old(notifications)) - UnreadWithId(old(notifications), id)
      ensures old(unreadCount) >= 0 ==> unreadCount >= 0
    {
      if updateFails {
        return;
      }
      MarkReadUnread(notifications, id);
      notifications := MarkRead(notifications, id);
      unreadCount := if unreadCount - 1 > 0 then unreadCount - 1 else 0;
    }

    /** A click on the row at `k` marks it read only when it is unread, so
        with unique ids the counter stays the number of unread rows. */
    method Click(k: nat, updateFails: bool)
      requires k < |notifications|
      modifies this
      ensures old(notifications[k].read) || updateFails ==>
        (notifications == old(notifications) && unreadCount == old(unreadCount))
      ensures !old(notifications[k].read) && !updateFails ==>
        (notifications == MarkRead(old(notifications), old(notifications[k].id)) && notifications[k].read
         && unreadCount == if old(unreadCount) > 0 then old(unreadCount) - 1 else 0)
      ensures old(Valid()) && UniqueIds(old(notifications)) ==> Valid()
    {
      if !notifications[k].read {
        ghost var before := notifications;
        if !updateFails && UniqueIds(before) {
          ReadOneRow(before, k);
        }
        MarkReadRows(before, before[k].id);
        MarkAsRead(notifications[k].id, updateFails);
      }
    }
  }
}
