/** The notification rows that the bell (src/components/NotificationBell.tsx)
    and the notification panel (src/components/NotificationSystem.tsx) both
    keep, with the two list operations they share: counting the unread
    ones and marking the rows of one id read. */
module Notifications {
  import opened Text
  import opened Lists

  /** A row of the notifications table; `kind` is its `type`. */
  datatype Note = Note(id: string, title: string, message: string, kind: string, read: bool, createdAt: string)

  /** Both components fetch with `.limit(10)`. */
  const FetchLimit := 10

  /** `notifications.filter(n => !n.read).length`. */
  function Unread(l: seq<Note>): nat {
    Count((n: Note) => !n.read, l)
  }

  /** The number of unread rows with a given id. */
  function UnreadWithId(l: seq<Note>, id: string): nat {
    Count((n: Note) => n.id == id && !n.read, l)
  }

  /** `n.id === id ? { ...n, read: true } : n`. */
  function ReadIf(id: string, n: Note): Note {
    if n.id == id then n.(read := true) else n
  }

  /** The map of `markAsRead`. */
  function MarkRead(l: seq<Note>, id: string): seq<Note> {
    Map((n: Note) => ReadIf(id, n), l)
  }

  /** The map touches the `read` flag of the rows with the id and nothing
      else, so order and length are kept. */
  lemma MarkReadRows(l: seq<Note>, id: string)
    ensures |MarkRead(l, id)| == |l|
    ensures forall i :: 0 <= i < |l| ==> MarkRead(l, id)[i] == (if l[i].id == id then l[i].(read := true) else l[i])
  {
    MapEach((n: Note) => ReadIf(id, n), l);
  }

  /** Marking an id read lowers the unread count by the number of unread
      rows with that id. */
  lemma {:induction false} MarkReadUnread(l: seq<Note>, id: string)
    ensures Unread(MarkRead(l, id)) == Unread(l) - UnreadWithId(l, id)
    decreases |l|
  {
    if l != [] {
      var init, x := l[..|l| - 1], l[|l| - 1];
      MarkReadUnread(init, id);
      assert l == init + [x];
      assert MarkRead(l, id) == MarkRead(init, id) + [ReadIf(id, x)];
      CountAppend((n: Note) => !n.read, MarkRead(init, id), [ReadIf(id, x)]);
      CountAppend((n: Note) => !n.read, init, [x]);
      CountAppend((n: Note) => n.id == id && !n.read, init, [x]);
    }
  }

  /** No two rows share an id, as in the table, whose key it is. */
  predicate UniqueIds(l: seq<Note>) {
    forall i, j :: 0 <= i < j < |l| ==> l[i].id != l[j].id
  }

  /** With unique ids, the row at `k` is the only one with its id. */
  lemma {:induction false} UnreadWithIdUnique(l: seq<Note>, k: nat)
    requires UniqueIds(l) && k < |l|
    ensures UnreadWithId(l, l[k].id) == if l[k].read then 0 else 1
    decreases k
  {
    var id := l[k].id;
    if k == 0 {
      assert forall i :: 0 <= i < |l[1..]| ==> l[1..][i].id != id by {
        forall i | 0 <= i < |l[1..]| ensures l[1..][i].id != id {
          assert l[1..][i] == l[i + 1];
        }
      }
    } else {
      assert UniqueIds(l[1..]) by {
        forall i, j | 0 <= i < j < |l[1..]| ensures l[1..][i].id != l[1..][j].id {
          assert l[1..][i] == l[i + 1] && l[1..][j] == l[j + 1];
        }
      }
      UnreadWithIdUnique(l[1..], k - 1);
    }
  }

  /** Reading the row at `k` with unique ids lowers the unread count by one
      when it was unread and leaves it when it was read. */
  lemma ReadOneRow(l: seq<Note>, k: nat)
    requires UniqueIds(l) && k < |l|
    ensures Unread(MarkRead(l, l[k].id)) == if l[k].read then Unread(l) else Unread(l) - 1
    ensures !l[k].read ==> Unread(l) >= 1
  {
    MarkReadUnread(l, l[k].id);
    UnreadWithIdUnique(l, k);
  }
}
