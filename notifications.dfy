/**
 * The notification store of `useNotifications`: the viewer's notifications,
 * newest first, an unread counter and a loading flag. The initial fetch, the
 * realtime insert callback, `markAsRead` and `markAllAsRead` are methods of
 * one class; the list updaters they hand to React are the pure functions
 * below.
 *
 * The counter is kept by hand next to the list, so `unreadCount` equals the
 * number of unread entries only under conditions, which the lemmas state:
 * a realtime row adds one whatever its `read` flag, and `markAsRead`
 * subtracts one whether or not the id names an unread entry.
 */
module Notifications {
  import opened Backend

  /** A notification as the client holds it (the opaque `data` payload is left out). */
  datatype Notification = Notification(
    id: string, title: string, message: string, kind: string, read: bool, createdAt: string)

  /** A row of the `notifications` table, as the backend delivers it. */
  datatype Row = Row(
    id: string, userId: UserId, title: string, message: string, kind: string,
    read: bool, createdAt: string)

  /** The client copies every displayed field of the row and drops its owner. */
  function FromRow(r: Row): Notification {
    Notification(r.id, r.title, r.message, r.kind, r.read, r.createdAt)
  }

  /** `rows.map(item => ({ ... }))`. */
  function FromRows(rows: seq<Row>): (r: seq<Notification>)
    ensures |r| == |rows|
    ensures forall i :: 0 <= i < |rows| ==> r[i] == FromRow(rows[i])
  {
    if rows == [] then [] else [FromRow(rows[0])] + FromRows(rows[1..])
  }

  /** The number of unread entries: `list.filter(n => !n.read).length`. */
  function CountUnread(s: seq<Notification>): (c: nat)
    ensures c <= |s|
    ensures c == 0 <==> forall i :: 0 <= i < |s| ==> s[i].read
  {
    if s == [] then 0 else (if s[0].read then 0 else 1) + CountUnread(s[1..])
  }

  /** The number of unread entries that carry the given id. */
  function CountUnreadWithId(s: seq<Notification>, id: string): nat {
    if s == [] then 0
    else (if s[0].id == id && !s[0].read then 1 else 0) + CountUnreadWithId(s[1..], id)
  }

  /** `prev.map(n => n.id === id ? { ...n, read: true } : n)`. */
  function MarkRead(s: seq<Notification>, id: string): (r: seq<Notification>)
    ensures |r| == |s|
    ensures forall i :: 0 <= i < |s| ==>
      r[i] == if s[i].id == id then s[i].(read := true) else s[i]
  {
    if s == [] then []
    else [if s[0].id == id then s[0].(read := true) else s[0]] + MarkRead(s[1..], id)
  }

  /** `prev.map(n => ({ ...n, read: true }))`. */
  function MarkAllRead(s: seq<Notification>): (r: seq<Notification>)
    ensures |r| == |s|
    ensures forall i :: 0 <= i < |s| ==> r[i] == s[i].(read := true)
  {
    if s == [] then [] else [s[0].(read := true)] + MarkAllRead(s[1..])
  }

  /** The realtime callback keeps a row only for a signed-in owner. */
  predicate Accepts(user: Option<UserId>, row: Row) {
    user.Some? && row.userId == user.value
  }

  /** No two entries share an id (the backend assigns them). */
  ghost predicate UniqueIds(s: seq<Notification>) {
    forall i, j :: 0 <= i < j < |s| ==> s[i].id != s[j].id
  }

  /** Some entry with this id is still unread. */
  ghost predicate HasUnread(s: seq<Notification>, id: string) {
    exists k :: 0 <= k < |s| && s[k].id == id && !s[k].read
  }

  /** The counter the hook keeps after `markAsRead`: `Math.max(0, prev - 1)`. */
  function Decremented(count: int): (r: int)
    ensures r >= 0 && (count >= 1 ==> r == count - 1) && (count <= 1 ==> r == 0)
  {
    if count - 1 > 0 then count - 1 else 0
  }

  // ---- lemmas about the updaters ----

  /** Marking one id read removes exactly the unread entries with that id from the count. */
  lemma {:induction false} CountAfterMarkRead(s: seq<Notification>, id: string)
    ensures CountUnread(MarkRead(s, id)) == CountUnread(s) - CountUnreadWithId(s, id)
  {
    if s != [] {
      assert MarkRead(s, id)[1..] == MarkRead(s[1..], id);
      CountAfterMarkRead(s[1..], id);
    }
  }

  /** With unique ids, at most one unread entry carries a given id, and one does iff it is unread. */
  lemma {:induction false} UnreadWithIdUnique(s: seq<Notification>, id: string)
    requires UniqueIds(s)
    ensures CountUnreadWithId(s, id) == if HasUnread(s, id) then 1 else 0
  {
    if s != [] {
      assert UniqueIds(s[1..]) by {
        forall i, j | 0 <= i < j < |s[1..]| ensures s[1..][i].id != s[1..][j].id {
          assert s[1..][i] == s[i + 1] && s[1..][j] == s[j + 1];
        }
      }
      UnreadWithIdUnique(s[1..], id);
      assert HasUnread(s[1..], id) ==> HasUnread(s, id) by {
        if HasUnread(s[1..], id) {
          var k :| 0 <= k < |s[1..]| && s[1..][k].id == id && !s[1..][k].read;
          assert s[k + 1] == s[1..][k];
        }
      }
    }
  }

  /** No unread entry carries the id: its count is zero. */
  lemma {:induction false} CountUnreadWithIdZero(s: seq<Notification>, id: string)
    requires !HasUnread(s, id)
    ensures CountUnreadWithId(s, id) == 0
  {
    if s != [] {
      CountUnreadWithIdZero(s[1..], id);
    }
  }

  /** `markAsRead` of a present unread id keeps "counter == number of unread entries". */
  lemma MarkReadKeepsCount(s: seq<Notification>, count: int, id: string)
    requires count == CountUnread(s) && UniqueIds(s) && HasUnread(s, id)
    ensures Decremented(count) == CountUnread(MarkRead(s, id))
  {
    CountAfterMarkRead(s, id);
    UnreadWithIdUnique(s, id);
  }

  /**
   * `markAsRead` of an id that no unread entry carries breaks the counter
   * whenever it was positive: the list keeps its unread entries while the
   * counter drops by one.
   */
  lemma MarkReadOfReadOrAbsentMiscounts(s: seq<Notification>, count: int, id: string)
    requires count == CountUnread(s) && count > 0 && !HasUnread(s, id)
    ensures CountUnread(MarkRead(s, id)) == count
    ensures Decremented(count) == count - 1
  {
    CountAfterMarkRead(s, id);
    CountUnreadWithIdZero(s, id);
  }

  /** Ingesting an unread row keeps the counter right; a read row makes it one too high. */
  lemma IngestCount(s: seq<Notification>, row: Row)
    ensures CountUnread([FromRow(row)] + s) == CountUnread(s) + if row.read then 0 else 1
  {
    assert ([FromRow(row)] + s)[1..] == s;
  }

  /** `markAsRead` changes the list once: a second call with the same id leaves it as it is. */
  lemma MarkReadIdempotent(s: seq<Notification>, id: string)
    ensures MarkRead(MarkRead(s, id), id) == MarkRead(s, id)
  {
  }

  /** After `markAllAsRead` no entry is unread, so the counter's reset to 0 is right. */
  lemma {:induction false} CountAfterMarkAllRead(s: seq<Notification>)
    ensures CountUnread(MarkAllRead(s)) == 0
  {
    if s != [] {
      assert MarkAllRead(s)[1..] == MarkAllRead(s[1..]);
      CountAfterMarkAllRead(s[1..]);
    }
  }

  /** The ids, in order, of a list of notifications. */
  function Ids(s: seq<Notification>): (r: seq<string>)
    ensures |r| == |s| && forall i :: 0 <= i < |s| ==> r[i] == s[i].id
  {
    if s == [] then [] else [s[0].id] + Ids(s[1..])
  }

  /** Neither updater moves, adds, drops or renames an entry. */
  lemma UpdatersKeepIds(s: seq<Notification>, id: string)
    ensures Ids(MarkRead(s, id)) == Ids(s) && Ids(MarkAllRead(s)) == Ids(s)
  {
  }

  // ---- the hook's state ----

  class NotificationStore {
    var notifications: seq<Notification>
    var unreadCount: int
    var loading: bool

    /** The counter never goes below zero. */
    ghost predicate Valid()
      reads this
    {
      unreadCount >= 0
    }

    /** The counter agrees with the list. */
    ghost predicate Consistent()
      reads this
    {
      unreadCount == CountUnread(notifications)
    }

    /** `useState([])`, `useState(true)`, `useState(0)`. */
    constructor ()
      ensures Valid() && Consistent()
      ensures notifications == [] && unreadCount == 0 && loading
    {
      notifications := [];
      unreadCount := 0;
      loading := true;
    }

    /**
     * `fetchNotifications`: on success the list is the mapped rows (`data || []`)
     * and the counter their number of unread entries; on an error nothing but
     * the loading flag changes. The flag clears either way.
     */
    method FetchNotifications(reply: Reply<Option<seq<Row>>>)
      requires Valid()
      modifies this
      ensures Valid() && !loading
      ensures reply.Failed? ==>
        notifications == old(notifications) && unreadCount == old(unreadCount)
      ensures reply.Ok? ==>
        notifications == FromRows(reply.data.GetOr([])) && Consistent()
    {
      if reply.Ok? {
        var typed := FromRows(reply.data.GetOr([]));
        notifications := typed;
        unreadCount := CountUnread(typed);
      }
      loading := false;
    }

    /**
     * The realtime INSERT callback, with the signed-in user it looks up. A row
     * owned by the viewer is prepended and the counter goes up by one, whatever
     * the row's `read` flag; any other row changes nothing.
     */
    method OnInsert(row: Row, user: Option<UserId>)
      requires Valid()
      modifies this
      ensures Valid() && loading == old(loading)
      ensures Accepts(user, row) ==>
        notifications == [FromRow(row)] + old(notifications) && unreadCount == old(unreadCount) + 1
      ensures !Accepts(user, row) ==>
        notifications == old(notifications) && unreadCount == old(unreadCount)
      ensures old(Consistent()) && !row.read ==> Consistent()
    {
      if user.Some? && row.userId == user.value {
        IngestCount(notifications, row);
        notifications := [FromRow(row)] + notifications;
        unreadCount := unreadCount + 1;
      }
    }

    /**
     * `markAsRead(id)`, with the backend's answer to the update. Only after a
     * success are the entries with that id marked read and the counter
     * decremented, floored at zero, whether or not such an unread entry exists.
     */
    method MarkAsRead(id: string, reply: Status)
      requires Valid()
      modifies this
      ensures Valid() && loading == old(loading)
      ensures reply.Success? ==>
        notifications == MarkRead(old(notifications), id) && unreadCount == Decremented(old(unreadCount))
      ensures reply.Failure? ==>
        notifications == old(notifications) && unreadCount == old(unreadCount)
      ensures old(Consistent()) && UniqueIds(old(notifications)) && HasUnread(old(notifications), id) ==>
        Consistent()
    {
      if reply.Success? {
        if Consistent() && UniqueIds(notifications) && HasUnread(notifications, id) {
          MarkReadKeepsCount(notifications, unreadCount, id);
        }
        notifications := MarkRead(notifications, id);
        unreadCount := Decremented(unreadCount);
      }
    }

    /** `markAllAsRead`: after a success every entry is read and the counter is 0. */
    method MarkAllAsRead(reply: Status)
      requires Valid()
      modifies this
      ensures Valid() && loading == old(loading)
      ensures reply.Success? ==>
        notifications == MarkAllRead(old(notifications)) && unreadCount == 0 && Consistent()
      ensures reply.Failure? ==>
        notifications == old(notifications) && unreadCount == old(unreadCount)
    {
      if reply.Success? {
        CountAfterMarkAllRead(notifications);
        notifications := MarkAllRead(notifications);
        unreadCount := 0;
      }
    }
  }
}
