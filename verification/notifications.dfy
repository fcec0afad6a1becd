/**
 The notification bell's store: the fetched list, the unread getters, the
 local effect of marking and deleting after the backend accepted the
 change, the realtime prepend, and the reset on sign-out. The backend's
 answer to each request is an input.
 */
module Notifications {
  import opened Common

  datatype Actor = Actor(id: string, username: string, displayName: string, avatarUrl: Option<string>)

  datatype Notification = Notification(id: string, kind: string, title: string, isRead: bool, actor: Option<Actor>)

  /** A row as the select with the embedded actor returns it. */
  datatype NotificationRow = NotificationRow(id: string, kind: string, title: string, isRead: bool, actor: Relation<Actor>)

  /** `channel` is the user whose inserts the realtime channel listens to, if one is open. */
  datatype State = State(notifications: seq<Notification>, loading: bool, error: Option<string>, channel: Option<string>)

  predicate IsUnread(n: Notification) {
    !n.isRead
  }

  /** `unreadNotifications`: the unread ones, in list order. */
  function UnreadNotifications(ns: seq<Notification>): (r: seq<Notification>)
    ensures forall n :: n in r <==> n in ns && !n.isRead
  {
    Filter(ns, IsUnread)
  }

  /** `unreadCount` */
  function UnreadCount(ns: seq<Notification>): nat {
    Count(ns, IsUnread)
  }

  /** The unread count is the length of the unread list, and the unread list keeps list order. */
  lemma {:induction false} UnreadSpec(ns: seq<Notification>)
    ensures UnreadCount(ns) == |UnreadNotifications(ns)|
    ensures UnreadCount(ns) <= |ns|
    ensures UnreadCount(ns) == 0 <==> forall i :: 0 <= i < |ns| ==> ns[i].isRead
    ensures |ns| > 0 && !ns[0].isRead ==> UnreadNotifications(ns)[0] == ns[0]
  {
    if |ns| > 0 {
      UnreadSpec(ns[1..]);
      FilterCons(ns[0], ns[1..], IsUnread);
      assert ns == [ns[0]] + ns[1..];
      if UnreadCount(ns) == 0 {
        forall i | 0 <= i < |ns|
          ensures ns[i].isRead
        {
          if i > 0 {
            assert ns[i] == ns[1..][i - 1];
          }
        }
      }
    }
  }

  function Normalized(row: NotificationRow): Notification {
    Notification(row.id, row.kind, row.title, row.isRead, Normalize(row.actor))
  }

  /** `fetchNotifications`: the fetched rows replace the list, with actor arrays normalised; an error keeps the list. */
  function FetchNotifications(st: State, fetched: Result<Option<seq<NotificationRow>>>): (r: State)
    ensures !r.loading && r.channel == st.channel
    ensures fetched.Ok? ==> r.error.None? && |r.notifications| == |fetched.value.GetOr([])|
    ensures fetched.Ok? ==> forall i :: 0 <= i < |r.notifications| ==>
      r.notifications[i].id == fetched.value.GetOr([])[i].id && r.notifications[i].actor == Normalize(fetched.value.GetOr([])[i].actor)
    ensures fetched.Err? ==> r.notifications == st.notifications && r.error == Some(fetched.message)
  {
    match fetched
    case Ok(rows) => st.(notifications := Map(rows.GetOr([]), Normalized), loading := false, error := None)
    case Err(msg) => st.(loading := false, error := Some(msg))
  }

  function HasId(id: string): Notification -> bool {
    (n: Notification) => n.id == id
  }

  /** `markAsRead` after the update: the first notification with the id becomes read; a failed update or an unknown id changes nothing. */
  function MarkAsRead(ns: seq<Notification>, id: string, updateError: Option<string>): (r: seq<Notification>)
    ensures |r| == |ns|
    ensures updateError.Some? ==> r == ns
  {
    if updateError.Some? then ns
    else
      var k := FindIndex(ns, HasId(id));
      if k == -1 then ns else ns[k := ns[k].(isRead := true)]
  }

  /**
   Marking as read touches only the first notification with the id, which
   ends up read; every other entry, earlier duplicates of none and later
   duplicates included, is unchanged. An unknown id leaves the list as it is.
   */
  lemma MarkAsReadSpec(ns: seq<Notification>, id: string)
    ensures var r := MarkAsRead(ns, id, None);
      var k := FindIndex(ns, HasId(id));
      && (k == -1 ==> r == ns)
      && (k >= 0 ==> r[k] == ns[k].(isRead := true) && ns[k].id == id)
      && (forall i :: 0 <= i < |ns| && i != k ==> r[i] == ns[i])
    ensures (forall i :: 0 <= i < |ns| ==> ns[i].id != id) ==> MarkAsRead(ns, id, None) == ns
  {
  }

  /** Marking one notification as read lowers the unread count by one when it was unread, and leaves it otherwise. */
  lemma MarkAsReadCount(ns: seq<Notification>, id: string)
    ensures var k := FindIndex(ns, HasId(id));
      UnreadCount(MarkAsRead(ns, id, None)) == UnreadCount(ns) - (if k >= 0 && !ns[k].isRead then 1 else 0)
  {
    var k := FindIndex(ns, HasId(id));
    if k >= 0 {
      var r := MarkAsRead(ns, id, None);
      assert ns == ns[..k] + [ns[k]] + ns[k + 1..];
      assert r == ns[..k] + [r[k]] + ns[k + 1..];
      FilterConcat(ns[..k] + [ns[k]], ns[k + 1..], IsUnread);
      FilterConcat(ns[..k], [ns[k]], IsUnread);
      FilterConcat(ns[..k] + [r[k]], ns[k + 1..], IsUnread);
      FilterConcat(ns[..k], [r[k]], IsUnread);
    }
  }

  /** What `markAllAsRead` did: the ids it asked the backend to mark, if it asked, and the list afterwards. */
  datatype MarkAllOutcome = MarkAllOutcome(requested: Option<seq<string>>, notifications: seq<Notification>)

  function IdOf(n: Notification): string {
    n.id
  }

  function AsRead(n: Notification): Notification {
    n.(isRead := true)
  }

  /** `markAllAsRead`: with nothing unread it sends nothing; otherwise it sends the unread ids and, on success, marks the whole list read. */
  function MarkAllAsRead(ns: seq<Notification>, updateError: Option<string>): (o: MarkAllOutcome)
    ensures |o.notifications| == |ns|
    ensures UnreadNotifications(ns) == [] ==> o == MarkAllOutcome(None, ns)
    ensures UnreadNotifications(ns) != [] ==> o.requested == Some(Map(UnreadNotifications(ns), IdOf))
    ensures updateError.Some? ==> o.notifications == ns
    ensures forall i :: 0 <= i < |ns| ==> o.notifications[i] == ns[i].(isRead := o.notifications[i].isRead)
  {
    var unread := Map(UnreadNotifications(ns), IdOf);
    if |unread| == 0 then MarkAllOutcome(None, ns)
    else if updateError.Some? then MarkAllOutcome(Some(unread), ns)
    else MarkAllOutcome(Some(unread), Map(ns, AsRead))
  }

  /** After a successful mark-all nothing is unread, and doing it again sends nothing and changes nothing. */
  lemma MarkAllAsReadSpec(ns: seq<Notification>)
    ensures UnreadCount(MarkAllAsRead(ns, None).notifications) == 0
    ensures var after := MarkAllAsRead(ns, None).notifications;
      MarkAllAsRead(after, None) == MarkAllOutcome(None, after)
  {
    var after := MarkAllAsRead(ns, None).notifications;
    assert forall i :: 0 <= i < |after| ==> after[i].isRead;
    UnreadSpec(after);
    assert |UnreadNotifications(after)| == 0;
  }

  function Other(id: string): Notification -> bool {
    (n: Notification) => n.id != id
  }

  /** `deleteNotification` after the delete: every entry with the id goes, the rest stay in order; a failed delete changes nothing. */
  function DeleteNotification(ns: seq<Notification>, id: string, deleteError: Option<string>): (r: seq<Notification>)
    ensures deleteError.Some? ==> r == ns
    ensures deleteError.None? ==> forall n :: n in r <==> n in ns && n.id != id
  {
    if deleteError.Some? then ns else Filter(ns, Other(id))
  }

  /** Deleting removes exactly the entries with the id: the list shrinks by their number, and a list without the id is unchanged. */
  lemma {:induction false} DeleteKeepsOthers(ns: seq<Notification>, id: string)
    ensures |DeleteNotification(ns, id, None)| == |ns| - Count(ns, HasId(id))
    ensures (forall i :: 0 <= i < |ns| ==> ns[i].id != id) ==> DeleteNotification(ns, id, None) == ns
  {
    if |ns| > 0 {
      DeleteKeepsOthers(ns[1..], id);
      FilterCons(ns[0], ns[1..], Other(id));
      FilterCons(ns[0], ns[1..], HasId(id));
      assert ns == [ns[0]] + ns[1..];
    }
  }

  /** The realtime handler: a fetched new notification goes to the front of the list; a failed fetch adds nothing. */
  function OnInsert(st: State, fetched: Option<NotificationRow>): (r: State)
    ensures fetched.Some? ==> r.notifications == [Normalized(fetched.value)] + st.notifications
    ensures fetched.None? ==> r == st
  {
    if fetched.Some? then st.(notifications := [Normalized(fetched.value)] + st.notifications) else st
  }

  /** A new notification arrives unread when its row is unread, raising the count by one. */
  lemma OnInsertCount(st: State, row: NotificationRow)
    requires !row.isRead
    ensures UnreadCount(OnInsert(st, Some(row)).notifications) == UnreadCount(st.notifications) + 1
    ensures UnreadNotifications(OnInsert(st, Some(row)).notifications)[0] == Normalized(row)
  {
    FilterCons(Normalized(row), st.notifications, IsUnread);
  }

  /** `subscribeToNotifications`: any open channel is replaced by one for the user. */
  function Subscribe(st: State, userId: string): (r: State)
    ensures r.channel == Some(userId) && r.notifications == st.notifications
  {
    st.(channel := Some(userId))
  }

  /** `unsubscribeFromNotifications` */
  function Unsubscribe(st: State): (r: State)
    ensures r.channel.None? && r.notifications == st.notifications
  {
    st.(channel := None)
  }

  /** `$reset`: an empty list, not loading, no error and no channel, so nothing is unread. */
  function Reset(st: State): (r: State)
    ensures r.notifications == [] && !r.loading && r.error.None? && r.channel.None?
    ensures UnreadCount(r.notifications) == 0 && UnreadNotifications(r.notifications) == []
  {
    State([], false, None, None)
  }
}
