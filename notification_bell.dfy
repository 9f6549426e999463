/** frontend/src/components/notifications/NotificationBell.tsx: the notification list and
    unread counter, changed by the `taskAssigned` socket event and by three requests whose
    outcome is a parameter. */
module NotificationBell {
  import opened Wrappers
  import opened Text

  datatype Notification = Notification(id: string, message: string, read: bool, createdAt: string)

  /** What `GET /api/notifications` gave: a failure, or a body whose `data` may be missing. */
  datatype FetchReply = FetchFailed | Fetched(data: Option<seq<Notification>>)

  /** Number of unread notifications. */
  function CountUnread(ns: seq<Notification>): (n: nat)
    ensures n <= |ns|
    ensures n == 0 <==> forall i :: 0 <= i < |ns| ==> ns[i].read
  {
    if ns == [] then 0
    else (if ns[0].read then 0 else 1) + CountUnread(ns[1..])
  }

  /** `markAsRead`'s list update: the notifications with this id become read. */
  function MarkRead(ns: seq<Notification>, id: string): (r: seq<Notification>)
    ensures |r| == |ns|
    ensures forall i :: 0 <= i < |ns| ==>
      r[i] == (if ns[i].id == id then ns[i].(read := true) else ns[i])
  {
    if ns == [] then []
    else [if ns[0].id == id then ns[0].(read := true) else ns[0]] + MarkRead(ns[1..], id)
  }

  /** `markAllAsRead`'s list update. */
  function MarkAllRead(ns: seq<Notification>): (r: seq<Notification>)
    ensures |r| == |ns|
    ensures forall i :: 0 <= i < |ns| ==> r[i] == ns[i].(read := true)
  {
    if ns == [] then [] else [ns[0].(read := true)] + MarkAllRead(ns[1..])
  }

  /** The badge: nothing for a count of 0 or less, "9+" above 9, the number otherwise. */
  function BadgeLabel(count: int): (r: Option<string>)
    ensures r.Some? <==> count > 0
    ensures count > 9 ==> r == Some("9+")
    ensures 0 < count <= 9 ==> r == Some([('0' as int + count) as char])
  {
    if count <= 0 then None
    else if count > 9 then Some("9+")
    else Some(NatToString(count))
  }

  /** Ids that occur once. */
  predicate DistinctIds(ns: seq<Notification>) {
    forall i, j :: 0 <= i < j < |ns| ==> ns[i].id != ns[j].id
  }

  class Bell {
    var notifications: seq<Notification>
    var unreadCount: int

    /** The counter agrees with the list. */
    ghost predicate Consistent()
      reads this
    {
      unreadCount == CountUnread(notifications)
    }

    constructor()
      ensures notifications == [] && unreadCount == 0 && Consistent()
    {
      notifications := [];
      unreadCount := 0;
    }

    /** The `taskAssigned` handler; `id` and `createdAt` stand for the clock readings. */
    method OnTaskAssigned(message: string, id: string, createdAt: string)
      modifies this
      ensures notifications == [Notification(id, message, false, createdAt)] + old(notifications)
      ensures unreadCount == old(unreadCount) + 1
      ensures old(Consistent()) ==> Consistent()
    {
      notifications := [Notification(id, message, false, createdAt)] + notifications;
      unreadCount := unreadCount + 1;
      assert notifications[1..] == old(notifications);
    }

    /** `fetchNotifications`: the list and its unread count replace the state, and a failed
        request changes nothing. */
    method FetchNotifications(reply: FetchReply)
      modifies this
      ensures reply.FetchFailed? ==> notifications == old(notifications) && unreadCount == old(unreadCount)
      ensures reply.Fetched? ==>
        notifications == reply.data.GetOr([]) && unreadCount == CountUnread(reply.data.GetOr([]))
      ensures reply.Fetched? ==> Consistent()
    {
      if reply.Fetched? {
        var data := reply.data.GetOr([]);
        notifications := data;
        unreadCount := CountUnread(data);
      }
    }

    /** `markAsRead(id)`; the counter never drops below 0. */
    method MarkAsRead(id: string, succeeded: bool)
      modifies this
      ensures !succeeded ==> notifications == old(notifications) && unreadCount == old(unreadCount)
      ensures succeeded ==>
        notifications == MarkRead(old(notifications), id)
        && unreadCount == if old(unreadCount) - 1 > 0 then old(unreadCount) - 1 else 0
      ensures succeeded && old(Consistent()) && DistinctIds(old(notifications))
              && (exists i :: 0 <= i < |old(notifications)| && old(notifications)[i].id == id && !old(notifications)[i].read)
              ==> Consistent()
    {
      if succeeded {
        ghost var before := notifications;
        notifications := MarkRead(notifications, id);
        unreadCount := if unreadCount - 1 > 0 then unreadCount - 1 else 0;
        if DistinctIds(before) && (exists i :: 0 <= i < |before| && before[i].id == id && !before[i].read) {
          var i :| 0 <= i < |before| && before[i].id == id && !before[i].read;
          MarkReadOneUnread(before, id, i);
        }
      }
    }

    /** `markAllAsRead`: on success every notification is read and the counter is 0. */
    method MarkAllAsRead(succeeded: bool)
      modifies this
      ensures !succeeded ==> notifications == old(notifications) && unreadCount == old(unreadCount)
      ensures succeeded ==> notifications == MarkAllRead(old(notifications)) && unreadCount == 0
      ensures succeeded ==> Consistent()
    {
      if succeeded {
        notifications := MarkAllRead(notifications);
        unreadCount := 0;
        AllReadAfterMarkAll(old(notifications));
      }
    }
  }

  // ---------------------------------------------------------------------------

  /** Marking all read leaves none unread. */
  lemma AllReadAfterMarkAll(ns: seq<Notification>)
    ensures CountUnread(MarkAllRead(ns)) == 0
  {
  }

  /** Marking one id read never raises the unread count, and lowers it by exactly one when
      that id names a single unread notification. */
  lemma {:induction false} MarkReadNotMore(ns: seq<Notification>, id: string)
    ensures CountUnread(MarkRead(ns, id)) <= CountUnread(ns)
  {
    if ns != [] {
      MarkReadNotMore(ns[1..], id);
      assert MarkRead(ns, id)[1..] == MarkRead(ns[1..], id);
    }
  }

  lemma {:induction false} MarkReadOneUnread(ns: seq<Notification>, id: string, i: nat)
    requires DistinctIds(ns) && i < |ns| && ns[i].id == id && !ns[i].read
    ensures CountUnread(MarkRead(ns, id)) == CountUnread(ns) - 1
  {
    var tail := ns[1..];
    var r := MarkRead(ns, id);
    assert r[1..] == MarkRead(tail, id);
    DistinctTail(ns);
    if i == 0 {
      MarkReadAbsent(tail, id);
    } else {
      assert tail[i - 1] == ns[i];
      MarkReadOneUnread(tail, id, i - 1);
    }
  }

  /** Dropping the head keeps the ids distinct, and no later element shares the head's id. */
  lemma DistinctTail(ns: seq<Notification>)
    requires DistinctIds(ns) && ns != []
    ensures DistinctIds(ns[1..])
    ensures forall k :: 0 <= k < |ns[1..]| ==> ns[1..][k].id != ns[0].id
  {
    forall a, b | 0 <= a < b < |ns[1..]| ensures ns[1..][a].id != ns[1..][b].id {
      assert ns[1..][a] == ns[a + 1] && ns[1..][b] == ns[b + 1];
    }
    forall k | 0 <= k < |ns[1..]| ensures ns[1..][k].id != ns[0].id {
      assert ns[1..][k] == ns[k + 1];
    }
  }

  /** Marking an id no notification carries changes nothing. */
  lemma {:induction false} MarkReadAbsent(ns: seq<Notification>, id: string)
    requires forall k :: 0 <= k < |ns| ==> ns[k].id != id
    ensures MarkRead(ns, id) == ns
  {
    if ns != [] {
      MarkReadAbsent(ns[1..], id);
    }
  }
}
