/** The administrator's notification bell (admin-notifications.jsx): the unread
    count shown on the bell and the "Mark all as read" action. */
module AdminNotifications {
  import C = Common

  datatype Notification = Notification(id: nat, title: string, message: string, time: string, read: bool)

  /** The four notifications the bell starts with; the first three are unread. */
  function Seeded(): (r: seq<Notification>)
    ensures |r| == 4
    ensures forall i :: 0 <= i < |r| ==> (r[i].read <==> i == 3)
  {
    [ Notification(1, "New submission", "Alex Johnson submitted evidence for Zero Waste Week", "10 minutes ago", false),
      Notification(2, "Reward distribution due", "Zero Waste Week rewards need to be distributed by tomorrow", "1 hour ago", false),
      Notification(3, "Challenge ending soon", "Plastic-Free Challenge ends in 2 days", "3 hours ago", false),
      Notification(4, "New project proposal", "Community member submitted a new project proposal", "Yesterday", true) ]
  }

  /** `unreadCount`: the length of the list of unread notifications. */
  function UnreadCount(ns: seq<Notification>): (n: nat)
    ensures n <= |ns|
    ensures n == C.Count(ns, (x: Notification) => !x.read)
  {
    C.FilterLength(ns, (x: Notification) => !x.read);
    |C.Filter(ns, (x: Notification) => !x.read)|
  }

  /** The count is positive exactly when some notification is unread. */
  lemma {:induction false} UnreadPositiveIff(ns: seq<Notification>)
    ensures UnreadCount(ns) > 0 <==> exists i :: 0 <= i < |ns| && !ns[i].read
    decreases |ns|
  {
    if ns != [] {
      UnreadPositiveIff(ns[1..]);
      if exists i :: 0 <= i < |ns| && !ns[i].read {
        var i :| 0 <= i < |ns| && !ns[i].read;
        if i > 0 {
          assert !ns[1..][i - 1].read;
        }
      }
      if exists i :: 0 <= i < |ns[1..]| && !ns[1..][i].read {
        var i :| 0 <= i < |ns[1..]| && !ns[1..][i].read;
        assert !ns[i + 1].read;
      }
    }
  }

  lemma SeededUnread()
    ensures UnreadCount(Seeded()) == 3
  {
    var s := Seeded();
    assert s[1..][1..][1..][1..] == [];
  }

  /** `markAllAsRead`: every notification read, nothing else changed, same order. */
  function MarkAllAsRead(ns: seq<Notification>): (r: seq<Notification>)
    ensures |r| == |ns|
    ensures forall i :: 0 <= i < |r| ==> r[i] == ns[i].(read := true)
  {
    seq(|ns|, i requires 0 <= i < |ns| => ns[i].(read := true))
  }

  /** After marking all as read nothing is unread. */
  lemma MarkAllLeavesNoneUnread(ns: seq<Notification>)
    ensures UnreadCount(MarkAllAsRead(ns)) == 0
  {
    UnreadPositiveIff(MarkAllAsRead(ns));
  }

  lemma MarkAllIdempotent(ns: seq<Notification>)
    ensures MarkAllAsRead(MarkAllAsRead(ns)) == MarkAllAsRead(ns)
  {
  }

  /** The badge on the bell and the "Mark all as read" button share this condition. */
  predicate BadgeShown(ns: seq<Notification>)
  {
    UnreadCount(ns) > 0
  }

  class Bell {
    var notifications: seq<Notification>

    constructor ()
      ensures notifications == Seeded()
    {
      notifications := Seeded();
    }

    method MarkAll()
      modifies this
      ensures notifications == MarkAllAsRead(old(notifications))
      ensures !BadgeShown(notifications)
    {
      notifications := MarkAllAsRead(notifications);
      MarkAllLeavesNoneUnread(old(notifications));
    }
  }
}
