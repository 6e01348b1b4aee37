/** The notification inbox endpoint (app/api/notifications/route.ts): a signed-in user's
    most recent notifications, at most fifty, and the number still unread. */
module NotificationsRoute {
  import opened Common
  import opened Seqs

  /** `take: 50`. */
  const PageSize: nat := 50

  datatype Inbox = Inbox(notifications: seq<Notification>, unreadCount: nat)

  predicate Own(user: User, n: Notification) {
    n.userId == user.id
  }

  predicate Unread(user: User, n: Notification) {
    n.userId == user.id && !n.isRead
  }

  function NotificationCreated(n: Notification): int {
    n.createdAt
  }

  /** The user's notifications, newest first. */
  function Newest(notifications: seq<Notification>, user: User): (r: seq<Notification>)
    ensures |r| == CountWhere(notifications, n => Own(user, n))
    ensures SortedDesc(r, NotificationCreated)
    ensures forall n :: n in r <==> n in notifications && Own(user, n)
  {
    var own := Filter(notifications, n => Own(user, n));
    var r := SortDesc(own, NotificationCreated);
    forall n ensures n in r <==> n in own {
      SortedMembers(own, NotificationCreated, n);
    }
    r
  }

  /** GET: 401 without a signed-in caller; otherwise the inbox. */
  function GetInbox(notifications: seq<Notification>, caller: Caller): (r: Response<Inbox>)
    ensures r.Failure? <==> !caller.SignedIn?
    ensures r.Failure? ==> r.status == 401
    ensures r.Ok? ==>
              && r.status == 200
              && |r.body.notifications| <= PageSize
              && (forall n :: n in r.body.notifications ==> n in notifications && n.userId == caller.user.id)
              && (forall i, j :: 0 <= i < j < |r.body.notifications| ==>
                    r.body.notifications[i].createdAt >= r.body.notifications[j].createdAt)
              && r.body.unreadCount == CountWhere(notifications, n => Unread(caller.user, n))
  {
    match caller
    case NoToken => Failure(401, "Unauthorized")
    case UnknownToken => Failure(401, "Invalid token")
    case SignedIn(user) =>
      var page := Take(Newest(notifications, user), PageSize);
      assert forall n :: n in page ==> n in Newest(notifications, user);
      Ok(200, Inbox(page, CountWhere(notifications, n => Unread(user, n))))
  }

  /** The inbox keeps the newest: a notification of the user's left off the page is no newer
      than any notification on it, and with fifty or fewer nothing is left off. */
  lemma InboxKeepsNewest(notifications: seq<Notification>, user: User)
    ensures var page := GetInbox(notifications, SignedIn(user)).body.notifications;
            var own := CountWhere(notifications, n => Own(user, n));
      && |page| == (if own <= PageSize then own else PageSize)
      && forall n, e :: n in notifications && Own(user, n) && n !in page && e in page ==> n.createdAt <= e.createdAt
  {
    var sorted := Newest(notifications, user);
    var page := Take(sorted, PageSize);
    forall n, e | n in notifications && Own(user, n) && n !in page && e in page
      ensures n.createdAt <= e.createdAt
    {
      var j :| 0 <= j < |sorted| && sorted[j] == n;
      var i :| 0 <= i < |page| && page[i] == e;
      assert forall k :: 0 <= k < |page| ==> page[k] == sorted[k];
      assert sorted[i] == e;
    }
  }

  /** The unread count never exceeds the number of the user's notifications. */
  lemma UnreadWithinOwn(notifications: seq<Notification>, user: User)
    ensures CountWhere(notifications, n => Unread(user, n)) <= CountWhere(notifications, n => Own(user, n))
  {
    CountMonotone(notifications, n => Unread(user, n), n => Own(user, n));
  }
}
