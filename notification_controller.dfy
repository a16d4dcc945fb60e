/**
 * notificationController.js: the helper the other controllers call to store a
 * notification, a user's inbox, and marking one notification as read.
 */
module NotificationController {
  import opened Common
  import opened Models
  import opened Ordering
  import opened Store

  /** `.limit(50)` of `getNotifications`. */
  const InboxLimit: nat := 50

  function CreatedAtOf(n: Notification): real { n.createdAt as real }

  /**
   * `createNotification({ recipientId, senderId, type, message, postId })`: the
   * document is stored when the schema accepts it (a non-empty content); otherwise
   * the save throws, the `catch` only logs, and nothing is stored. No error ever
   * reaches the caller, so the method has no status to return.
   */
  method CreateNotification(db: Database, recipient: Id, sender: Option<Id>, kind: NotificationKind,
                            message: string, postId: Option<Id>, now: int)
    requires db.Valid()
    modifies db
    ensures db.Valid()
    ensures message != "" ==>
      db.Snapshot() == old(db.Snapshot()).(
        notifications := old(db.notifications) + [Notification(old(db.nextId), recipient, sender, kind, message, postId, false, now)],
        nextId := old(db.nextId) + 1)
    ensures message == "" ==> db.Snapshot() == old(db.Snapshot())
  {
    var n := Notification(db.nextId, recipient, sender, kind, message, postId, false, now);
    if NotificationValid(n) {
      db.notifications := db.notifications + [n];
      db.nextId := db.nextId + 1;
    }
  }

  /** The notifications addressed to `user` (`find({ user })`). */
  function Inbox(notifications: seq<Notification>, user: Id): (r: seq<Notification>)
    ensures forall n :: n in r <==> n in notifications && n.user == user
  {
    Filter(notifications, (n: Notification) => n.user == user)
  }

  /**
   * `getNotifications`: only the caller's notifications, newest first, at most 50;
   * when more exist, the ones left out are none newer than any returned.
   */
  function GetNotifications(notifications: seq<Notification>, user: Id): (r: seq<Notification>)
    ensures |r| == Min(|Inbox(notifications, user)|, InboxLimit)
    ensures multiset(r) <= multiset(Inbox(notifications, user))
    ensures forall n :: n in r ==> n in notifications && n.user == user
    ensures SortedDesc(r, CreatedAtOf)
    ensures forall n :: n in notifications && n.user == user && n !in r ==>
              forall m :: m in r ==> m.createdAt >= n.createdAt
  {
    TopN(Inbox(notifications, user), CreatedAtOf, InboxLimit)
  }

  /**
   * `markAsRead`. The null result of `findById` is dereferenced (for logging) before
   * the `!notification` test, so an unknown id ends in the `catch` with 500, never
   * 404. Someone else's notification gives 403. Otherwise `read` becomes true and
   * nothing else changes; a notification already read stays as it is, so marking
   * twice leaves the same store as marking once.
   */
  method MarkAsRead(db: Database, caller: Id, id: Id) returns (status: Status)
    requires db.Valid()
    modifies db
    ensures db.Valid()
    ensures FindNotification(old(db.notifications), id).None? ==>
              status == ServerError && db.Snapshot() == old(db.Snapshot())
    ensures FindNotification(old(db.notifications), id).Some? ==>
      var i := FindNotification(old(db.notifications), id).value;
      && (old(db.notifications)[i].user != caller ==> status == Forbidden && db.Snapshot() == old(db.Snapshot()))
      && (old(db.notifications)[i].user == caller ==>
            && status == Ok
            && db.Snapshot() == old(db.Snapshot()).(
                 notifications := old(db.notifications)[i := old(db.notifications)[i].(read := true)])
            && (old(db.notifications)[i].read ==> db.Snapshot() == old(db.Snapshot())))
  {
    var found := FindNotification(db.notifications, id);
    if found.None? {
      return ServerError;
    }
    var i := found.value;
    var n := db.notifications[i];
    if n.user != caller {
      return Forbidden;
    }
    db.notifications := db.notifications[i := n.(read := true)];
    status := Ok;
  }
}
