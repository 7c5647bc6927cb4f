/** `/api/farmer/notifications`: a farmer's notifications, listed (`GET`),
    marked read in bulk (`PATCH`) and created (`POST`). */
module Notifications {
  import opened Common
  import opened Seqs
  import opened Entities
  import opened Db

  datatype NotificationError = FarmerIdRequired | FarmerIdAndMessageRequired

  datatype NotificationReply = MarkedAsRead

  predicate NewerNotification(a: Notification, b: Notification) { a.createdAt >= b.createdAt }

  lemma NewerNotificationIsOrder()
    ensures TotalPreorder(NewerNotification)
  {
  }

  /** The `GET` handler, a read: the farmer's notifications, newest first. */
  function ListNotifications(ns: seq<Notification>, farmerId: Option<Id>)
    : (r: Response<seq<Notification>, NotificationError>)
    ensures farmerId.None? <==> r == Err(400, FarmerIdRequired)
    ensures farmerId.Some? ==> r.Ok? && r.status == 200
    ensures farmerId.Some? ==> forall n :: n in r.value <==> n in ns && n.farmerId == farmerId.value
    ensures farmerId.Some? ==> forall n: Notification :: n.farmerId == farmerId.value ==> multiset(r.value)[n] == multiset(ns)[n]
    ensures farmerId.Some? ==> forall i, j :: 0 <= i < j < |r.value| ==> r.value[i].createdAt >= r.value[j].createdAt
  {
    match farmerId
    case None => Err(400, FarmerIdRequired)
    case Some(f) =>
      var mine := Filter(ns, (n: Notification) => n.farmerId == f);
      FilterCounts(ns, (n: Notification) => n.farmerId == f);
      NewerNotificationIsOrder();
      SortBySorted(mine, NewerNotification);
      SortByMembers(mine, NewerNotification);
      Ok(200, SortBy(mine, NewerNotification))
  }

  /** `updateMany({ where: { farmerId, isRead: false }, data: { isRead: true } })`,
      row by row in place. */
  function MarkRead(ns: seq<Notification>, farmerId: Id): (r: seq<Notification>)
    ensures |r| == |ns|
    ensures forall k :: 0 <= k < |ns| ==>
      r[k] == if ns[k].farmerId == farmerId && !ns[k].isRead then ns[k].(isRead := true) else ns[k]
  {
    if |ns| == 0 then []
    else
      var n := ns[0];
      [if n.farmerId == farmerId && !n.isRead then n.(isRead := true) else n] + MarkRead(ns[1..], farmerId)
  }

  /** After the update every notification of the farmer is read. */
  lemma MarkReadAllRead(ns: seq<Notification>, farmerId: Id)
    ensures forall n :: n in MarkRead(ns, farmerId) && n.farmerId == farmerId ==> n.isRead
  {
    var r := MarkRead(ns, farmerId);
    forall n | n in r && n.farmerId == farmerId ensures n.isRead {
      var k :| 0 <= k < |r| && r[k] == n;
    }
  }

  /** Other farmers' notifications, every message, id and date are left as
      they were: only the read flag of the farmer's rows can change. */
  lemma MarkReadOnlyFlags(ns: seq<Notification>, farmerId: Id)
    ensures forall k :: 0 <= k < |ns| ==>
      && MarkRead(ns, farmerId)[k] == ns[k].(isRead := MarkRead(ns, farmerId)[k].isRead)
      && (ns[k].farmerId != farmerId ==> MarkRead(ns, farmerId)[k] == ns[k])
  {
  }

  /** Marking twice is marking once. */
  lemma {:induction false} MarkReadIdempotent(ns: seq<Notification>, farmerId: Id)
    ensures MarkRead(MarkRead(ns, farmerId), farmerId) == MarkRead(ns, farmerId)
  {
    var once := MarkRead(ns, farmerId);
    var twice := MarkRead(once, farmerId);
    assert |twice| == |once|;
    forall k | 0 <= k < |once| ensures twice[k] == once[k] {
    }
  }

  /** The `PATCH` handler. */
  method MarkAllRead(db: Store, farmerId: Option<Id>) returns (r: Response<NotificationReply, NotificationError>)
    requires db.Valid()
    modifies db
    ensures db.Valid()
    ensures unchanged(db`products, db`farmers, db`buyers, db`admins, db`carts, db`cartItems, db`orders, db`chats, db`nextId)
    ensures farmerId.None? ==> r == Err(400, FarmerIdRequired) && unchanged(db)
    ensures farmerId.Some? ==>
      r == Ok(200, MarkedAsRead) && db.notifications == MarkRead(old(db.notifications), farmerId.value)
  {
    if farmerId.None? {
      return Err(400, FarmerIdRequired);
    }
    db.notifications := MarkRead(db.notifications, farmerId.value);
    r := Ok(200, MarkedAsRead);
  }

  /** The `POST` handler: one unread notification, or 400 and no insert. */
  method CreateNotification(db: Store, farmerId: Option<Id>, message: Option<string>, now: int)
    returns (r: Response<Notification, NotificationError>)
    requires db.Valid()
    modifies db
    ensures db.Valid()
    ensures unchanged(db`products, db`farmers, db`buyers, db`admins, db`carts, db`cartItems, db`orders, db`chats)
    ensures farmerId.None? || !Present(message) ==> r == Err(400, FarmerIdAndMessageRequired) && unchanged(db)
    ensures farmerId.Some? && Present(message) ==>
      && r == Ok(201, Notification(old(db.nextId), farmerId.value, message.value, false, now))
      && db.notifications == old(db.notifications) + [r.value]
      && db.nextId == old(db.nextId) + 1
  {
    if farmerId.None? || !Present(message) {
      return Err(400, FarmerIdAndMessageRequired);
    }
    var n := Notification(db.nextId, farmerId.value, message.value, false, now);
    db.notifications := db.notifications + [n];
    db.nextId := db.nextId + 1;
    r := Ok(201, n);
  }
}
