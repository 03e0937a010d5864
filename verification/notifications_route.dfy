/** The notification routes: a user's newest notifications, their unread
    count, marking one or all of them read, and deleting one. Every route acts
    for the authenticated caller only; a route given another user's
    notification refuses it. */
module NotificationRoutes {
  import opened Common
  import opened Records
  import opened Database

  /** The `limit` of the listing query. */
  const PageSize: nat := 20

  function Owned(uid: int): Notification -> bool
  {
    (n: Notification) => n.userId == uid
  }

  function Unread(uid: int): Notification -> bool
  {
    (n: Notification) => n.userId == uid && !n.isRead
  }

  predicate NewerFirst(a: Notification, b: Notification)
  {
    a.createdAt >= b.createdAt
  }

  /** Every notification is at least as new as those after it. */
  predicate NewestFirst(s: seq<Notification>)
  {
    forall i, j :: 0 <= i < j < |s| ==> s[i].createdAt >= s[j].createdAt
  }

  /** All of a user's notifications, newest first. */
  function Inbox(rows: seq<Notification>, uid: int): (r: seq<Notification>)
    ensures multiset(r) == multiset(Filter(rows, Owned(uid)))
    ensures NewestFirst(r)
  {
    var r := SortBy(Filter(rows, Owned(uid)), NewerFirst);
    assert Total(NewerFirst) && Transitive(NewerFirst);
    SortBySorted(Filter(rows, Owned(uid)), NewerFirst);
    SortedAllPairs(r, NewerFirst);
    r
  }

  /** `GET /`: the caller's notifications, newest first, at most a page of them,
      none listed more often than it is stored; a notification of the caller's
      that is left off is no newer than any listed, and is left off only when
      the page is full. */
  function ListNotifications(rows: seq<Notification>, caller: Principal): (r: seq<Notification>)
    ensures |r| == if CountWhere(rows, Owned(caller.id)) < PageSize then CountWhere(rows, Owned(caller.id)) else PageSize
    ensures multiset(r) <= multiset(Filter(rows, Owned(caller.id)))
    ensures forall n :: n in r ==> n in rows && n.userId == caller.id
    ensures NewestFirst(r)
    ensures forall n :: n in rows && n.userId == caller.id && n !in r ==>
              |r| == PageSize && forall m :: m in r ==> m.createdAt >= n.createdAt
  {
    var inbox := Inbox(rows, caller.id);
    assert |inbox| == |multiset(inbox)| == |Filter(rows, Owned(caller.id))|;
    FirstPage(rows, caller.id);
    Take(inbox, PageSize)
  }

  /** The first page of an inbox holds only the user's own notifications,
      newest first, and any of theirs it leaves off is no newer than every one
      it holds. */
  lemma FirstPage(rows: seq<Notification>, uid: int)
    ensures var r := Take(Inbox(rows, uid), PageSize);
      && (forall n :: n in r ==> n in rows && n.userId == uid)
      && NewestFirst(r)
      && (forall n :: n in rows && n.userId == uid && n !in r ==>
            |r| == PageSize && forall m :: m in r ==> m.createdAt >= n.createdAt)
  {
    var inbox := Inbox(rows, uid);
    var r := Take(inbox, PageSize);
    forall n | n in r ensures n in rows && n.userId == uid {
      InInbox(rows, uid, n);
    }
    assert NewestFirst(r) by {
      forall i, j | 0 <= i < j < |r| ensures r[i].createdAt >= r[j].createdAt {
        assert r[i] == inbox[i] && r[j] == inbox[j];
      }
    }
    forall n | n in rows && n.userId == uid && n !in r
      ensures |r| == PageSize && forall m :: m in r ==> m.createdAt >= n.createdAt
    {
      InInbox(rows, uid, n);
      PageHoldsNewest(inbox, n);
    }
  }

  /** A notification is in a user's inbox exactly when it is one of theirs. */
  lemma InInbox(rows: seq<Notification>, uid: int, n: Notification)
    ensures n in Inbox(rows, uid) <==> n in rows && n.userId == uid
  {
    var inbox := Inbox(rows, uid);
    assert n in inbox <==> multiset(inbox)[n] > 0;
    assert n in rows <==> multiset(rows)[n] > 0;
  }

  /** In a newest-first sequence, an element left out of the first page is no
      newer than anything on it, and the page is full. */
  lemma PageHoldsNewest(s: seq<Notification>, n: Notification)
    requires NewestFirst(s)
    requires n in s && n !in Take(s, PageSize)
    ensures |Take(s, PageSize)| == PageSize
    ensures forall m :: m in Take(s, PageSize) ==> m.createdAt >= n.createdAt
  {
    var r := Take(s, PageSize);
    var d :| 0 <= d < |s| && s[d] == n;
    assert d >= |r|;
    forall m | m in r ensures m.createdAt >= n.createdAt {
      var k :| 0 <= k < |r| && r[k] == m;
      assert s[k] == m;
    }
  }

  /** `GET /count/unread`: how many of the caller's notifications are unread;
      zero exactly when every one of them is read. */
  function UnreadCount(rows: seq<Notification>, caller: Principal): (n: nat)
    ensures n <= CountWhere(rows, Owned(caller.id))
    ensures n == 0 <==> forall i :: 0 <= i < |rows| && rows[i].userId == caller.id ==> rows[i].isRead
  {
    CountWhereMono(rows, Unread(caller.id), Owned(caller.id));
    CountWhere(rows, Unread(caller.id))
  }

  /* ------------------------------------------------------------ mark read */

  /** `PATCH /:id/read` on the table: 404 for an unknown id, 403 for someone
      else's notification (a refusal changes nothing), otherwise that one row
      becomes read and is sent back. */
  function MarkReadStep(rows: seq<Notification>, caller: Principal, id: int)
    : (r: (Response<Notification>, seq<Notification>))
    ensures r.0.Failure? ==> r.1 == rows
    ensures FindByKey(rows, NotificationId, id).None? ==> r.0 == NotFound("Notification not found")
    ensures FindByKey(rows, NotificationId, id).Some? && rows[FindByKey(rows, NotificationId, id).value].userId != caller.id
            ==> r.0 == Forbidden("Access denied")
    ensures r.0.Success? <==>
            FindByKey(rows, NotificationId, id).Some? && rows[FindByKey(rows, NotificationId, id).value].userId == caller.id
    ensures r.0.Success? ==>
      var k := FindByKey(rows, NotificationId, id).value;
      && r.0.code == 200
      && |r.1| == |rows|
      && r.1[k] == rows[k].(isRead := true)
      && (forall j :: 0 <= j < |rows| && j != k ==> r.1[j] == rows[j])
      && r.0.body == r.1[k] && r.0.body.id == id && r.0.body.isRead
  {
    match FindByKey(rows, NotificationId, id)
    case None => (NotFound("Notification not found"), rows)
    case Some(k) =>
      if rows[k].userId != caller.id then (Forbidden("Access denied"), rows)
      else
        var n := rows[k].(isRead := true);
        (Success(200, n), rows[k := n])
  }

  /** Marking the same notification read twice gives what marking it once gave. */
  lemma MarkReadIdempotent(rows: seq<Notification>, caller: Principal, id: int)
    requires MarkReadStep(rows, caller, id).0.Success?
    ensures var once := MarkReadStep(rows, caller, id);
      MarkReadStep(once.1, caller, id) == once
  {
    var k := FindByKey(rows, NotificationId, id).value;
    var once := MarkReadStep(rows, caller, id);
    assert FindByKey(once.1, NotificationId, id) == Some(k);
    assert once.1[k := once.1[k]] == once.1;
  }

  /** Marking one notification read lowers the caller's unread count by one
      when it was unread and leaves every other user's unread count as it was. */
  lemma {:induction false} MarkReadUnreadCount(rows: seq<Notification>, caller: Principal, id: int, other: Principal)
    requires MarkReadStep(rows, caller, id).0.Success?
    ensures var k := FindByKey(rows, NotificationId, id).value;
      UnreadCount(MarkReadStep(rows, caller, id).1, caller)
        == UnreadCount(rows, caller) - (if rows[k].isRead then 0 else 1)
    ensures other.id != caller.id ==>
      UnreadCount(MarkReadStep(rows, caller, id).1, other) == UnreadCount(rows, other)
  {
    var k := FindByKey(rows, NotificationId, id).value;
    var after := MarkReadStep(rows, caller, id).1;
    assert after[..k] == rows[..k] && after[k + 1..] == rows[k + 1..];
    CountWhereSplit(rows, k, Unread(caller.id));
    CountWhereSplit(after, k, Unread(caller.id));
    CountWhereSplit(rows, k, Unread(other.id));
    CountWhereSplit(after, k, Unread(other.id));
  }

  /** `markRead` against the store. */
  method MarkRead(db: Db, caller: Principal, id: int) returns (reply: Response<Notification>)
    requires db.Valid()
    modifies db`notifications
    ensures db.Valid()
    ensures (reply, db.notifications) == MarkReadStep(old(db.notifications), caller, id)
  {
    var found := FindByKey(db.notifications, NotificationId, id);
    if found.None? {
      return NotFound("Notification not found");
    }
    var k := found.value;
    var notification := db.notifications[k];
    if notification.userId != caller.id {
      return Forbidden("Access denied");
    }
    notification := notification.(isRead := true);
    UniqueKeysUpdate(db.notifications, NotificationId, k, notification);
    db.notifications := db.notifications[k := notification];
    reply := Success(200, notification);
  }

  /* -------------------------------------------------------- mark all read */

  /** The bulk update `isRead := true where userId = uid and isRead = false`:
      every notification of `uid` ends up read, every other row is untouched. */
  function ReadAll(rows: seq<Notification>, uid: int): (r: seq<Notification>)
    ensures |r| == |rows|
    ensures forall i :: 0 <= i < |rows| && rows[i].userId == uid ==> r[i] == rows[i].(isRead := true)
    ensures forall i :: 0 <= i < |rows| && rows[i].userId != uid ==> r[i] == rows[i]
  {
    seq(|rows|, i requires 0 <= i < |rows| =>
      if rows[i].userId == uid && !rows[i].isRead then rows[i].(isRead := true) else rows[i])
  }

  /** After marking all read the caller has no unread notification, every
      other user keeps their unread count, and nobody's inbox changes size. */
  lemma ReadAllEffect(rows: seq<Notification>, caller: Principal, other: Principal)
    ensures UnreadCount(ReadAll(rows, caller.id), caller) == 0
    ensures other.id != caller.id ==> UnreadCount(ReadAll(rows, caller.id), other) == UnreadCount(rows, other)
    ensures CountWhere(ReadAll(rows, caller.id), Owned(other.id)) == CountWhere(rows, Owned(other.id))
  {
    var after := ReadAll(rows, caller.id);
    if other.id != caller.id {
      CountWherePointwise(rows, after, Unread(other.id));
    }
    CountWherePointwise(rows, after, Owned(other.id));
  }

  lemma ReadAllIdempotent(rows: seq<Notification>, uid: int)
    ensures ReadAll(ReadAll(rows, uid), uid) == ReadAll(rows, uid)
  {
  }

  /** `PATCH /read/all` against the store. */
  method MarkAllRead(db: Db, caller: Principal) returns (reply: Response<string>)
    requires db.Valid()
    modifies db`notifications
    ensures db.Valid()
    ensures db.notifications == ReadAll(old(db.notifications), caller.id)
    ensures reply == Success(200, "All notifications marked as read")
  {
    db.notifications := ReadAll(db.notifications, caller.id);
    assert forall i :: 0 <= i < |db.notifications| ==> db.notifications[i].id == old(db.notifications)[i].id;
    reply := Success(200, "All notifications marked as read");
  }

  /* --------------------------------------------------------------- delete */

  /** `DELETE /:id` on the table: 404 for an unknown id, 403 for someone
      else's notification (a refusal changes nothing), otherwise exactly that
      row leaves the table and the others keep their order. */
  function DeleteStep(rows: seq<Notification>, caller: Principal, id: int)
    : (r: (Response<string>, seq<Notification>))
    ensures r.0.Failure? ==> r.1 == rows
    ensures FindByKey(rows, NotificationId, id).None? ==> r.0 == NotFound("Notification not found")
    ensures FindByKey(rows, NotificationId, id).Some? && rows[FindByKey(rows, NotificationId, id).value].userId != caller.id
            ==> r.0 == Forbidden("Access denied")
    ensures r.0.Success? <==>
            FindByKey(rows, NotificationId, id).Some? && rows[FindByKey(rows, NotificationId, id).value].userId == caller.id
    ensures r.0.Success? ==>
      var k := FindByKey(rows, NotificationId, id).value;
      && r.0 == Success(200, "Notification deleted")
      && |r.1| == |rows| - 1
      && multiset(r.1) + multiset{rows[k]} == multiset(rows)
      && (forall j :: 0 <= j < k ==> r.1[j] == rows[j])
      && (forall j :: k < j < |rows| ==> r.1[j - 1] == rows[j])
  {
    match FindByKey(rows, NotificationId, id)
    case None => (NotFound("Notification not found"), rows)
    case Some(k) =>
      if rows[k].userId != caller.id then (Forbidden("Access denied"), rows)
      else
        (Success(200, "Notification deleted"), RemoveAt(rows, k))
  }

  /** With unique ids, a deleted notification is gone for good (a second
      delete or a mark-read of it is a 404), every other notification is
      still there, and ids stay unique. */
  lemma DeleteRemovesOnlyThatRow(rows: seq<Notification>, caller: Principal, id: int)
    requires UniqueKeys(rows, NotificationId)
    requires DeleteStep(rows, caller, id).0.Success?
    ensures var after := DeleteStep(rows, caller, id).1;
      && UniqueKeys(after, NotificationId)
      && FindByKey(after, NotificationId, id).None?
      && (forall n :: n in rows && n.id != id ==> n in after)
      && DeleteStep(after, caller, id).0 == NotFound("Notification not found")
      && MarkReadStep(after, caller, id).0 == NotFound("Notification not found")
  {
    var k := FindByKey(rows, NotificationId, id).value;
    var after := DeleteStep(rows, caller, id).1;
    forall j | 0 <= j < |after| ensures after[j].id != id {
      if j < k {
        assert after[j] == rows[j];
      } else {
        assert after[j] == rows[j + 1];
      }
    }
    forall n | n in rows && n.id != id ensures n in after {
      var j :| 0 <= j < |rows| && rows[j] == n;
      if j < k {
        assert after[j] == n;
      } else {
        assert j != k;
        assert after[j - 1] == n;
      }
    }
  }

  /** `DELETE /:id` against the store. */
  method DeleteNotification(db: Db, caller: Principal, id: int) returns (reply: Response<string>)
    requires db.Valid()
    modifies db`notifications
    ensures db.Valid()
    ensures (reply, db.notifications) == DeleteStep(old(db.notifications), caller, id)
  {
    var found := FindByKey(db.notifications, NotificationId, id);
    if found.None? {
      return NotFound("Notification not found");
    }
    var k := found.value;
    if db.notifications[k].userId != caller.id {
      return Forbidden("Access denied");
    }
    DeleteRemovesOnlyThatRow(db.notifications, caller, id);
    db.notifications := RemoveAt(db.notifications, k);
    reply := Success(200, "Notification deleted");
  }
}
