/** The application's store: one object holding every table the modelled
    handlers read or change, each as a sequence of rows, with the next
    auto-increment id of the tables that the model appends to. */
module Database {
  import opened Common
  import opened Records

  /** Keys are unique and every key lies below the table's next id. */
  ghost predicate Numbered<T>(rows: seq<T>, key: T -> int, next: int)
  {
    && UniqueKeys(rows, key)
    && forall i :: 0 <= i < |rows| ==> key(rows[i]) < next
  }

  /** Replacing a row by one with the same key keeps a table numbered. */
  lemma NumberedUpdate<T>(rows: seq<T>, key: T -> int, next: int, k: nat, x: T)
    requires Numbered(rows, key, next) && k < |rows| && key(x) == key(rows[k])
    ensures Numbered(rows[k := x], key, next)
  {
    UniqueKeysUpdate(rows, key, k, x);
  }

  /** Appending a row keyed by the next id, and advancing the next id, keeps
      a table numbered. */
  lemma NumberedAppend<T>(rows: seq<T>, key: T -> int, next: int, x: T)
    requires Numbered(rows, key, next) && key(x) == next
    ensures Numbered(rows + [x], key, next + 1)
  {
  }

  class Db {
    var users: seq<User>
    var tickets: seq<Ticket>
    var notifications: seq<Notification>
    var attachments: seq<Attachment>
    var slas: seq<Sla>
    var nextUserId: int
    var nextAttachmentId: int
    var nextSlaId: int

    /** Primary keys are unique in every table, and every key of an
        auto-increment table lies below that table's next id. */
    ghost predicate Valid()
      reads this
    {
      && Numbered(users, UserId, nextUserId)
      && UniqueKeys(tickets, TicketId)
      && UniqueKeys(notifications, NotificationId)
      && Numbered(attachments, AttachmentId, nextAttachmentId)
      && Numbered(slas, SlaId, nextSlaId)
    }

    /** A fresh, empty store whose ids start at 1. */
    constructor ()
      ensures Valid()
      ensures users == [] && tickets == [] && notifications == [] && attachments == [] && slas == []
      ensures nextUserId == 1 && nextAttachmentId == 1 && nextSlaId == 1
    {
      users, tickets, notifications, attachments, slas := [], [], [], [], [];
      nextUserId, nextAttachmentId, nextSlaId := 1, 1, 1;
    }
  }
}
