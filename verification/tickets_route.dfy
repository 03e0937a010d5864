/** The ticket attachment upload route: a request carrying one uploaded file
    adds one Attachment row to an existing ticket, provided the caller may
    touch that ticket (an end user only their own ticket, staff any ticket). */
module TicketRoutes {
  import opened Common
  import opened Records
  import opened Database

  /** What the upload middleware hands over for the single file field. */
  datatype UploadedFile = UploadedFile(filename: string, originalName: string, path: string, size: nat, mimeType: string)

  /** The uploader columns the reply includes. */
  datatype Uploader = Uploader(id: int, name: string, email: string)

  /** The reply body: the new attachment and, when the uploader's user row
      exists, that user's id, name and email. */
  datatype AttachmentReply = AttachmentReply(attachment: Attachment, uploadedBy: Option<Uploader>)

  /** The permission check of the route: only the "user" role is restricted,
      and only to tickets it created. */
  predicate MayAttach(caller: Principal, ticket: Ticket): (ok: bool)
    ensures caller.role != EndUser ==> ok
    ensures caller.role == EndUser ==> (ok <==> ticket.userId == caller.id)
  {
    !(caller.role == EndUser && ticket.userId != caller.id)
  }

  /** The uploader columns of the reply: the id, name and email of the user
      row with the caller's id, when there is one. */
  function UploaderOf(users: seq<User>, uid: int): (r: Option<Uploader>)
    ensures r.Some? <==> exists i :: 0 <= i < |users| && users[i].id == uid
    ensures r.Some? ==> exists i :: 0 <= i < |users| && users[i].id == uid
                                     && r.value == Uploader(uid, users[i].name, users[i].email)
  {
    match FindByKey(users, UserId, uid)
    case None => None
    case Some(k) => Some(Uploader(users[k].id, users[k].name, users[k].email))
  }

  /** The upload route on the tables: 400 without a file (checked before the
      ticket is looked up), 404 for an unknown ticket, 403 when the caller may
      not touch the ticket; otherwise one attachment, carrying the file's
      metadata, the ticket's id, the caller as uploader and the next id, is
      appended and sent back with 201. A refusal changes nothing. */
  function UploadStep(attachments: seq<Attachment>, tickets: seq<Ticket>, users: seq<User>, nextId: int,
                      caller: Principal, ticketId: int, file: Option<UploadedFile>)
    : (r: (Response<AttachmentReply>, seq<Attachment>, int))
    ensures r.0.Failure? ==> r.1 == attachments && r.2 == nextId
    ensures file.None? ==> r.0 == BadRequest("No file uploaded")
    ensures file.Some? && FindByKey(tickets, TicketId, ticketId).None? ==> r.0 == NotFound("Ticket not found")
    ensures file.Some? && FindByKey(tickets, TicketId, ticketId).Some?
            && caller.role == EndUser && tickets[FindByKey(tickets, TicketId, ticketId).value].userId != caller.id
            ==> r.0 == Forbidden("Access denied")
    ensures r.0.Success? <==>
            file.Some? && FindByKey(tickets, TicketId, ticketId).Some?
            && MayAttach(caller, tickets[FindByKey(tickets, TicketId, ticketId).value])
    ensures r.0.Success? ==>
      var a := r.0.body.attachment;
      && r.0.code == 201
      && r.1 == attachments + [a]
      && r.2 == nextId + 1
      && a.id == nextId
      && a.ticketId == ticketId
      && a.uploadedById == caller.id
      && a.filename == file.value.filename && a.originalName == file.value.originalName
      && a.filePath == file.value.path && a.fileSize == file.value.size && a.mimeType == file.value.mimeType
      && (r.0.body.uploadedBy.Some? <==> exists i :: 0 <= i < |users| && users[i].id == caller.id)
      && r.0.body.uploadedBy == UploaderOf(users, caller.id)
  {
    if file.None? then (BadRequest("No file uploaded"), attachments, nextId)
    else
      match FindByKey(tickets, TicketId, ticketId)
      case None => (NotFound("Ticket not found"), attachments, nextId)
      case Some(k) =>
        var ticket := tickets[k];
        if caller.role == EndUser && ticket.userId != caller.id then
          (Forbidden("Access denied"), attachments, nextId)
        else
          var f := file.value;
          var a := Attachment(nextId, f.filename, f.originalName, f.path, f.size, f.mimeType, ticket.id, caller.id);
          (Success(201, AttachmentReply(a, UploaderOf(users, caller.id))), attachments + [a], nextId + 1)
  }

  /** Who may attach: staff (any role but "user") to every existing ticket,
      an end user exactly to the tickets they created. */
  lemma UploadPermission(attachments: seq<Attachment>, tickets: seq<Ticket>, users: seq<User>, nextId: int,
                         caller: Principal, ticketId: int, file: UploadedFile)
    requires FindByKey(tickets, TicketId, ticketId).Some?
    ensures var t := tickets[FindByKey(tickets, TicketId, ticketId).value];
      UploadStep(attachments, tickets, users, nextId, caller, ticketId, Some(file)).0.Success? <==> caller.role != EndUser || t.userId == caller.id
  {
  }

  function OfTicket(ticketId: int): Attachment -> bool
  {
    (a: Attachment) => a.ticketId == ticketId
  }

  /** A successful upload keeps attachment ids unique and below the next id,
      adds exactly one attachment to the target ticket and none to any other. */
  lemma {:induction false} UploadEffect(attachments: seq<Attachment>, tickets: seq<Ticket>, users: seq<User>, nextId: int,
                                        caller: Principal, ticketId: int, file: Option<UploadedFile>, other: int)
    requires Numbered(attachments, AttachmentId, nextId)
    requires UploadStep(attachments, tickets, users, nextId, caller, ticketId, file).0.Success?
    ensures var r := UploadStep(attachments, tickets, users, nextId, caller, ticketId, file);
      && Numbered(r.1, AttachmentId, r.2)
      && CountWhere(r.1, OfTicket(ticketId)) == CountWhere(attachments, OfTicket(ticketId)) + 1
      && (other != ticketId ==> CountWhere(r.1, OfTicket(other)) == CountWhere(attachments, OfTicket(other)))
  {
    var r := UploadStep(attachments, tickets, users, nextId, caller, ticketId, file);
    var a := r.0.body.attachment;
    NumberedAppend(attachments, AttachmentId, nextId, a);
    CountWhereAppend(attachments, [a], OfTicket(ticketId));
    CountWhereAppend(attachments, [a], OfTicket(other));
  }

  /** The upload route against the store. */
  method UploadAttachment(db: Db, caller: Principal, ticketId: int, file: Option<UploadedFile>)
    returns (reply: Response<AttachmentReply>)
    requires db.Valid()
    modifies db`attachments, db`nextAttachmentId
    ensures db.Valid()
    ensures (reply, db.attachments, db.nextAttachmentId)
         == UploadStep(old(db.attachments), db.tickets, db.users, old(db.nextAttachmentId), caller, ticketId, file)
  {
    if file.None? {
      return BadRequest("No file uploaded");
    }
    var found := FindByKey(db.tickets, TicketId, ticketId);
    if found.None? {
      return NotFound("Ticket not found");
    }
    var ticket := db.tickets[found.value];
    if caller.role == EndUser && ticket.userId != caller.id {
      return Forbidden("Access denied");
    }
    var f := file.value;
    var attachment := Attachment(db.nextAttachmentId, f.filename, f.originalName, f.path, f.size, f.mimeType,
                                 ticket.id, caller.id);
    NumberedAppend(db.attachments, AttachmentId, db.nextAttachmentId, attachment);
    db.attachments := db.attachments + [attachment];
    db.nextAttachmentId := db.nextAttachmentId + 1;
    reply := Success(201, AttachmentReply(attachment, UploaderOf(db.users, caller.id)));
  }
}
