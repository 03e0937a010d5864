/** The rows of the helpdesk's tables (users, tickets, notifications,
    attachments, SLAs), the enumerations their columns range over, and the
    schema rules — required columns, defaults, enum domains — that the
    Ticket and Notification models declare. Timestamps are integer milliseconds. */
module Records {
  import opened Common

  datatype Status = Open | InProgress | Resolved | Closed
  datatype Priority = Low | Medium | High | Urgent
  /** `EndUser` is the role whose wire name is "user". */
  datatype Role = EndUser | Agent | Manager | Admin | SuperAdmin
  datatype NotificationType = TicketCreated | TicketAssigned | TicketUpdated | TicketResolved | NewTicket

  function StatusName(st: Status): (name: string)
    ensures ParseStatus(name) == Some(st)
  {
    match st
    case Open => "open"
    case InProgress => "in_progress"
    case Resolved => "resolved"
    case Closed => "closed"
  }

  /** The status a wire name denotes; None outside the column's ENUM. */
  function ParseStatus(name: string): Option<Status>
  {
    if name == "open" then Some(Open)
    else if name == "in_progress" then Some(InProgress)
    else if name == "resolved" then Some(Resolved)
    else if name == "closed" then Some(Closed)
    else None
  }

  lemma ParseStatusInverse(name: string)
    ensures ParseStatus(name).Some? ==> StatusName(ParseStatus(name).value) == name
  {
  }

  function PriorityName(p: Priority): (name: string)
    ensures ParsePriority(name) == Some(p)
  {
    match p
    case Low => "low"
    case Medium => "medium"
    case High => "high"
    case Urgent => "urgent"
  }

  function ParsePriority(name: string): Option<Priority>
  {
    if name == "low" then Some(Low)
    else if name == "medium" then Some(Medium)
    else if name == "high" then Some(High)
    else if name == "urgent" then Some(Urgent)
    else None
  }

  lemma ParsePriorityInverse(name: string)
    ensures ParsePriority(name).Some? ==> PriorityName(ParsePriority(name).value) == name
  {
  }

  function NotificationTypeName(k: NotificationType): (name: string)
    ensures ParseNotificationType(name) == Some(k)
  {
    match k
    case TicketCreated => "ticket_created"
    case TicketAssigned => "ticket_assigned"
    case TicketUpdated => "ticket_updated"
    case TicketResolved => "ticket_resolved"
    case NewTicket => "new_ticket"
  }

  function ParseNotificationType(name: string): Option<NotificationType>
  {
    if name == "ticket_created" then Some(TicketCreated)
    else if name == "ticket_assigned" then Some(TicketAssigned)
    else if name == "ticket_updated" then Some(TicketUpdated)
    else if name == "ticket_resolved" then Some(TicketResolved)
    else if name == "new_ticket" then Some(NewTicket)
    else None
  }

  lemma ParseNotificationTypeInverse(name: string)
    ensures ParseNotificationType(name).Some? ==> NotificationTypeName(ParseNotificationType(name).value) == name
  {
  }

  /** Urgency rank: low 0, medium 1, high 2, urgent 3. */
  function PriorityRank(p: Priority): nat
  {
    match p
    case Low => 0
    case Medium => 1
    case High => 2
    case Urgent => 3
  }

  datatype Ticket = Ticket(
    id: int,
    title: string,
    description: string,
    status: Status,
    priority: Priority,
    category: Option<string>,
    userId: int,
    assignedToId: Option<int>,
    slaId: Option<int>,
    resolvedAt: Option<int>,
    dueDate: Option<int>,
    createdAt: int)

  datatype User = User(
    id: int,
    name: string,
    email: string,
    password: string,
    role: Role,
    isActive: bool,
    createdAt: int)

  datatype Notification = Notification(
    id: int,
    userId: int,
    ticketId: Option<int>,
    title: string,
    message: string,
    kind: NotificationType,
    isRead: bool,
    createdAt: int)

  datatype Attachment = Attachment(
    id: int,
    filename: string,
    originalName: string,
    filePath: string,
    fileSize: nat,
    mimeType: string,
    ticketId: int,
    uploadedById: int)

  /** A service-level agreement; both times are in hours. */
  datatype Sla = Sla(id: int, name: string, priority: Priority, responseTime: nat, resolutionTime: nat)

  /** The authenticated caller (`req.user`). */
  datatype Principal = Principal(id: int, role: Role)

  function UserId(u: User): int { u.id }
  function TicketId(t: Ticket): int { t.id }
  function NotificationId(n: Notification): int { n.id }
  function AttachmentId(a: Attachment): int { a.id }
  function SlaId(s: Sla): int { s.id }

  function HasStatus(st: Status): Ticket -> bool
  {
    (t: Ticket) => t.status == st
  }

  /** Number of tickets whose status is `st`. */
  function CountStatus(tickets: seq<Ticket>, st: Status): nat
  {
    CountWhere(tickets, HasStatus(st))
  }

  /** Status is a non-null four-valued column, so the four status counts
      partition the ticket table. */
  lemma {:induction false} StatusPartition(tickets: seq<Ticket>)
    ensures CountStatus(tickets, Open) + CountStatus(tickets, InProgress)
          + CountStatus(tickets, Resolved) + CountStatus(tickets, Closed) == |tickets|
  {
    if tickets != [] {
      StatusPartition(tickets[1..]);
    }
  }

  /** A column value handed to `create`: left out, an explicit null, or a value. */
  datatype Field<T> = Absent | Null | Given(v: T)

  /** The outcome of the model's validation of a new row. */
  datatype Checked<T> = Built(row: T) | Rejected(message: string)

  /** A value for a non-null ENUM column with a default: left out or one of the
      ENUM's names (an explicit null violates the non-null constraint). */
  predicate EnumFieldOk<E>(f: Field<string>, parse: string -> Option<E>)
  {
    f.Absent? || (f.Given? && parse(f.v).Some?)
  }

  function OrDefault<E>(f: Field<string>, parse: string -> Option<E>, default: E): E
    requires EnumFieldOk(f, parse)
  {
    if f.Given? then parse(f.v).value else default
  }

  /** A nullable column: the given value, or null when left out or null. */
  function Nullable<T>(f: Field<T>): (r: Option<T>)
    ensures r.Some? <==> f.Given?
    ensures r.Some? ==> r.value == f.v
  {
    if f.Given? then Some(f.v) else None
  }

  datatype TicketDraft = TicketDraft(
    title: Field<string>,
    description: Field<string>,
    status: Field<string>,
    priority: Field<string>,
    category: Field<string>,
    userId: Field<int>,
    assignedToId: Field<int>,
    slaId: Field<int>,
    resolvedAt: Field<int>,
    dueDate: Field<int>)

  /** Validation and defaulting of a new Ticket row: title, description and
      userId must be given, status and priority must name ENUM values and default
      to open and medium, and category, assignedToId, slaId, resolvedAt and dueDate
      may be null. */
  function BuildTicket(d: TicketDraft, id: int, now: int): (r: Checked<Ticket>)
    ensures r.Built? <==>
      d.title.Given? && d.description.Given? && d.userId.Given?
      && EnumFieldOk(d.status, ParseStatus) && EnumFieldOk(d.priority, ParsePriority)
    ensures r.Built? ==>
      && r.row.id == id && r.row.createdAt == now
      && r.row.title == d.title.v && r.row.description == d.description.v && r.row.userId == d.userId.v
      && (d.status.Absent? ==> r.row.status == Open)
      && (d.status.Given? ==> StatusName(r.row.status) == d.status.v)
      && (d.priority.Absent? ==> r.row.priority == Medium)
      && (d.priority.Given? ==> PriorityName(r.row.priority) == d.priority.v)
      && (r.row.category.Some? <==> d.category.Given?)
      && (d.category.Given? ==> r.row.category.value == d.category.v)
      && (r.row.assignedToId.Some? <==> d.assignedToId.Given?)
      && (d.assignedToId.Given? ==> r.row.assignedToId.value == d.assignedToId.v)
      && (r.row.slaId.Some? <==> d.slaId.Given?)
      && (d.slaId.Given? ==> r.row.slaId.value == d.slaId.v)
      && (r.row.resolvedAt.Some? <==> d.resolvedAt.Given?)
      && (d.resolvedAt.Given? ==> r.row.resolvedAt.value == d.resolvedAt.v)
      && (r.row.dueDate.Some? <==> d.dueDate.Given?)
      && (d.dueDate.Given? ==> r.row.dueDate.value == d.dueDate.v)
  {
    if !d.title.Given? then Rejected("Ticket.title cannot be null")
    else if !d.description.Given? then Rejected("Ticket.description cannot be null")
    else if !EnumFieldOk(d.status, ParseStatus) then Rejected("Ticket.status is not an allowed value")
    else if !EnumFieldOk(d.priority, ParsePriority) then Rejected("Ticket.priority is not an allowed value")
    else if !d.userId.Given? then Rejected("Ticket.userId cannot be null")
    else
      var st := OrDefault(d.status, ParseStatus, Open);
      var pr := OrDefault(d.priority, ParsePriority, Medium);
      assert d.status.Given? ==> StatusName(st) == d.status.v by {
        if d.status.Given? { ParseStatusInverse(d.status.v); }
      }
      assert d.priority.Given? ==> PriorityName(pr) == d.priority.v by {
        if d.priority.Given? { ParsePriorityInverse(d.priority.v); }
      }
      Built(Ticket(id, d.title.v, d.description.v, st, pr, Nullable(d.category), d.userId.v,
                   Nullable(d.assignedToId), Nullable(d.slaId), Nullable(d.resolvedAt),
                   Nullable(d.dueDate), now))
  }

  datatype NotificationDraft = NotificationDraft(
    userId: Field<int>,
    ticketId: Field<int>,
    title: Field<string>,
    message: Field<string>,
    kind: Field<string>,
    isRead: Option<bool>)

  /** Validation and defaulting of a new Notification row: userId, title, message
      and type must be given and type must name an ENUM value; ticketId may be
      null; isRead defaults to false. */
  function BuildNotification(d: NotificationDraft, id: int, now: int): (r: Checked<Notification>)
    ensures r.Built? <==>
      d.userId.Given? && d.title.Given? && d.message.Given?
      && d.kind.Given? && ParseNotificationType(d.kind.v).Some?
    ensures r.Built? ==>
      && r.row.id == id && r.row.createdAt == now && r.row.userId == d.userId.v
      && r.row.title == d.title.v && r.row.message == d.message.v
      && NotificationTypeName(r.row.kind) == d.kind.v
      && (r.row.ticketId.Some? <==> d.ticketId.Given?)
      && (d.ticketId.Given? ==> r.row.ticketId.value == d.ticketId.v)
      && (d.isRead.None? ==> !r.row.isRead)
      && (d.isRead.Some? ==> r.row.isRead == d.isRead.value)
  {
    if !d.userId.Given? then Rejected("Notification.userId cannot be null")
    else if !d.title.Given? then Rejected("Notification.title cannot be null")
    else if !d.message.Given? then Rejected("Notification.message cannot be null")
    else if !d.kind.Given? then Rejected("Notification.type cannot be null")
    else if ParseNotificationType(d.kind.v).None? then Rejected("Notification.type is not an allowed value")
    else
      var k := ParseNotificationType(d.kind.v).value;
      ParseNotificationTypeInverse(d.kind.v);
      Built(Notification(id, d.userId.v, Nullable(d.ticketId), d.title.v, d.message.v, k,
                         if d.isRead.Some? then d.isRead.value else false, now))
  }
}
