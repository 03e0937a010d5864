/** The ticket detail page of the client: which of its controls a signed-in
    user is shown for a ticket, and the guard of its upload form. The page's
    own rule (`canEdit`) is set beside the server's upload permission. */
module TicketDetailPage {
  import opened Common
  import opened Records
  import opened TicketRoutes

  predicate IsStaff(role: Role)
  {
    role == Admin || role == Agent
  }

  /** `canEdit`: admins and agents may act on every ticket, anyone else only
      on a ticket they created. Whoever the page lets edit also passes the
      server's upload check, while a manager passes that check on tickets the
      page does not let them edit. */
  predicate CanEdit(user: Principal, ticket: Ticket): (ok: bool)
    ensures IsStaff(user.role) ==> ok
    ensures !IsStaff(user.role) ==> (ok <==> ticket.userId == user.id)
    ensures ok ==> MayAttach(user, ticket)
  {
    IsStaff(user.role) || ticket.userId == user.id
  }

  /** What the page requests when it mounts, before and whatever the ticket
      fetch brings back. */
  datatype Mount = Mount(fetchesTicket: bool, fetchesAgents: bool)

  /** The mount effect: the ticket is always fetched, the agent list exactly
      for an admin. */
  function OnMount(user: Principal): (m: Mount)
    ensures m.fetchesTicket
    ensures m.fetchesAgents <==> user.role == Admin
  {
    Mount(true, user.role == Admin)
  }

  /** Which controls the page renders once the ticket is loaded. */
  datatype Controls = Controls(
    managementPanel: bool,
    assignControl: bool,
    uploadForm: bool,
    commentForm: bool)

  /** Where the page is: still loading, loaded without a ticket, or loaded. */
  datatype PageState = Loading | Missing | Loaded(ticket: Ticket)

  datatype Screen = LoadingScreen | NotFoundScreen | Detail(controls: Controls)

  /** The controls for a loaded ticket: the management panel (status select)
      for admins and agents whatever the ticket, the assign control and the
      agent list for admins only and always together, and the upload and
      comment forms exactly for those who may edit the ticket — which
      includes everyone who sees the management panel. The assign control is
      shown exactly to the users for whom the agent list was fetched on mount. */
  function TicketControls(user: Principal, ticket: Ticket): (c: Controls)
    ensures c.managementPanel <==> IsStaff(user.role)
    ensures c.assignControl <==> user.role == Admin
    ensures c.assignControl <==> OnMount(user).fetchesAgents
    ensures c.assignControl ==> c.managementPanel
    ensures c.managementPanel ==> c.uploadForm && c.commentForm
    ensures c.uploadForm == c.commentForm
    ensures c.uploadForm <==> IsStaff(user.role) || ticket.userId == user.id
  {
    var canEdit := CanEdit(user, ticket);
    var panel := canEdit && IsStaff(user.role);
    Controls(
      managementPanel := panel,
      assignControl := panel && user.role == Admin,
      uploadForm := canEdit,
      commentForm := canEdit)
  }

  /** The page renders "Loading..." until the fetch ends, "Ticket not found"
      when it brought no ticket, and the detail otherwise. */
  function Render(user: Principal, state: PageState): (s: Screen)
    ensures s.LoadingScreen? <==> state.Loading?
    ensures s.NotFoundScreen? <==> state.Missing?
    ensures state.Loaded? ==> s == Detail(TicketControls(user, state.ticket))
  {
    match state
    case Loading => LoadingScreen
    case Missing => NotFoundScreen
    case Loaded(t) => Detail(TicketControls(user, t))
  }

  /** The values the status select offers. */
  const StatusOptions: seq<string> := ["open", "in_progress", "resolved", "closed"]

  /** The status select offers exactly the status names: every option names
      a status and every status has its option. */
  lemma StatusOptionsAreStatuses(st: Status)
    ensures forall i :: 0 <= i < |StatusOptions| ==> ParseStatus(StatusOptions[i]).Some?
    ensures StatusName(st) in StatusOptions
  {
  }

  /** `handleFileUpload`: with no file chosen nothing is sent; otherwise the
      chosen file goes to the upload route of the ticket. */
  function UploadSubmit(ticketId: int, file: Option<UploadedFile>): (r: Option<(int, UploadedFile)>)
    ensures r.Some? <==> file.Some?
    ensures r.Some? ==> r.value == (ticketId, file.value)
  {
    if file.None? then None else Some((ticketId, file.value))
  }

  /** An upload the page sends is never answered "No file uploaded", and for
      anyone the page lets edit an existing ticket it is accepted. */
  lemma PageUploadAccepted(attachments: seq<Attachment>, tickets: seq<Ticket>, users: seq<User>, nextId: int,
                           user: Principal, ticketId: int, file: Option<UploadedFile>)
    requires UploadSubmit(ticketId, file).Some?
    ensures UploadStep(attachments, tickets, users, nextId, user, ticketId, file).0 != BadRequest("No file uploaded")
    ensures FindByKey(tickets, TicketId, ticketId).Some?
            && CanEdit(user, tickets[FindByKey(tickets, TicketId, ticketId).value])
            ==> UploadStep(attachments, tickets, users, nextId, user, ticketId, file).0.Success?
  {
  }

  /** The page is stricter than the server: a manager may upload to any
      ticket through the route, but on a ticket they did not create the page
      shows them no upload form. */
  lemma ManagerHiddenFormServerAllows(manager: Principal, ticket: Ticket)
    requires manager.role == Manager && ticket.userId != manager.id
    ensures !TicketControls(manager, ticket).uploadForm
    ensures MayAttach(manager, ticket)
  {
  }

  /** Wherever the page shows the upload form, the server's permission check
      passes. */
  lemma UploadFormImpliesPermission(user: Principal, ticket: Ticket)
    ensures TicketControls(user, ticket).uploadForm ==> MayAttach(user, ticket)
  {
  }
}
