# Helpdesk application — a verified model of its core

This project models, in Dafny, the logic of a multi-role helpdesk web application (an Express/Sequelize
server with a React client). The model covers these parts:

- **Admin reporting and user administration** (`backend/controllers/adminController.js`):
  - the `/admin/stats` report: ticket counts by status and priority, recent and unassigned tickets,
    user counts, and the average resolution time;
  - the user listing, newest first, without passwords;
  - the list of active agents, sorted by name;
  - the guarded user update, which refuses a self role change or self-deactivation.
- **Notification routes** (`backend/routes/notifications.js`): the newest 20 of a user's notifications,
  their unread count, marking one or all as read, and deleting one. Each has its 404/403 guards.
- **Attachment upload** (`backend/routes/tickets.js`): a 400 without a file, a 404 for an unknown ticket, a
  403 for an end user on someone else's ticket, and otherwise one new attachment row.
- **Seeding** (`backend/utils/seedData.js`): default users and SLAs are inserted only into an empty table.
- **Schema rules** of the Ticket and Notification models: required columns, ENUM domains and defaults.
- **Client helpers and pages**:
  - badge classes, the "N/A" date placeholder and the file-size unit;
  - which ticket-detail controls a user sees;
  - the dashboard's role redirect and its counts.

The store is the class `Database.Db`, which holds one sequence per table and the next auto-increment ids. Its
`Valid()` invariant says that primary keys are unique in every table. For the users, attachments and SLAs,
whose ids the model allocates, it also says that every key lies below that table's next id. Tickets and
notifications have no next id in the model.

Each state-changing handler comes as a pair:

- a module-level method that takes the store `db: Db` and modifies only the tables the handler touches;
- a pure function on those tables that the method is proved equal to: a `…Step` function, or `ReadAll` for
  the bulk mark-all-read update.

The properties are stated on these functions and in lemmas about them. The caller, the clock and
uploaded-file metadata are parameters. Timestamps are integer milliseconds.

The model follows the code:

- The upload route restricts only the "user" role to its own tickets. Agents and managers may attach files
  to any ticket, not only to the tickets assigned to them.
- The report's `recent` bound is inclusive (`createdAt >= since`). The instant `since`, seven days before
  the request, is a parameter.

## Model

| member | source | states |
|---|---|---|
| Records.StatusName | backend/models/Ticket.js:18-22 | each of the four status ENUM names parses back to its own status |
| Records.ParseStatusInverse | backend/models/Ticket.js:19 | a string that parses as a status is exactly that status's name, so names and statuses correspond one to one |
| Records.PriorityName | backend/models/Ticket.js:23-27 | each of the four priority ENUM names parses back to its own priority |
| Records.ParsePriorityInverse | backend/models/Ticket.js:24 | a string that parses as a priority is exactly that priority's name |
| Records.NotificationTypeName | backend/models/Notification.js:34-37 | each of the five notification type names parses back to its type |
| Records.ParseNotificationTypeInverse | backend/models/Notification.js:35 | a string that parses as a type is exactly that type's name |
| Records.StatusPartition | backend/models/Ticket.js:18-22 | status is non-null and four-valued, so the four status counts add up to the number of tickets |
| Records.BuildTicket | backend/models/Ticket.js:10-63 | a ticket is built iff title, description and userId are given and status and priority name ENUM values; status defaults to open and priority to medium; each nullable column holds the given value when given and is null otherwise |
| Records.BuildNotification | backend/models/Notification.js:10-41 | a notification is built iff userId, title, message and a valid type are given; ticketId holds the given value when given and is null otherwise; isRead is the given value and otherwise false |
| AdminController.GetStats | backend/controllers/adminController.js:6-80 | the report's totals are the table sizes; open + in progress + resolved + closed = total; unassigned ≤ open + in progress; recent ≤ total; agents + admins ≤ users; the by-priority and by-status groups and the average are `ByPriority`, `ByStatus` and `AverageResolutionHours`, described by the lemmas below |
| AdminController.AddUserCounts | backend/controllers/adminController.js:12-14 | with no users all user counts are 0; adding one user raises the total by one, `agents` exactly when it is an agent and `admins` exactly when it is an admin, and moves no ticket count |
| AdminController.AverageResolutionHours | backend/controllers/adminController.js:43-50 | 0 when no resolved ticket has a resolution time; otherwise the average times their number is the sum of their resolution hours |
| AdminController.ByPriorityPartition | backend/controllers/adminController.js:17-23 | `ticketsByPriority` has a key exactly for each priority that occurs, holds that priority's count, and the four counts add up to the total |
| AdminController.ByStatusAgrees | backend/controllers/adminController.js:26-32 | `ticketsByStatus` has a key exactly for each status that occurs and agrees with the four status counts |
| AdminController.AverageIsMean | backend/controllers/adminController.js:43-50 | with no resolved ticket that has a resolution time, the average is 0; otherwise it times their number is their total, and it lies between the shortest and the longest resolution time |
| AdminController.AverageOfOneTicket | backend/controllers/adminController.js:46 | a single ticket resolved five hours after creation averages exactly 5.0 hours |
| AdminController.AddTicketCounts | backend/controllers/adminController.js:6-64 | adding one ticket raises the total by one, and raises its status count, `recent` and `unassigned` by one exactly when it qualifies; the user counts stay the same |
| AdminController.AddTicketByPriority | backend/controllers/adminController.js:81-84 | adding one ticket adds its priority to the keys; that priority's count (0 when it was missing) rises by one and every other priority's count stays the same |
| AdminController.GetAllUsers | backend/controllers/adminController.js:98-101 | the listing is a permutation of all users without passwords, and every earlier entry was created no earlier than every later one |
| AdminController.GetAgents | backend/controllers/adminController.js:151-155 | the listing is a permutation of the id/name/email of the active agents, sorted by name |
| AdminController.GetAgentsExactly | backend/controllers/adminController.js:152 | a user's summary is listed iff that user is an active agent |
| AdminController.UpdateUserStep | backend/controllers/adminController.js:112-134 | 404 for an unknown id; for oneself, 400 when changing one's role or deactivating oneself; a refusal changes nothing; on success only that user's row changes, by the given truthy name/email, the role and isActive, and it is returned without the password |
| AdminController.SelfUpdateKeepsPrivileges | backend/controllers/adminController.js:119-126 | a successful self-update keeps the role (or sets the caller's own role) and never deactivates the account |
| AdminController.UpdateUserIdempotent | backend/controllers/adminController.js:128-134 | repeating a successful update leaves the same table and the same reply |
| AdminController.ApplyPatch | backend/controllers/adminController.js:128-134 | the id, password and creation time never change; a truthy name or email is applied and otherwise the old one kept; a given role and a given isActive are applied and otherwise the old ones kept; an empty body changes nothing |
| AdminController.PatchUser | backend/controllers/adminController.js:128-134 | building `updates` field by field and applying it gives the row with the truthy name and email, the given role and the given isActive, and nothing else changed |
| AdminController.UpdateUser | backend/controllers/adminController.js:109-147 | the handler against the store performs exactly `UpdateUserStep` on the users table and keeps the store valid |
| NotificationRoutes.Inbox | backend/routes/notifications.js:9-13 | a permutation of the user's own notifications, newest first |
| NotificationRoutes.ListNotifications | backend/routes/notifications.js:9-13 | at most 20 entries, all the caller's own, none listed more often than it is stored, newest first; a notification of the caller's is left out only when the page is full and it is no newer than every listed one |
| NotificationRoutes.FirstPage | backend/routes/notifications.js:9-13 | the first page of an inbox holds only the user's own notifications, newest first; one of theirs left off means a full page and is no newer than every listed one |
| NotificationRoutes.UnreadCount | backend/routes/notifications.js:24-26 | at most the caller's number of notifications, and zero iff all of them are read |
| NotificationRoutes.MarkReadStep | backend/routes/notifications.js:37-48 | 404 "Notification not found" for an unknown id, before 403 "Access denied" for someone else's notification; a refusal changes nothing; success sets isRead on that row only and returns it |
| NotificationRoutes.MarkReadIdempotent | backend/routes/notifications.js:47 | marking read twice equals marking read once |
| NotificationRoutes.MarkReadUnreadCount | backend/routes/notifications.js:47 | marking one read lowers the caller's unread count by one iff it was unread, and leaves every other user's unread count alone |
| NotificationRoutes.MarkRead | backend/routes/notifications.js:35-52 | the handler against the store performs exactly `MarkReadStep` and keeps the store valid |
| NotificationRoutes.ReadAll | backend/routes/notifications.js:57-60 | every notification of the caller ends up read, and every other row is unchanged |
| NotificationRoutes.ReadAllEffect | backend/routes/notifications.js:57-60 | afterwards the caller's unread count is 0; other users' unread counts and everyone's inbox sizes are unchanged |
| NotificationRoutes.ReadAllIdempotent | backend/routes/notifications.js:57-60 | marking all read twice equals doing it once |
| NotificationRoutes.MarkAllRead | backend/routes/notifications.js:55-66 | the handler replaces the table by `ReadAll` for the caller and keeps the store valid |
| NotificationRoutes.DeleteStep | backend/routes/notifications.js:71-82 | the same 404-before-403 guards; a refusal changes nothing; success removes exactly that row (multiset), and the other rows keep their order |
| Common.RemoveAt | backend/routes/notifications.js:81 | removing the row at k leaves one row fewer, removes exactly that row from the multiset of rows, and keeps the others in order |
| NotificationRoutes.DeleteRemovesOnlyThatRow | backend/routes/notifications.js:81 | with unique ids, the deleted id is gone and ids stay unique; every other notification remains; deleting or marking it again gives 404 |
| NotificationRoutes.DeleteNotification | backend/routes/notifications.js:69-86 | the handler against the store performs exactly `DeleteStep` and keeps the store valid |
| TicketRoutes.MayAttach | backend/routes/tickets.js:41-43 | every role but "user" passes; a "user" passes exactly on a ticket it created |
| TicketRoutes.UploaderOf | backend/routes/tickets.js:55-57 | the uploader columns are present iff a user with the caller's id exists, and then they are that user's id, name and email |
| TicketRoutes.UploadStep | backend/routes/tickets.js:31-62 | 400 without a file before any lookup; 404 for an unknown ticket; 403 for an end user on another's ticket; a refusal changes nothing; otherwise one attachment with the next id, the file's metadata, the ticket id and the caller as uploader is appended, with reply 201 and the uploader columns of `UploaderOf` |
| TicketRoutes.UploadPermission | backend/routes/tickets.js:41-43 | with a file and an existing ticket, the upload succeeds iff the caller is not an end user or created the ticket |
| TicketRoutes.UploadEffect | backend/routes/tickets.js:45-53 | a successful upload keeps attachment ids unique and below the next id, and adds exactly one attachment to that ticket and none to any other |
| TicketRoutes.UploadAttachment | backend/routes/tickets.js:29-66 | the handler against the store performs exactly `UploadStep` on the attachments and the next id, and keeps the store valid |
| SeedData.SeedUsersStep | backend/utils/seedData.js:6-36 | a non-empty user table is left as it is; an empty one gets exactly three active users (admin, agent, user) with distinct emails and consecutive ids |
| SeedData.SeedSlasStep | backend/utils/seedData.js:46-81 | a non-empty SLA table is left as it is; an empty one gets four SLAs, for low, medium, high and urgent in that order, with distinct priorities; each has response < resolution, and a more urgent priority has strictly shorter times |
| SeedData.SeedUsersIdempotent | backend/utils/seedData.js:6-10 | seeding users twice equals seeding once, whatever the clock |
| SeedData.SeedSlasIdempotent | backend/utils/seedData.js:46-50 | seeding SLAs twice equals seeding once |
| SeedData.InitializeDefaultUsers | backend/utils/seedData.js:3-42 | the count check and the creation loop perform exactly `SeedUsersStep` and keep the store valid |
| SeedData.InitializeDefaultSlas | backend/utils/seedData.js:44-87 | the count check and the creation loop perform exactly `SeedSlasStep` and keep the store valid |
| Helpers.StatusBadgeClass | frontend/src/utils/helpers.js:7-15 | the class is empty iff the input is not a status name; otherwise the status can be read back from the class |
| Helpers.PriorityBadgeClass | frontend/src/utils/helpers.js:17-25 | the class is empty iff the input is not a priority name; otherwise the priority can be read back from the class |
| Helpers.BadgesDistinct | frontend/src/utils/helpers.js:8-23 | two status names share a class iff they are equal, and likewise for priority names |
| Helpers.FormatDate | frontend/src/utils/helpers.js:1-5 | a missing or empty date gives "N/A"; any other value is handed to the locale formatter |
| Helpers.UnitIndex | frontend/src/utils/helpers.js:31 | for a positive size, 1024^i ≤ bytes < 1024^(i+1) |
| Helpers.UnitIndexUnique | frontend/src/utils/helpers.js:31 | that index is the only one whose power range holds the size |
| Helpers.UnitAt | frontend/src/utils/helpers.js:30-32 | `sizes[i]` is undefined iff i is past the four unit names, and otherwise one of them |
| Helpers.PastLastUnit | frontend/src/utils/helpers.js:30-31 | the unit index of a positive size is past the last unit name iff the size is at least 1024^4 |
| Helpers.FormatFileSizeAsWritten | frontend/src/utils/helpers.js:27-33 | 0 gives "0 Bytes"; otherwise the amount times 1024^i is the size for the unit index i; the unit is `undefined` iff the size is at least 1024^4, and otherwise one of the four names |
| Helpers.OneTebibyteUnitIsUndefined | frontend/src/utils/helpers.js:30-32 | a 1024^4-byte size gets the unit `undefined` |
| Helpers.CappedIndex | frontend/src/utils/helpers.js:30-31 | the unit index capped at the last name is a valid position with 1024^j ≤ bytes, and equals the unit index iff the size is below 1024^4 |
| Helpers.FormatFileSize | frontend/src/utils/helpers.js:27-33 | the unit is always one of the four names; for a positive size it is the name at the capped index, the amount times 1024 to that index is the size, and the amount is at least 1; below 1024^4 the amount is also below 1024 and the label equals the as-written one; from 1024^4 on the unit is "GB" |
| TicketDetailPage.CanEdit | frontend/src/pages/TicketDetail.js:107 | admins and agents may edit every ticket, anyone else exactly the tickets they created; whoever may edit passes the server's upload check |
| TicketDetailPage.OnMount | frontend/src/pages/TicketDetail.js:20-25 | on mount the ticket is always fetched, and the agent list exactly for an admin, whatever the ticket fetch returns |
| TicketDetailPage.TicketControls | frontend/src/pages/TicketDetail.js:107-242 | the management panel is shown iff the role is admin or agent; the assign control (line 160) is shown iff the role is admin, that is, exactly when the agents were fetched on mount; the upload and comment forms are shown iff `canEdit`, which every panel viewer satisfies |
| TicketDetailPage.Render | frontend/src/pages/TicketDetail.js:99-105 | "Loading..." iff still loading, "Ticket not found" iff no ticket came back, and the detail with the controls otherwise |
| TicketDetailPage.StatusOptionsAreStatuses | frontend/src/pages/TicketDetail.js:151-154 | the status select offers exactly the four status names |
| TicketDetailPage.UploadSubmit | frontend/src/pages/TicketDetail.js:77-93 | a request is sent iff a file is chosen, and it carries that file for that ticket |
| TicketDetailPage.PageUploadAccepted | frontend/src/pages/TicketDetail.js:79 | an upload the page sends never gets "No file uploaded", and it succeeds for an existing ticket the user may edit |
| TicketDetailPage.ManagerHiddenFormServerAllows | frontend/src/pages/TicketDetail.js:107 | a manager is shown no upload form on another user's ticket, although the server would accept the upload |
| TicketDetailPage.UploadFormImpliesPermission | frontend/src/pages/TicketDetail.js:208 | wherever the upload form is shown, the server's permission check passes |
| DashboardPage.OnUser | frontend/src/pages/Dashboard.js:16-24 | admin goes to /admin, manager to /manager, superadmin to /superadmin; a navigation happens iff the role is one of these three, and everyone else fetches tickets |
| DashboardPage.RedirectsDistinct | frontend/src/pages/Dashboard.js:16-21 | two redirected users go to the same path iff they have the same role |
| DashboardPage.Render | frontend/src/pages/Dashboard.js:47-54 | nothing is rendered iff the page navigates away; "Loading..." iff loading and the role is "user" |
| DashboardPage.DashboardStats | frontend/src/pages/Dashboard.js:34-39 | total = number fetched; open + in progress + resolved + closed = total, so the three shown counts sum to at most the total, with equality iff no fetched ticket is closed |
| DashboardPage.StatsAgreeWithAdminReport | frontend/src/pages/Dashboard.js:35-38 | over the same tickets, the page's four counts equal the admin report's |

## Left out

- Internal errors are not modelled: the 500 replies of every `catch` block, and the logging in the seeders.
- Authentication is not modelled. The authenticated caller is the parameter `Principal`. Whatever role checks
  the admin router (`backend/routes/admin.js`) applies are not part of this model.
- The ticket controller routes registered at `backend/routes/tickets.js:20-26` (list, create, update, assign,
  status, comments) are not part of this model. The ticket controller is not part of this model either.
- The User, Attachment and SLA model files and the upload middleware are not part of this model. Their columns
  come from how the modelled code uses them. Without them:
  - a password-hashing hook is not modelled, so a seeded password is stored as given;
  - a unique-email constraint is not modelled;
  - `isActive` is assumed to default to true.
- SeedData.SeedUsersStep: gives all three seeded users the same `createdAt` (the parameter `now`). In the code each
  `User.create` runs at its own instant, one after another, which decides their order in the newest-first user
  listing; the model does not capture that order.
- `updatedAt` columns and other automatic timestamps beyond `createdAt` are not modelled.
- AdminController.AverageResolutionHours: uses exact real arithmetic. It does not model the rounding to two
  decimals (`Math.round(x * 100) / 100`) or floating point.
- The instant seven days before the request (`setDate(getDate() - 7)`) is the parameter `since`. Calendar
  arithmetic is not modelled.
- ORDER BY:
  - `name ASC` is modelled as lexicographic order by character code; database collations are not modelled;
  - the order among rows with equal sort keys is not specified.
- AdminController.UpdateUserStep: the body's `role` is `Option<Role>`. A role string outside the five roles is
  not modelled: on the caller's own account the code answers 400 'Cannot change your own role'; on another
  account what the update does depends on the User model file, which is not part of this model.
- AdminController.UpdateUserStep, NotificationRoutes.MarkReadStep, NotificationRoutes.DeleteStep and
  TicketRoutes.UploadStep take the route id (`req.params.id`) as an integer; string-to-number coercion of it
  is not modelled.
- AdminController.UpdateUserStep: the body's `isActive` is taken to be a boolean or absent. A JSON `null` or a
  non-boolean value, which passes the `isActive === false` self-deactivation guard and is then stored (possibly
  coerced by the column type), is not modelled; SelfUpdateKeepsPrivileges holds for boolean bodies only.
- The success messages ('User updated successfully', 'Notification marked as read', 'File uploaded
  successfully') are not modelled. Replies carry only the status code and the row.
- Records.BuildNotification: an explicit `null` for `isRead` is not modelled; only an omitted or given boolean is.
- Helpers.FormatDate: date parsing and locale formatting are a function parameter.
- Helpers.FormatFileSize: the following are not modelled:
  - the two-decimal rounding of the amount;
  - floating-point error of `Math.log` near exact powers of 1024;
  - negative or fractional sizes.
- Helpers.StatusBadgeClass: a JavaScript inherited property name (such as "constructor") used as a key is not
  modelled; neither is a non-string input.
- The client's fetch calls, form state, and the comment, status and assign handlers are not modelled. Those
  handlers call the ticket controller. Neither is the download URL, nor display text such as
  `status.replace('_', ' ')`.
- The dashboard's `limit=10` query parameter is handled by the ticket controller, which is not part of this
  model. DashboardPage.DashboardStats is therefore stated for any fetched list. Rendering with no signed-in user (`user.name` on null) is not modelled.
- TicketRoutes.UploadStep: the projection of the uploader columns in the reply is modelled. Storing the file on
  disk is not.
- TicketRoutes.UploadStep: accepts a caller that has no user row, storing the attachment and replying 201 with
  no uploader. In the code the attachment's `uploadedById` is a foreign key to the users table
  (`backend/models/index.js:25`), so `Attachment.create` fails for such a caller and the reply is a 500; the
  model does not promise that a successful upload has an uploader.
- TicketDetailPage.PageUploadAccepted: takes every file the page sends to reach the route as `req.file`. The
  upload middleware (`upload.single('file')`) runs first and is not part of this model, so a file it refuses
  (for its size or type) is not modelled.
- Concurrency between requests is not modelled. Each handler is one atomic step on the store.

## Findings

| source | as written | input that shows it | evidently intended | confidence | as-written member | corrected member |
|---|---|---|---|---|---|---|
| frontend/src/utils/helpers.js:30-32 | the unit index `floor(log1024(bytes))` indexes a four-entry unit list without a bound, so sizes of 1024^4 bytes or more get the unit `undefined`, shown as "1 undefined" | `formatFileSize(1099511627776)` (1024^4 bytes) | cap the unit at "GB" and scale the amount to match | medium (not executed; the upload middleware's size limit, which is not part of this model, may keep such sizes out of the table) | Helpers.OneTebibyteUnitIsUndefined | Helpers.FormatFileSize |
