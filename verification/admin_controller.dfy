/** The admin controller: the statistics report (`getStats`), the user list
    (`getAllUsers`), the active-agent list (`getAgents`) and the guarded partial
    update of a user (`updateUser`). */
module AdminController {
  import opened Common
  import opened Records
  import opened Database

  /** Milliseconds in an hour (1000 * 60 * 60). */
  const HourMs: int := 3600000

  datatype TicketCounts = TicketCounts(
    total: nat, open: nat, inProgress: nat, resolved: nat, closed: nat, recent: nat, unassigned: nat)

  datatype UserCounts = UserCounts(total: nat, agents: nat, admins: nat)

  datatype StatsReport = StatsReport(
    tickets: TicketCounts,
    users: UserCounts,
    ticketsByPriority: map<Priority, nat>,
    ticketsByStatus: map<Status, nat>,
    averageResolutionHours: real)

  /* ---------------------------------------------------------------- counts */

  /** Waiting for an agent: nobody assigned and still open or in progress. */
  predicate UnassignedActive(t: Ticket)
  {
    t.assignedToId.None? && (t.status == Open || t.status == InProgress)
  }

  function CountUnassigned(tickets: seq<Ticket>): nat
  {
    CountWhere(tickets, UnassignedActive)
  }

  /** Created at or after `since`: the bound is inclusive. */
  function CreatedSince(since: int): Ticket -> bool
  {
    (t: Ticket) => t.createdAt >= since
  }

  function CountRecent(tickets: seq<Ticket>, since: int): nat
  {
    CountWhere(tickets, CreatedSince(since))
  }

  function HasPriority(p: Priority): Ticket -> bool
  {
    (t: Ticket) => t.priority == p
  }

  function CountPriority(tickets: seq<Ticket>, p: Priority): nat
  {
    CountWhere(tickets, HasPriority(p))
  }

  function HasRole(r: Role): User -> bool
  {
    (u: User) => u.role == r
  }

  function CountRole(users: seq<User>, r: Role): nat
  {
    CountWhere(users, HasRole(r))
  }

  function Priorities(tickets: seq<Ticket>): seq<Priority>
  {
    if tickets == [] then [] else [tickets[0].priority] + Priorities(tickets[1..])
  }

  function Statuses(tickets: seq<Ticket>): seq<Status>
  {
    if tickets == [] then [] else [tickets[0].status] + Statuses(tickets[1..])
  }

  /** `ticketsByPriority`: one key per priority that occurs, mapped to its count. */
  function ByPriority(tickets: seq<Ticket>): map<Priority, nat>
  {
    Tally(Priorities(tickets))
  }

  /** `ticketsByStatus`: one key per status that occurs, mapped to its count. */
  function ByStatus(tickets: seq<Ticket>): map<Status, nat>
  {
    Tally(Statuses(tickets))
  }

  /* ------------------------------------------------ average resolution time */

  /** The tickets the average is taken over: resolved, with a resolution time. */
  predicate HasResolutionTime(t: Ticket)
  {
    t.status == Resolved && t.resolvedAt.Some?
  }

  function ResolutionHours(t: Ticket): real
    requires t.resolvedAt.Some?
  {
    (t.resolvedAt.value - t.createdAt) as real / HourMs as real
  }

  /** The `reduce` over the resolved tickets: the sum of their resolution hours. */
  function TotalResolutionHours(tickets: seq<Ticket>): real
  {
    if tickets == [] then 0.0
    else (if HasResolutionTime(tickets[0]) then ResolutionHours(tickets[0]) else 0.0)
         + TotalResolutionHours(tickets[1..])
  }

  /** `avgResolutionHours` before rounding: 0 when no ticket qualifies, and
      otherwise the mean of the qualifying tickets' resolution hours. */
  function AverageResolutionHours(tickets: seq<Ticket>): (avg: real)
    ensures CountWhere(tickets, HasResolutionTime) == 0 ==> avg == 0.0
    ensures CountWhere(tickets, HasResolutionTime) > 0 ==>
              IsMean(avg, CountWhere(tickets, HasResolutionTime) as real, TotalResolutionHours(tickets))
  {
    var n := CountWhere(tickets, HasResolutionTime);
    if n == 0 then 0.0
    else
      DivideIsMean(TotalResolutionHours(tickets), n as real);
      TotalResolutionHours(tickets) / n as real
  }

  lemma DivideIsMean(total: real, n: real)
    requires n > 0.0
    ensures IsMean(total / n, n, total)
  {
  }

  /* ---------------------------------------------------------------- report */

  /** The `/admin/stats` report; `since` is the instant seven days before the request. */
  function GetStats(tickets: seq<Ticket>, users: seq<User>, since: int): (r: StatsReport)
    ensures r.tickets.total == |tickets| && r.users.total == |users|
    ensures r.tickets.open + r.tickets.inProgress + r.tickets.resolved + r.tickets.closed == r.tickets.total
    ensures r.tickets.unassigned <= r.tickets.open + r.tickets.inProgress
    ensures r.tickets.recent <= r.tickets.total
    ensures r.users.agents + r.users.admins <= r.users.total
    ensures r.ticketsByPriority == ByPriority(tickets) && r.ticketsByStatus == ByStatus(tickets)
    ensures r.averageResolutionHours == AverageResolutionHours(tickets)
  {
    StatusPartition(tickets);
    CountWhereCovered(tickets, UnassignedActive, HasStatus(Open), HasStatus(InProgress));
    CountWhereDisjoint(users, HasRole(Agent), HasRole(Admin));
    StatsReport(
      TicketCounts(
        |tickets|,
        CountStatus(tickets, Open), CountStatus(tickets, InProgress),
        CountStatus(tickets, Resolved), CountStatus(tickets, Closed),
        CountRecent(tickets, since), CountUnassigned(tickets)),
      UserCounts(|users|, CountRole(users, Agent), CountRole(users, Admin)),
      ByPriority(tickets),
      ByStatus(tickets),
      AverageResolutionHours(tickets))
  }

  lemma {:induction false} PrioritiesOccurrences(tickets: seq<Ticket>, p: Priority)
    ensures |Priorities(tickets)| == |tickets|
    ensures multiset(Priorities(tickets))[p] == CountPriority(tickets, p)
  {
    if tickets != [] {
      PrioritiesOccurrences(tickets[1..], p);
    }
  }

  lemma {:induction false} StatusesOccurrences(tickets: seq<Ticket>, st: Status)
    ensures |Statuses(tickets)| == |tickets|
    ensures multiset(Statuses(tickets))[st] == CountStatus(tickets, st)
  {
    if tickets != [] {
      StatusesOccurrences(tickets[1..], st);
    }
  }

  lemma {:induction false} PriorityPartition(tickets: seq<Ticket>)
    ensures CountPriority(tickets, Low) + CountPriority(tickets, Medium)
          + CountPriority(tickets, High) + CountPriority(tickets, Urgent) == |tickets|
  {
    if tickets != [] {
      PriorityPartition(tickets[1..]);
    }
  }

  /** `ticketsByPriority` holds a key exactly for the priorities some ticket has,
      each mapped to that priority's count, and its counts add up to the total. */
  lemma ByPriorityPartition(tickets: seq<Ticket>)
    ensures forall p :: p in ByPriority(tickets) <==> exists i :: 0 <= i < |tickets| && tickets[i].priority == p
    ensures forall p :: TallyOf(ByPriority(tickets), p) == CountPriority(tickets, p)
    ensures TallyOf(ByPriority(tickets), Low) + TallyOf(ByPriority(tickets), Medium)
          + TallyOf(ByPriority(tickets), High) + TallyOf(ByPriority(tickets), Urgent) == |tickets|
  {
    forall p ensures TallyOf(ByPriority(tickets), p) == CountPriority(tickets, p) {
      PrioritiesOccurrences(tickets, p);
    }
    forall p ensures p in ByPriority(tickets) <==> exists i :: 0 <= i < |tickets| && tickets[i].priority == p {
      PrioritiesOccurrences(tickets, p);
      if p in ByPriority(tickets) {
        assert CountPriority(tickets, p) > 0;
      }
    }
    PriorityPartition(tickets);
  }

  /** `ticketsByStatus` agrees with the four status counts of the report and its
      keys are exactly the statuses that occur. */
  lemma ByStatusAgrees(tickets: seq<Ticket>)
    ensures forall st :: st in ByStatus(tickets) <==> exists i :: 0 <= i < |tickets| && tickets[i].status == st
    ensures forall st :: TallyOf(ByStatus(tickets), st) == CountStatus(tickets, st)
  {
    forall st ensures TallyOf(ByStatus(tickets), st) == CountStatus(tickets, st) {
      StatusesOccurrences(tickets, st);
    }
    forall st ensures st in ByStatus(tickets) <==> exists i :: 0 <= i < |tickets| && tickets[i].status == st {
      StatusesOccurrences(tickets, st);
      if st in ByStatus(tickets) {
        assert CountStatus(tickets, st) > 0;
      }
    }
  }

  /** `n` values each between `lo` and `hi` add up to between `n * lo` and `n * hi`. */
  predicate SumWithin(n: real, lo: real, hi: real, total: real)
  {
    n * lo <= total <= n * hi
  }

  lemma {:induction false} TotalResolutionHoursBounds(tickets: seq<Ticket>, lo: real, hi: real)
    requires forall i :: 0 <= i < |tickets| && HasResolutionTime(tickets[i]) ==>
               lo <= ResolutionHours(tickets[i]) <= hi
    ensures SumWithin(CountWhere(tickets, HasResolutionTime) as real, lo, hi, TotalResolutionHours(tickets))
  {
    if tickets != [] {
      var rest := tickets[1..];
      assert forall i :: 0 <= i < |rest| ==> rest[i] == tickets[i + 1];
      TotalResolutionHoursBounds(rest, lo, hi);
      var m := CountWhere(rest, HasResolutionTime) as real;
      var total := TotalResolutionHours(rest);
      if HasResolutionTime(tickets[0]) {
        var x := ResolutionHours(tickets[0]);
        assert TotalResolutionHours(tickets) == x + total;
        BoundsStep(m, CountWhere(tickets, HasResolutionTime) as real, lo, hi, total, x);
      } else {
        assert TotalResolutionHours(tickets) == total;
      }
    }
  }

  lemma BoundsStep(m: real, n: real, lo: real, hi: real, total: real, x: real)
    requires n == m + 1.0
    requires SumWithin(m, lo, hi, total) && lo <= x <= hi
    ensures SumWithin(n, lo, hi, x + total)
  {
  }

  /** `avg` is the mean of `n` values whose sum is `total`. */
  predicate IsMean(avg: real, n: real, total: real)
  {
    avg * n == total
  }

  lemma MeanBetweenBounds(total: real, n: real, lo: real, hi: real)
    requires n > 0.0 && SumWithin(n, lo, hi, total)
    ensures IsMean(total / n, n, total)
    ensures lo <= total / n <= hi
  {
  }

  /** The average is a mean: with no qualifying ticket it is 0, otherwise it
      times the number of qualifying tickets is their total, and it lies between
      the shortest and the longest resolution time. */
  lemma AverageIsMean(tickets: seq<Ticket>, lo: real, hi: real)
    requires forall i :: 0 <= i < |tickets| && HasResolutionTime(tickets[i]) ==>
               lo <= ResolutionHours(tickets[i]) <= hi
    ensures CountWhere(tickets, HasResolutionTime) == 0 ==> AverageResolutionHours(tickets) == 0.0
    ensures CountWhere(tickets, HasResolutionTime) > 0 ==>
      && IsMean(AverageResolutionHours(tickets), CountWhere(tickets, HasResolutionTime) as real,
                TotalResolutionHours(tickets))
      && lo <= AverageResolutionHours(tickets) <= hi
  {
    var n := CountWhere(tickets, HasResolutionTime);
    if n > 0 {
      TotalResolutionHoursBounds(tickets, lo, hi);
      var avg, total := AverageResolutionHours(tickets), TotalResolutionHours(tickets);
      assert avg == total / n as real;
      MeanBetweenBounds(total, n as real, lo, hi);
    }
  }

  /** A single ticket resolved five hours after it was opened yields 5.0. */
  lemma AverageOfOneTicket(t: Ticket)
    requires t.status == Resolved && t.resolvedAt == Some(t.createdAt + 5 * HourMs)
    ensures AverageResolutionHours([t]) == 5.0
  {
    assert [t][1..] == [];
    assert CountWhere([t], HasResolutionTime) == 1;
    assert ResolutionHours(t) == (5 * HourMs) as real / HourMs as real == 5.0;
    assert TotalResolutionHours([t]) == 5.0;
  }

  lemma {:induction false} PrioritiesAppend(tickets: seq<Ticket>, t: Ticket)
    ensures Priorities(tickets + [t]) == Priorities(tickets) + [t.priority]
  {
    if tickets != [] {
      assert (tickets + [t])[1..] == tickets[1..] + [t];
      PrioritiesAppend(tickets[1..], t);
    } else {
      assert tickets + [t] == [t];
    }
  }

  /** Adding one ticket to the table changes each ticket count by that ticket
      alone: the total grows by one, and so do its status count and the recent
      and unassigned counts when it qualifies; the user counts do not move. */
  lemma AddTicketCounts(tickets: seq<Ticket>, users: seq<User>, since: int, t: Ticket)
    ensures var before, after := GetStats(tickets, users, since), GetStats(tickets + [t], users, since);
      && after.tickets.total == before.tickets.total + 1
      && after.tickets.open == before.tickets.open + (if t.status == Open then 1 else 0)
      && after.tickets.inProgress == before.tickets.inProgress + (if t.status == InProgress then 1 else 0)
      && after.tickets.resolved == before.tickets.resolved + (if t.status == Resolved then 1 else 0)
      && after.tickets.closed == before.tickets.closed + (if t.status == Closed then 1 else 0)
      && after.tickets.recent == before.tickets.recent + (if t.createdAt >= since then 1 else 0)
      && after.tickets.unassigned == before.tickets.unassigned + (if UnassignedActive(t) then 1 else 0)
      && after.users == before.users
  {
    CountWhereAppend(tickets, [t], HasStatus(Open));
    CountWhereAppend(tickets, [t], HasStatus(InProgress));
    CountWhereAppend(tickets, [t], HasStatus(Resolved));
    CountWhereAppend(tickets, [t], HasStatus(Closed));
    CountWhereAppend(tickets, [t], CreatedSince(since));
    CountWhereAppend(tickets, [t], UnassignedActive);
  }

  /** Adding one user raises the user total by one, `agents` exactly when the
      new user is an agent and `admins` exactly when it is an admin; no ticket
      count moves. With no users, all three user counts are 0. */
  lemma AddUserCounts(tickets: seq<Ticket>, users: seq<User>, since: int, u: User)
    ensures GetStats(tickets, [], since).users == UserCounts(0, 0, 0)
    ensures var before, after := GetStats(tickets, users, since), GetStats(tickets, users + [u], since);
      && after.users.total == before.users.total + 1
      && after.users.agents == before.users.agents + (if u.role == Agent then 1 else 0)
      && after.users.admins == before.users.admins + (if u.role == Admin then 1 else 0)
      && after.tickets == before.tickets
  {
    CountWhereAppend(users, [u], HasRole(Agent));
    CountWhereAppend(users, [u], HasRole(Admin));
  }

  /** Adding one ticket adds one to its priority's group in `ticketsByPriority`
      (creating the key when it was missing) and leaves the other groups alone. */
  lemma AddTicketByPriority(tickets: seq<Ticket>, t: Ticket)
    ensures ByPriority(tickets + [t]).Keys == ByPriority(tickets).Keys + {t.priority}
    ensures forall p :: TallyOf(ByPriority(tickets + [t]), p)
                        == TallyOf(ByPriority(tickets), p) + (if p == t.priority then 1 else 0)
  {
    PrioritiesAppend(tickets, t);
    assert multiset(Priorities(tickets + [t])) == multiset(Priorities(tickets)) + multiset{t.priority};
  }

  /* ------------------------------------------------------- getAllUsers */

  /** A user row as the admin endpoints return it: every column but the password. */
  datatype UserView = UserView(id: int, name: string, email: string, role: Role, isActive: bool, createdAt: int)

  function View(u: User): UserView
  {
    UserView(u.id, u.name, u.email, u.role, u.isActive, u.createdAt)
  }

  function Views(users: seq<User>): seq<UserView>
  {
    seq(|users|, i requires 0 <= i < |users| => View(users[i]))
  }

  predicate NewerFirst(a: UserView, b: UserView)
  {
    a.createdAt >= b.createdAt
  }

  /** `getAllUsers`: every user, without the password, newest account first. */
  function GetAllUsers(users: seq<User>): (r: seq<UserView>)
    ensures multiset(r) == multiset(Views(users))
    ensures |r| == |users|
    ensures forall i, j :: 0 <= i < j < |r| ==> r[i].createdAt >= r[j].createdAt
  {
    var r := SortBy(Views(users), NewerFirst);
    assert Total(NewerFirst) && Transitive(NewerFirst);
    SortBySorted(Views(users), NewerFirst);
    SortedAllPairs(r, NewerFirst);
    r
  }

  /* --------------------------------------------------------- getAgents */

  /** The columns `getAgents` selects. */
  datatype AgentSummary = AgentSummary(id: int, name: string, email: string)

  function Summary(u: User): AgentSummary
  {
    AgentSummary(u.id, u.name, u.email)
  }

  function Summaries(users: seq<User>): (r: seq<AgentSummary>)
    ensures |r| == |users|
    ensures forall i :: 0 <= i < |users| ==> r[i] == Summary(users[i])
  {
    seq(|users|, i requires 0 <= i < |users| => Summary(users[i]))
  }

  predicate ActiveAgent(u: User)
  {
    u.role == Agent && u.isActive
  }

  predicate ByName(a: AgentSummary, b: AgentSummary)
  {
    LexLe(a.name, b.name)
  }

  /** `getAgents`: the active agents, as id, name and email, by name ascending. */
  function GetAgents(users: seq<User>): (r: seq<AgentSummary>)
    ensures |r| == CountWhere(users, ActiveAgent)
    ensures multiset(r) == multiset(Summaries(Filter(users, ActiveAgent)))
    ensures SortedBy(r, ByName)
  {
    var r := SortBy(Summaries(Filter(users, ActiveAgent)), ByName);
    assert Total(ByName) by {
      forall a, b ensures ByName(a, b) || ByName(b, a) {
        LexLeTotal(a.name, b.name);
      }
    }
    SortBySorted(Summaries(Filter(users, ActiveAgent)), ByName);
    r
  }

  /** An entry is listed exactly when it summarises an active agent. */
  lemma GetAgentsExactly(users: seq<User>)
    ensures forall u :: u in users && ActiveAgent(u) ==> Summary(u) in GetAgents(users)
    ensures forall a :: a in GetAgents(users) ==> exists u :: u in users && ActiveAgent(u) && Summary(u) == a
  {
    var agents := Filter(users, ActiveAgent);
    var r := GetAgents(users);
    forall u | u in users && ActiveAgent(u) ensures Summary(u) in r {
      assert multiset(agents)[u] > 0;
      var i :| 0 <= i < |agents| && agents[i] == u;
      assert Summaries(agents)[i] == Summary(u);
      assert multiset(r)[Summary(u)] > 0;
    }
    forall a | a in r ensures exists u :: u in users && ActiveAgent(u) && Summary(u) == a {
      assert multiset(Summaries(agents))[a] > 0;
      var i :| 0 <= i < |agents| && Summaries(agents)[i] == a;
      assert agents[i] in agents;
    }
  }

  /* -------------------------------------------------------- updateUser */

  /** The fields of the request body. A string or role that is absent or empty
      (falsy) is None; `isActive` is None when it is absent (undefined). */
  datatype UserPatch = UserPatch(name: Option<string>, email: Option<string>, role: Option<Role>, isActive: Option<bool>)

  predicate Truthy(s: Option<string>)
  {
    s.Some? && s.value != ""
  }

  /** The `updates` object applied to a user: name and email when given
      truthy, role when given, isActive whenever defined; the id, the password
      and the creation time never change, and an empty body changes nothing. */
  function ApplyPatch(u: User, body: UserPatch): (r: User)
    ensures r.id == u.id && r.password == u.password && r.createdAt == u.createdAt
    ensures body == UserPatch(None, None, None, None) ==> r == u
    ensures Truthy(body.name) ==> r.name == body.name.value
    ensures !Truthy(body.name) ==> r.name == u.name
    ensures Truthy(body.email) ==> r.email == body.email.value
    ensures !Truthy(body.email) ==> r.email == u.email
    ensures body.role.Some? ==> r.role == body.role.value
    ensures body.role.None? ==> r.role == u.role
    ensures body.isActive.Some? ==> r.isActive == body.isActive.value
    ensures body.isActive.None? ==> r.isActive == u.isActive
  {
    u.(name := if Truthy(body.name) then body.name.value else u.name,
       email := if Truthy(body.email) then body.email.value else u.email,
       role := if body.role.Some? then body.role.value else u.role,
       isActive := if body.isActive.Some? then body.isActive.value else u.isActive)
  }

  /** The self-protection guard: a caller editing their own account may not
      change their role or deactivate themselves. */
  predicate SelfEditRefused(caller: Principal, id: int, body: UserPatch)
  {
    caller.id == id && ((body.role.Some? && body.role.value != caller.role) || body.isActive == Some(false))
  }

  /** `updateUser` as a step over the user table: the reply and the table after. */
  function UpdateUserStep(users: seq<User>, caller: Principal, id: int, body: UserPatch)
    : (r: (Response<UserView>, seq<User>))
    ensures r.0.Failure? ==> r.1 == users
    ensures FindByKey(users, UserId, id).None? ==> r.0 == NotFound("User not found")
    ensures FindByKey(users, UserId, id).Some? && caller.id == id && body.role.Some? && body.role.value != caller.role
            ==> r.0 == BadRequest("Cannot change your own role")
    ensures FindByKey(users, UserId, id).Some? && caller.id == id && !(body.role.Some? && body.role.value != caller.role)
            && body.isActive == Some(false)
            ==> r.0 == BadRequest("Cannot deactivate your own account")
    ensures r.0.Success? <==> FindByKey(users, UserId, id).Some? && !SelfEditRefused(caller, id, body)
    ensures r.0.Success? ==>
      var k := FindByKey(users, UserId, id).value;
      && r.0.code == 200
      && |r.1| == |users|
      && r.1[k] == ApplyPatch(users[k], body)
      && (forall j :: 0 <= j < |users| && j != k ==> r.1[j] == users[j])
      && r.0.body == View(r.1[k])
  {
    match FindByKey(users, UserId, id)
    case None => (NotFound("User not found"), users)
    case Some(k) =>
      if caller.id == id && body.role.Some? && body.role.value != caller.role then
        (BadRequest("Cannot change your own role"), users)
      else if caller.id == id && body.isActive == Some(false) then
        (BadRequest("Cannot deactivate your own account"), users)
      else
        var u := ApplyPatch(users[k], body);
        (Success(200, View(u)), users[k := u])
  }

  /** A successful update of one's own account leaves the role either as it was
      or equal to the caller's own role, and never deactivates the account. */
  lemma SelfUpdateKeepsPrivileges(users: seq<User>, caller: Principal, body: UserPatch)
    requires UpdateUserStep(users, caller, caller.id, body).0.Success?
    ensures var k := FindByKey(users, UserId, caller.id).value;
      var after := UpdateUserStep(users, caller, caller.id, body).1[k];
      && (after.role == users[k].role || after.role == caller.role)
      && (after.isActive == users[k].isActive || after.isActive)
  {
  }

  /** Repeating a successful update changes nothing further. */
  lemma UpdateUserIdempotent(users: seq<User>, caller: Principal, id: int, body: UserPatch)
    requires UpdateUserStep(users, caller, id, body).0.Success?
    ensures var once := UpdateUserStep(users, caller, id, body);
      UpdateUserStep(once.1, caller, id, body) == once
  {
    var k := FindByKey(users, UserId, id).value;
    var once := UpdateUserStep(users, caller, id, body);
    assert once.1[k].id == id;
    assert FindByKey(once.1, UserId, id) == Some(k);
    assert ApplyPatch(once.1[k], body) == once.1[k];
    assert once.1[k := once.1[k]] == once.1;
    assert once.0 == Success(200, View(once.1[k]));
  }

  /** The `updates` object built field by field and applied to the row. */
  method PatchUser(user: User, body: UserPatch) returns (updated: User)
    ensures updated == ApplyPatch(user, body)
  {
    updated := user;
    if Truthy(body.name) { updated := updated.(name := body.name.value); }
    if Truthy(body.email) { updated := updated.(email := body.email.value); }
    if body.role.Some? { updated := updated.(role := body.role.value); }
    if body.isActive.Some? { updated := updated.(isActive := body.isActive.value); }
  }

  /** `updateUser`: look the user up (404), refuse a self role change or
      self-deactivation (400), then apply the supplied fields to that user only. */
  method UpdateUser(db: Db, caller: Principal, id: int, body: UserPatch) returns (reply: Response<UserView>)
    requires db.Valid()
    modifies db`users
    ensures db.Valid()
    ensures (reply, db.users) == UpdateUserStep(old(db.users), caller, id, body)
  {
    var found := FindByKey(db.users, UserId, id);
    if found.None? {
      return NotFound("User not found");
    }
    if caller.id == id {
      if body.role.Some? && body.role.value != caller.role {
        return BadRequest("Cannot change your own role");
      }
      if body.isActive == Some(false) {
        return BadRequest("Cannot deactivate your own account");
      }
    }
    var k := found.value;
    var user := PatchUser(db.users[k], body);
    NumberedUpdate(db.users, UserId, db.nextUserId, k, user);
    db.users := db.users[k := user];
    reply := Success(200, View(user));
  }
}
