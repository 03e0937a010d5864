/** The client's landing dashboard: admins, managers and super-admins are sent
    to their own dashboards; everyone else sees counts over the tickets the
    page fetches. */
module DashboardPage {
  import opened Common
  import opened Records
  import opened AdminController

  /** What the page does once the signed-in user is known. */
  datatype Action = Navigate(path: string) | FetchTickets

  /** Whether a role has a dashboard of its own. */
  predicate Redirected(user: Option<Principal>)
  {
    user.Some? && (user.value.role == Admin || user.value.role == Manager || user.value.role == SuperAdmin)
  }

  /** The redirect effect: each of the three roles goes to its own path,
      distinct for each; everyone else — an agent, an end user, or nobody
      signed in — fetches tickets. */
  function OnUser(user: Option<Principal>): (a: Action)
    ensures a.Navigate? <==> Redirected(user)
    ensures user.Some? && user.value.role == Admin ==> a == Navigate("/admin")
    ensures user.Some? && user.value.role == Manager ==> a == Navigate("/manager")
    ensures user.Some? && user.value.role == SuperAdmin ==> a == Navigate("/superadmin")
  {
    if user.Some? && user.value.role == Admin then Navigate("/admin")
    else if user.Some? && user.value.role == Manager then Navigate("/manager")
    else if user.Some? && user.value.role == SuperAdmin then Navigate("/superadmin")
    else FetchTickets
  }

  /** Different redirected roles go to different places. */
  lemma RedirectsDistinct(a: Principal, b: Principal)
    requires Redirected(Some(a)) && Redirected(Some(b))
    ensures OnUser(Some(a)) == OnUser(Some(b)) <==> a.role == b.role
  {
  }

  datatype Screen = Nothing | LoadingScreen | Board

  /** What the page renders: nothing exactly for the redirected roles (and
      then it fetched nothing), "Loading..." only for an end user whose fetch
      has not finished, and the board otherwise. */
  function Render(user: Option<Principal>, loading: bool): (s: Screen)
    ensures s.Nothing? <==> OnUser(user).Navigate?
    ensures s.LoadingScreen? <==> loading && user.Some? && user.value.role == EndUser
  {
    if Redirected(user) then Nothing
    else if loading && user.Some? && user.value.role == EndUser then LoadingScreen
    else Board
  }

  datatype Stats = Stats(total: nat, open: nat, inProgress: nat, resolved: nat)

  /** The counts computed from the fetched tickets: the total and the open,
      in-progress and resolved ones; closed tickets are counted only in the
      total, which is exactly what the three leave over. */
  function DashboardStats(fetched: seq<Ticket>): (s: Stats)
    ensures s.total == |fetched|
    ensures s.open + s.inProgress + s.resolved + CountStatus(fetched, Closed) == s.total
    ensures s.open + s.inProgress + s.resolved <= s.total
    ensures s.open + s.inProgress + s.resolved == s.total <==> forall i :: 0 <= i < |fetched| ==> fetched[i].status != Closed
  {
    StatusPartition(fetched);
    Stats(|fetched|, CountStatus(fetched, Open), CountStatus(fetched, InProgress), CountStatus(fetched, Resolved))
  }

  /** Over the same tickets, the page's counts agree with the admin report's. */
  lemma StatsAgreeWithAdminReport(fetched: seq<Ticket>, users: seq<User>, since: int)
    ensures var s := DashboardStats(fetched);
      var report := GetStats(fetched, users, since).tickets;
      && s.total == report.total && s.open == report.open
      && s.inProgress == report.inProgress && s.resolved == report.resolved
  {
  }
}
