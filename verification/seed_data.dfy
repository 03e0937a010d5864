/** Start-up seeding: when the user table is empty it receives three default
    accounts (an admin, an agent and an end user), and when the SLA table is
    empty it receives one SLA per priority. A non-empty table is left alone,
    so seeding twice is the same as seeding once. */
module SeedData {
  import opened Common
  import opened Records
  import opened Database

  /** The columns a default user is created with. */
  datatype UserSeed = UserSeed(name: string, email: string, password: string, role: Role)

  /** The columns a default SLA is created with (times in hours). */
  datatype SlaSeed = SlaSeed(name: string, priority: Priority, responseTime: nat, resolutionTime: nat)

  const DefaultUsers: seq<UserSeed> := [
    UserSeed("Admin User", "admin@helpdesk.com", "admin123", Admin),
    UserSeed("Agent User", "agent@helpdesk.com", "agent123", Agent),
    UserSeed("Test User", "user@helpdesk.com", "user123", EndUser)
  ]

  const DefaultSlas: seq<SlaSeed> := [
    SlaSeed("Low Priority SLA", Low, 24, 72),
    SlaSeed("Medium Priority SLA", Medium, 8, 24),
    SlaSeed("High Priority SLA", High, 2, 8),
    SlaSeed("Urgent Priority SLA", Urgent, 1, 4)
  ]

  /** The row `User.create` makes from a seed: the next id, active, created now. */
  function CreatedUser(seed: UserSeed, id: int, now: int): User
  {
    User(id, seed.name, seed.email, seed.password, seed.role, true, now)
  }

  function CreatedSla(seed: SlaSeed, id: int): Sla
  {
    Sla(id, seed.name, seed.priority, seed.responseTime, seed.resolutionTime)
  }

  /** The rows created, in order, from `seeds` with ids counting up from `firstId`. */
  function SeededUsers(seeds: seq<UserSeed>, firstId: int, now: int): (r: seq<User>)
    ensures |r| == |seeds|
    ensures forall i :: 0 <= i < |r| ==> r[i].id == firstId + i
  {
    seq(|seeds|, i requires 0 <= i < |seeds| => CreatedUser(seeds[i], firstId + i, now))
  }

  function SeededSlas(seeds: seq<SlaSeed>, firstId: int): (r: seq<Sla>)
    ensures |r| == |seeds|
    ensures forall i :: 0 <= i < |r| ==> r[i].id == firstId + i
  {
    seq(|seeds|, i requires 0 <= i < |seeds| => CreatedSla(seeds[i], firstId + i))
  }

  /** `initializeDefaultUsers` on the table: a non-empty table and its next id
      stay as they are; an empty one receives exactly three active users — an
      admin, an agent and an end user — with pairwise distinct emails and
      consecutive ids from the next id. */
  function SeedUsersStep(users: seq<User>, nextId: int, now: int): (r: (seq<User>, int))
    ensures users != [] ==> r == (users, nextId)
    ensures users == [] ==>
      && |r.0| == 3 && r.1 == nextId + 3
      && r.0[0].role == Admin && r.0[1].role == Agent && r.0[2].role == EndUser
      && (forall i, j :: 0 <= i < j < |r.0| ==> r.0[i].email != r.0[j].email)
      && (forall i :: 0 <= i < |r.0| ==> r.0[i].isActive && r.0[i].createdAt == now && r.0[i].id == nextId + i)
  {
    if users != [] then (users, nextId)
    else (SeededUsers(DefaultUsers, nextId, now), nextId + |DefaultUsers|)
  }

  /** `initializeDefaultSLAs` on the table: a non-empty table stays as it is;
      an empty one receives exactly one SLA per priority, from low to urgent, each answering sooner
      than it resolves, and a more urgent priority gets strictly shorter
      response and resolution times. */
  function SeedSlasStep(slas: seq<Sla>, nextId: int): (r: (seq<Sla>, int))
    ensures slas != [] ==> r == (slas, nextId)
    ensures slas == [] ==>
      && |r.0| == 4 && r.1 == nextId + 4
      && r.0[0].priority == Low && r.0[1].priority == Medium && r.0[2].priority == High && r.0[3].priority == Urgent
      && (forall i, j :: 0 <= i < j < |r.0| ==> r.0[i].priority != r.0[j].priority)
      && (forall i :: 0 <= i < |r.0| ==> r.0[i].responseTime < r.0[i].resolutionTime && r.0[i].id == nextId + i)
      && (forall i, j :: 0 <= i < |r.0| && 0 <= j < |r.0| && PriorityRank(r.0[i].priority) < PriorityRank(r.0[j].priority)
            ==> r.0[i].responseTime > r.0[j].responseTime && r.0[i].resolutionTime > r.0[j].resolutionTime)
  {
    if slas != [] then (slas, nextId)
    else
      var r := SeededSlas(DefaultSlas, nextId);
      assert r == [r[0], r[1], r[2], r[3]];
      (r, nextId + |DefaultSlas|)
  }

  /** Seeding users twice leaves what seeding once left, whatever the clock says. */
  lemma SeedUsersIdempotent(users: seq<User>, nextId: int, now: int, later: int)
    ensures var once := SeedUsersStep(users, nextId, now);
      SeedUsersStep(once.0, once.1, later) == once
  {
  }

  lemma SeedSlasIdempotent(slas: seq<Sla>, nextId: int)
    ensures var once := SeedSlasStep(slas, nextId);
      SeedSlasStep(once.0, once.1) == once
  {
  }

  /** `initializeDefaultUsers` against the store: count the users, and on an
      empty table create the default users one after another. */
  method InitializeDefaultUsers(db: Db, now: int)
    requires db.Valid()
    modifies db`users, db`nextUserId
    ensures db.Valid()
    ensures (db.users, db.nextUserId) == SeedUsersStep(old(db.users), old(db.nextUserId), now)
  {
    if |db.users| > 0 {
      return;
    }
    var firstId := db.nextUserId;
    for i := 0 to |DefaultUsers|
      invariant db.users == SeededUsers(DefaultUsers[..i], firstId, now)
      invariant db.nextUserId == firstId + i
      invariant db.Valid()
    {
      var user := CreatedUser(DefaultUsers[i], db.nextUserId, now);
      assert SeededUsers(DefaultUsers[..i + 1], firstId, now) == db.users + [user];
      NumberedAppend(db.users, UserId, db.nextUserId, user);
      db.users := db.users + [user];
      db.nextUserId := db.nextUserId + 1;
    }
    assert DefaultUsers[..|DefaultUsers|] == DefaultUsers;
  }

  /** `initializeDefaultSLAs` against the store. */
  method InitializeDefaultSlas(db: Db)
    requires db.Valid()
    modifies db`slas, db`nextSlaId
    ensures db.Valid()
    ensures (db.slas, db.nextSlaId) == SeedSlasStep(old(db.slas), old(db.nextSlaId))
  {
    if |db.slas| > 0 {
      return;
    }
    var firstId := db.nextSlaId;
    for i := 0 to |DefaultSlas|
      invariant db.slas == SeededSlas(DefaultSlas[..i], firstId)
      invariant db.nextSlaId == firstId + i
      invariant db.Valid()
    {
      var sla := CreatedSla(DefaultSlas[i], db.nextSlaId);
      assert SeededSlas(DefaultSlas[..i + 1], firstId) == db.slas + [sla];
      NumberedAppend(db.slas, SlaId, db.nextSlaId, sla);
      db.slas := db.slas + [sla];
      db.nextSlaId := db.nextSlaId + 1;
    }
    assert DefaultSlas[..|DefaultSlas|] == DefaultSlas;
  }
}
