/** Notifications about transfers, created at least once per event and kept unique by the table's key. */
module Notifications {
  import opened Wrappers

  type Id = nat
  datatype EventType = Rumour | Transferred | Announcement

  /** A row; the unique key is all of it, and two rows without a transfer never conflict. */
  datatype Row = Row(user: Id, event: EventType, transfer: Option<Id>)

  datatype Favourite = Favourite(user: Id, target: Target)
  datatype Target = PlayerTarget(id: Id) | TeamTarget(id: Id) | LeagueTarget(id: Id) | ReporterTarget(id: Id)

  datatype Transfer = Transfer(
    player: Id, fromTeam: Id, toTeam: Id, fromLeague: Id, toLeague: Id, isRumour: bool, creator: Option<Id>)

  // ---------------------------------------------------------------- the unique key

  predicate Conflicts(rows: seq<Row>, r: Row) { r.transfer.Some? && r in rows }

  function Insert(rows: seq<Row>, r: Row): seq<Row> { if Conflicts(rows, r) then rows else rows + [r] }

  /** At most one row per (user, transfer, event type). */
  ghost predicate Unique(rows: seq<Row>) {
    forall i, j | 0 <= i < j < |rows| && rows[i].transfer.Some? :: rows[i] != rows[j]
  }

  /** Insertions that any number of runs attempt, in whatever order they interleave; a crashed run attempts fewer. */
  function InsertAll(rows: seq<Row>, attempts: seq<Row>): seq<Row> {
    if attempts == [] then rows else Insert(InsertAll(rows, attempts[..|attempts| - 1]), attempts[|attempts| - 1])
  }

  /** How many of the attempts report a created row. */
  function Created(rows: seq<Row>, attempts: seq<Row>): nat {
    if attempts == [] then 0
    else
      var n := |attempts| - 1;
      Created(rows, attempts[..n]) + if Conflicts(InsertAll(rows, attempts[..n]), attempts[n]) then 0 else 1
  }

  /** Whatever the interleaving, the rows gain exactly what was attempted, each once, and every gain is counted once. */
  lemma {:induction false} AttemptsAgree(rows: seq<Row>, attempts: seq<Row>)
    requires Unique(rows)
    ensures Unique(InsertAll(rows, attempts))
    ensures forall r :: r in InsertAll(rows, attempts) <==> r in rows || r in attempts
    ensures |InsertAll(rows, attempts)| == |rows| + Created(rows, attempts)
    ensures rows <= InsertAll(rows, attempts)
  {
    if attempts != [] {
      var n := |attempts| - 1;
      AttemptsAgree(rows, attempts[..n]);
      assert attempts == attempts[..n] + [attempts[n]];
    }
  }

  /** Repeating attempts that were all made before changes nothing and counts nothing. */
  lemma {:induction false} RepeatsAreIdle(rows: seq<Row>, attempts: seq<Row>)
    requires forall r | r in attempts :: r.transfer.Some? && r in rows
    ensures InsertAll(rows, attempts) == rows && Created(rows, attempts) == 0
  {
    if attempts != [] {
      var n := |attempts| - 1;
      assert attempts == attempts[..n] + [attempts[n]];
      RepeatsAreIdle(rows, attempts[..n]);
    }
  }

  // ---------------------------------------------------------------- who is told

  /** The favourites that match a transfer: its player, its teams, their leagues, and its reporter if there is one. */
  predicate Matches(t: Transfer, target: Target) {
    match target
    case PlayerTarget(id) => id == t.player
    case TeamTarget(id) => id == t.fromTeam || id == t.toTeam
    case LeagueTarget(id) => id == t.fromLeague || id == t.toLeague
    case ReporterTarget(id) => t.creator == Some(id)
  }

  predicate OptedOut(prefs: map<(Id, EventType), bool>, user: Id, event: EventType) {
    (user, event) in prefs && !prefs[(user, event)]
  }

  function EventOf(t: Transfer): EventType { if t.isRumour then Rumour else Transferred }

  /** The row that tells a user of a transfer. */
  predicate Tells(r: Row, id: Id, t: Transfer) {
    r.transfer == Some(id) && (r.event == Rumour || r.event == Transferred) && (r.event == Rumour <==> t.isRumour)
  }

  /** Somebody to be told: a matching favourite, not the creator, not opted out of this kind of event. */
  ghost predicate ToBeTold(favourites: seq<Favourite>, prefs: map<(Id, EventType), bool>, t: Transfer, user: Id) {
    && (exists f :: f in favourites && f.user == user && Matches(t, f.target))
    && t.creator != Some(user)
    && !OptedOut(prefs, user, EventOf(t))
  }

  /** Who is told, written out over the favourites and the preferences. */
  lemma ToBeToldIs(favourites: seq<Favourite>, prefs: map<(Id, EventType), bool>, t: Transfer, user: Id)
    ensures ToBeTold(favourites, prefs, t, user) <==>
            && (|| Favourite(user, PlayerTarget(t.player)) in favourites
                || Favourite(user, TeamTarget(t.fromTeam)) in favourites
                || Favourite(user, TeamTarget(t.toTeam)) in favourites
                || Favourite(user, LeagueTarget(t.fromLeague)) in favourites
                || Favourite(user, LeagueTarget(t.toLeague)) in favourites
                || (t.creator.Some? && Favourite(user, ReporterTarget(t.creator.value)) in favourites))
            && t.creator != Some(user)
            && (var key := (user, if t.isRumour then Rumour else Transferred); key in prefs ==> prefs[key])
  {
  }

  /** The attempts of one run over the rows of the favourites table. */
  function Attempts(favourites: seq<Favourite>, prefs: map<(Id, EventType), bool>, id: Id, t: Transfer): seq<Row> {
    if favourites == [] then []
    else
      var n := |favourites| - 1;
      var f := favourites[n];
      var before := Attempts(favourites[..n], prefs, id, t);
      var row := Row(f.user, EventOf(t), Some(id));
      if !Matches(t, f.target) || t.creator == Some(f.user) || OptedOut(prefs, f.user, EventOf(t)) || row in before
      then before
      else before + [row]
  }

  lemma {:induction false} AttemptsAreForThoseToBeTold(favourites: seq<Favourite>, prefs: map<(Id, EventType), bool>,
                                                       id: Id, t: Transfer)
    ensures forall r :: r in Attempts(favourites, prefs, id, t) <==>
                        r.event == EventOf(t) && r.transfer == Some(id) && ToBeTold(favourites, prefs, t, r.user)
    ensures forall i, j | 0 <= i < j < |Attempts(favourites, prefs, id, t)| ::
              Attempts(favourites, prefs, id, t)[i] != Attempts(favourites, prefs, id, t)[j]
  {
    if favourites != [] {
      var n := |favourites| - 1;
      AttemptsAreForThoseToBeTold(favourites[..n], prefs, id, t);
      assert favourites == favourites[..n] + [favourites[n]];
      forall r ensures r in Attempts(favourites, prefs, id, t) <==>
                       r.event == EventOf(t) && r.transfer == Some(id) && ToBeTold(favourites, prefs, t, r.user)
      {
        ToldByOneMore(favourites, prefs, t, r.user);
      }
    }
  }

  lemma ToldByOneMore(favourites: seq<Favourite>, prefs: map<(Id, EventType), bool>, t: Transfer, user: Id)
    requires favourites != []
    ensures var n := |favourites| - 1;
            ToBeTold(favourites, prefs, t, user) <==>
            ToBeTold(favourites[..n], prefs, t, user) ||
            (&& favourites[n].user == user && Matches(t, favourites[n].target)
             && t.creator != Some(user) && !OptedOut(prefs, user, EventOf(t)))
  {
    var n := |favourites| - 1;
    assert favourites == favourites[..n] + [favourites[n]];
    if exists f :: f in favourites[..n] && f.user == user && Matches(t, f.target) {
      var f :| f in favourites[..n] && f.user == user && Matches(t, f.target);
      assert f in favourites;
    }
    assert favourites[n] in favourites;
  }

  // ---------------------------------------------------------------- the service

  class NotificationsService {
    var rows: seq<Row>
    var favourites: seq<Favourite>
    var prefs: map<(Id, EventType), bool>
    var transfers: map<Id, Transfer>

    /** The insert with its unique-violation branch. */
    method CreateNotification(user: Id, event: EventType, transfer: Id) returns (created: bool)
      modifies `rows
      ensures rows == Insert(old(rows), Row(user, event, Some(transfer)))
      ensures created <==> !Conflicts(old(rows), Row(user, event, Some(transfer)))
    {
      var row := Row(user, event, Some(transfer));
      created := row !in rows;
      if created {
        rows := rows + [row];
      }
    }

    /** Distinct users with a matching favourite, in table order. */
    method FindFavouriteUserIds(t: Transfer) returns (users: seq<Id>)
      ensures forall u :: u in users <==> exists f :: f in favourites && f.user == u && Matches(t, f.target)
      ensures forall i, j | 0 <= i < j < |users| :: users[i] != users[j]
    {
      users := [];
      for i := 0 to |favourites|
        invariant forall u :: u in users <==> exists f :: f in favourites[..i] && f.user == u && Matches(t, f.target)
        invariant forall i, j | 0 <= i < j < |users| :: users[i] != users[j]
      {
        var f := favourites[i];
        assert favourites[..i + 1] == favourites[..i] + [f];
        ghost var was := users;
        if Matches(t, f.target) && f.user !in users {
          users := users + [f.user];
        }
        forall u ensures u in users <==> exists g :: g in favourites[..i + 1] && g.user == u && Matches(t, g.target) {
          OneMoreMatch(favourites[..i], f, t, u);
        }
      }
      assert favourites[..|favourites|] == favourites;
    }

    /**
     * One run of the service. Afterwards exactly the rows there were and one for everybody to be told are there, and
     * the count is the number of rows that are new.
     */
    method GenerateForTransfer(id: Id) returns (created: nat)
      requires Unique(rows)
      modifies `rows
      ensures Unique(rows) && old(rows) <= rows && |rows| == |old(rows)| + created
      ensures id !in transfers ==> rows == old(rows)
      ensures id in transfers ==>
                forall r :: r in rows <==>
                            r in old(rows) ||
                            (&& r.event == EventOf(transfers[id]) && r.transfer == Some(id)
                             && ToBeTold(favourites, prefs, transfers[id], r.user))
      ensures forall r | r in rows && r !in old(rows) ::
                && id in transfers && Tells(r, id, transfers[id])
                && transfers[id].creator != Some(r.user)
                && ((r.user, r.event) in prefs ==> prefs[(r.user, r.event)])
    {
      if id !in transfers {
        return 0;
      }
      var t := transfers[id];
      var event := EventOf(t);
      var users := FindFavouriteUserIds(t);
      created := 0;
      for i := 0 to |users|
        invariant Unique(rows) && old(rows) <= rows && |rows| == |old(rows)| + created
        invariant forall r ::
                    r in rows <==>
                    r in old(rows) || (r.event == event && r.transfer == Some(id) && Told(users[..i], t, event, r.user))
      {
        ghost var was := rows;
        assert users[..i + 1] == users[..i] + [users[i]];
        if t.creator != Some(users[i]) && !OptedOut(prefs, users[i], event) {
          var ok := CreateNotification(users[i], event, id);
          if ok {
            created := created + 1;
          }
        }
      }
      assert users[..|users|] == users;
    }

    ghost predicate Told(users: seq<Id>, t: Transfer, event: EventType, user: Id)
      reads this
    {
      user in users && t.creator != Some(user) && !OptedOut(prefs, user, event)
    }
  }

  lemma OneMoreMatch(favourites: seq<Favourite>, f: Favourite, t: Transfer, user: Id)
    ensures (exists g :: g in favourites + [f] && g.user == user && Matches(t, g.target)) <==>
            || (exists g :: g in favourites && g.user == user && Matches(t, g.target))
            || (f.user == user && Matches(t, f.target))
  {
    if exists g :: g in favourites && g.user == user && Matches(t, g.target) {
      var g :| g in favourites && g.user == user && Matches(t, g.target);
      assert g in favourites + [f];
    }
    assert f in favourites + [f];
  }

  // ---------------------------------------------------------------- any number of runs

  /** k runs with unchanged tables. */
  function Runs(rows: seq<Row>, attempts: seq<Row>, k: nat): seq<Row> {
    if k == 0 then rows else InsertAll(Runs(rows, attempts, k - 1), attempts)
  }

  function RunsCount(rows: seq<Row>, attempts: seq<Row>, k: nat): nat {
    if k == 0 then 0 else RunsCount(rows, attempts, k - 1) + Created(Runs(rows, attempts, k - 1), attempts)
  }

  /** Main result. Any positive number of runs leaves the rows of one run, and their counts sum to the rows created. */
  lemma {:induction false} RunsAreOneRun(rows: seq<Row>, favourites: seq<Favourite>, prefs: map<(Id, EventType),
                                         bool>, id: Id, t: Transfer, k: nat)
    requires Unique(rows) && k > 0
    ensures var attempts := Attempts(favourites, prefs, id, t);
            && Runs(rows, attempts, k) == InsertAll(rows, attempts)
            && |Runs(rows, attempts, k)| == |rows| + RunsCount(rows, attempts, k)
            && Unique(Runs(rows, attempts, k))
            && (forall r :: r in Runs(rows, attempts, k) <==>
                  || r in rows
                  || (r.event == EventOf(t) && r.transfer == Some(id) && ToBeTold(favourites, prefs, t, r.user)))
  {
    var attempts := Attempts(favourites, prefs, id, t);
    AttemptsAreForThoseToBeTold(favourites, prefs, id, t);
    AttemptsAgree(rows, attempts);
    if k > 1 {
      RunsAreOneRun(rows, favourites, prefs, id, t, k - 1);
      RepeatsAreIdle(Runs(rows, attempts, k - 1), attempts);
    } else {
      assert Runs(rows, attempts, 0) == rows;
    }
  }
}
