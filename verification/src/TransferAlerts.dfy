/** The transfer alert digest: an index from favourites to new transfers, one mail per user, and the last-run window. */
module TransferAlerts {
  import opened Collections
  import opened Wrappers

  type Id = nat

  const MAX_TRANSFERS: nat := 500
  const MAX_ITEMS_PER_USER: nat := 5
  const DEFAULT_LOOKBACK_MS: nat := 86400000

  datatype Transfer = Transfer(id: Id, from: Id, to: Id, player: Id, isRumour: bool)
  datatype Favourite = TeamFavourite(user: Id, team: Id) | PlayerFavourite(user: Id, player: Id)

  // ---------------------------------------------------------------- the index

  /** The transfers of a team, as pushed: one of a team to itself is pushed twice. */
  function TeamHits(ts: seq<Transfer>, team: Id): seq<Id> {
    if ts == [] then []
    else
      var t := ts[|ts| - 1];
      TeamHits(ts[..|ts| - 1], team) + (if t.from == team then [t.id] else []) + if t.to == team then [t.id] else []
  }

  function PlayerHits(ts: seq<Transfer>, player: Id): seq<Id> {
    if ts == [] then []
    else PlayerHits(ts[..|ts| - 1], player) + if ts[|ts| - 1].player == player then [ts[|ts| - 1].id] else []
  }

  function Hits(ts: seq<Transfer>, f: Favourite): seq<Id> {
    match f
    case TeamFavourite(_, team) => TeamHits(ts, team)
    case PlayerFavourite(_, player) => PlayerHits(ts, player)
  }

  predicate Follows(f: Favourite, t: Transfer) {
    match f
    case TeamFavourite(_, team) => t.from == team || t.to == team
    case PlayerFavourite(_, player) => t.player == player
  }

  lemma {:induction false} HitsAreFollowed(ts: seq<Transfer>, f: Favourite)
    ensures forall id :: id in Hits(ts, f) <==> exists t :: t in ts && Follows(f, t) && t.id == id
  {
    if ts != [] {
      var n := |ts| - 1;
      HitsAreFollowed(ts[..n], f);
      assert ts == ts[..n] + [ts[n]];
      forall id ensures id in Hits(ts, f) <==> exists t :: t in ts && Follows(f, t) && t.id == id {
        assert id in Hits(ts, f) <==> id in Hits(ts[..n], f) || (Follows(f, ts[n]) && ts[n].id == id);
        if id in Hits(ts[..n], f) {
          var t :| t in ts[..n] && Follows(f, t) && t.id == id;
          assert t in ts;
        }
        assert ts[n] in ts;
      }
    }
  }

  /** A list under a key, empty if the key is missing. */
  function At(index: map<Id, seq<Id>>, key: Id): seq<Id> { if key in index then index[key] else [] }

  function Push(index: map<Id, seq<Id>>, key: Id, id: Id): map<Id, seq<Id>> { index[key := At(index, key) + [id]] }

  function TeamIndex(ts: seq<Transfer>): map<Id, seq<Id>> {
    if ts == [] then map[]
    else
      var t := ts[|ts| - 1];
      Push(Push(TeamIndex(ts[..|ts| - 1]), t.from, t.id), t.to, t.id)
  }

  function PlayerIndex(ts: seq<Transfer>): map<Id, seq<Id>> {
    if ts == [] then map[] else Push(PlayerIndex(ts[..|ts| - 1]), ts[|ts| - 1].player, ts[|ts| - 1].id)
  }

  lemma {:induction false} IndexHoldsHits(ts: seq<Transfer>, key: Id)
    ensures At(TeamIndex(ts), key) == TeamHits(ts, key)
    ensures At(PlayerIndex(ts), key) == PlayerHits(ts, key)
  {
    if ts != [] {
      IndexHoldsHits(ts[..|ts| - 1], key);
    }
  }

  method BuildIndex(ts: seq<Transfer>) returns (teams: map<Id, seq<Id>>, players: map<Id, seq<Id>>)
    ensures teams == TeamIndex(ts) && players == PlayerIndex(ts)
  {
    teams, players := map[], map[];
    for i := 0 to |ts|
      invariant teams == TeamIndex(ts[..i]) && players == PlayerIndex(ts[..i])
    {
      var t := ts[i];
      assert ts[..i + 1][..i] == ts[..i];
      teams := Push(teams, t.from, t.id);
      teams := Push(teams, t.to, t.id);
      players := Push(players, t.player, t.id);
    }
    assert ts[..|ts|] == ts;
  }

  /** Adding to a set that remembers insertion order. */
  function AddAll(known: seq<Id>, ids: seq<Id>): seq<Id> {
    if ids == [] then known
    else
      var before := AddAll(known, ids[..|ids| - 1]);
      if ids[|ids| - 1] in before then before else before + [ids[|ids| - 1]]
  }

  lemma {:induction false} AddAllIsUnion(known: seq<Id>, ids: seq<Id>)
    requires Distinct(known)
    ensures Distinct(AddAll(known, ids))
    ensures forall id :: id in AddAll(known, ids) <==> id in known || id in ids
    ensures known <= AddAll(known, ids)
  {
    if ids != [] {
      var n := |ids| - 1;
      AddAllIsUnion(known, ids[..n]);
      assert ids == ids[..n] + [ids[n]];
    }
  }

  /** New elements come behind the known ones, in their own order. */
  lemma {:induction false} NewOnesComeLast(known: seq<Id>, ids: seq<Id>)
    requires Distinct(ids) && forall id | id in ids :: id !in known
    ensures AddAll(known, ids) == known + ids
  {
    if ids == [] {
      assert known + ids == known;
    } else {
      var n := |ids| - 1;
      assert forall id | id in ids[..n] :: id in ids;
      NewOnesComeLast(known, ids[..n]);
      assert ids[n] in ids && ids[n] !in ids[..n] && known + ids == known + ids[..n] + [ids[n]];
    }
  }

  /** The set collected for a user while the favourites are walked. */
  function Collected(favs: seq<Favourite>, ts: seq<Transfer>, user: Id): seq<Id> {
    if favs == [] then []
    else
      var f := favs[|favs| - 1];
      var before := Collected(favs[..|favs| - 1], ts, user);
      if f.user == user then AddAll(before, Hits(ts, f)) else before
  }

  /** Main result: the index walk computes the join of favourites and transfers, each transfer once per user. */
  lemma {:induction false} IndexIsTheJoin(favs: seq<Favourite>, ts: seq<Transfer>, user: Id)
    ensures Distinct(Collected(favs, ts, user))
    ensures forall id :: id in Collected(favs, ts, user) <==>
                         exists f, t :: f in favs && t in ts && f.user == user && Follows(f, t) && t.id == id
    ensures forall f, t :: Follows(f, t) <==>
              || (f.TeamFavourite? && (f.team == t.from || f.team == t.to))
              || (f.PlayerFavourite? && f.player == t.player)
  {
    if favs != [] {
      var n := |favs| - 1;
      var f := favs[n];
      IndexIsTheJoin(favs[..n], ts, user);
      AddAllIsUnion(Collected(favs[..n], ts, user), Hits(ts, f));
      HitsAreFollowed(ts, f);
      assert favs == favs[..n] + [f];
      forall id ensures id in Collected(favs, ts, user) <==>
                        exists g, t :: g in favs && t in ts && g.user == user && Follows(g, t) && t.id == id
      {
        if id in Collected(favs[..n], ts, user) {
          var g, t :| g in favs[..n] && t in ts && g.user == user && Follows(g, t) && t.id == id;
          assert g in favs;
        }
        if f.user == user && id in Hits(ts, f) {
          var t :| t in ts && Follows(f, t) && t.id == id;
          assert f in favs;
        }
      }
    }
  }

  function UserIndex(favs: seq<Favourite>, ts: seq<Transfer>): map<Id, seq<Id>> {
    if favs == [] then map[]
    else
      var f := favs[|favs| - 1];
      var before := UserIndex(favs[..|favs| - 1], ts);
      var ids := Hits(ts, f);
      if ids == [] then before else before[f.user := AddAll(At(before, f.user), ids)]
  }

  lemma {:induction false} IndexHoldsCollected(favs: seq<Favourite>, ts: seq<Transfer>, user: Id)
    ensures At(UserIndex(favs, ts), user) == Collected(favs, ts, user)
  {
    if favs != [] {
      IndexHoldsCollected(favs[..|favs| - 1], ts, user);
    }
  }

  function ListOf(teams: map<Id, seq<Id>>, players: map<Id, seq<Id>>, f: Favourite): seq<Id> {
    match f case TeamFavourite(_, team) => At(teams, team) case PlayerFavourite(_, player) => At(players, player)
  }

  lemma ListIsHits(ts: seq<Transfer>, f: Favourite)
    ensures ListOf(TeamIndex(ts), PlayerIndex(ts), f) == Hits(ts, f)
  {
    match f
    case TeamFavourite(_, team) => IndexHoldsHits(ts, team);
    case PlayerFavourite(_, player) => IndexHoldsHits(ts, player);
  }

  method JoinFavourites(favs: seq<Favourite>, ts: seq<Transfer>) returns (byUser: map<Id, seq<Id>>)
    ensures byUser == UserIndex(favs, ts)
  {
    var teams, players := BuildIndex(ts);
    byUser := map[];
    for i := 0 to |favs|
      invariant byUser == UserIndex(favs[..i], ts)
    {
      var f := favs[i];
      assert favs[..i + 1][..i] == favs[..i];
      var ids := ListOf(teams, players, f);
      ListIsHits(ts, f);
      if ids != [] {
        byUser := byUser[f.user := AddAll(At(byUser, f.user), ids)];
      }
    }
    assert favs[..|favs|] == favs;
  }

  // ---------------------------------------------------------------- one user's items

  /** The user's transfers that the preferences let through, in order. */
  function Wanted(ids: seq<Id>, rumours: set<Id>, noRumours: bool, noTransfers: bool): seq<Id> {
    if ids == [] then []
    else
      var id := ids[|ids| - 1];
      Wanted(ids[..|ids| - 1], rumours, noRumours, noTransfers) +
      if (if id in rumours then noRumours else noTransfers) then [] else [id]
  }

  function Cut(ids: seq<Id>): seq<Id> { if |ids| <= MAX_ITEMS_PER_USER then ids else ids[..MAX_ITEMS_PER_USER] }

  lemma {:induction false} WantedGrows(ids: seq<Id>, k: nat, rumours: set<Id>, noRumours: bool, noTransfers: bool)
    requires k <= |ids|
    ensures Wanted(ids[..k], rumours, noRumours, noTransfers) <= Wanted(ids, rumours, noRumours, noTransfers)
  {
    if k < |ids| {
      var n := |ids| - 1;
      assert ids[..n][..k] == ids[..k];
      WantedGrows(ids[..n], k, rumours, noRumours, noTransfers);
    } else {
      assert ids[..k] == ids;
    }
  }

  /** The loop with its early exit takes the first five wanted transfers. */
  method ItemsFor(ids: seq<Id>, rumours: set<Id>, noRumours: bool, noTransfers: bool) returns (items: seq<Id>)
    ensures items == Cut(Wanted(ids, rumours, noRumours, noTransfers))
  {
    items := [];
    for i := 0 to |ids|
      invariant items == Wanted(ids[..i], rumours, noRumours, noTransfers) && |items| < MAX_ITEMS_PER_USER
    {
      assert ids[..i + 1][..i] == ids[..i];
      if if ids[i] in rumours then noRumours else noTransfers {
        continue;
      }
      items := items + [ids[i]];
      if |items| >= MAX_ITEMS_PER_USER {
        WantedGrows(ids, i + 1, rumours, noRumours, noTransfers);
        return;
      }
    }
    assert ids[..|ids|] == ids;
  }

  lemma {:induction false} WantedAre(ids: seq<Id>, rumours: set<Id>, noRumours: bool, noTransfers: bool)
    ensures forall id :: id in Wanted(ids, rumours, noRumours, noTransfers) <==>
                         id in ids && !(if id in rumours then noRumours else noTransfers)
  {
    if ids != [] {
      var n := |ids| - 1;
      WantedAre(ids[..n], rumours, noRumours, noTransfers);
      assert ids == ids[..n] + [ids[n]];
    }
  }

  datatype Mail = Mail(user: Id, items: seq<Id>)

  /** What one run looks up: who may be mailed, which transfers are rumours, and who turned which kind off. */
  datatype Lookup = Lookup(users: seq<Id>, rumours: set<Id>, noRumours: set<Id>, noTransfers: set<Id>)

  function ItemsOf(byUser: map<Id, seq<Id>>, l: Lookup, user: Id): seq<Id> {
    Cut(Wanted(At(byUser, user), l.rumours, user in l.noRumours, user in l.noTransfers))
  }

  /** The user wants a kind of transfer unless it is switched off: rumours and done transfers apart. */
  predicate Wants(l: Lookup, user: Id, id: Id) {
    if id in l.rumours then user !in l.noRumours else user !in l.noTransfers
  }

  lemma {:induction false} WantedIsDistinct(ids: seq<Id>, rumours: set<Id>, noRumours: bool, noTransfers: bool)
    requires Distinct(ids)
    ensures Distinct(Wanted(ids, rumours, noRumours, noTransfers))
  {
    if ids != [] {
      var n := |ids| - 1;
      WantedIsDistinct(ids[..n], rumours, noRumours, noTransfers);
      WantedAre(ids[..n], rumours, noRumours, noTransfers);
      assert ids[n] !in ids[..n];
    }
  }

  /** Where a wanted transfer stands among the wanted ones: behind those before it. */
  lemma WantedPlace(ids: seq<Id>, j: nat, rumours: set<Id>, noRumours: bool, noTransfers: bool)
    requires j < |ids| && !(if ids[j] in rumours then noRumours else noTransfers)
    ensures var before, wanted := Wanted(ids[..j], rumours, noRumours, noTransfers),
                                  Wanted(ids, rumours, noRumours, noTransfers);
            before <= wanted && |before| < |wanted| && wanted[|before|] == ids[j]
  {
    WantedGrows(ids, j + 1, rumours, noRumours, noTransfers);
    assert ids[..j + 1][..j] == ids[..j];
  }

  lemma CutKeepsTheFirst(before: seq<Id>, wanted: seq<Id>, x: Id, y: Id)
    requires Distinct(wanted) && before <= wanted && |before| < |wanted| && wanted[|before|] == y
    requires x in before && y in Cut(wanted)
    ensures x in Cut(wanted)
  {
    var m :| 0 <= m < |Cut(wanted)| && Cut(wanted)[m] == y;
    assert wanted[m] == y;
    var k :| 0 <= k < |before| && before[k] == x;
    assert wanted[k] == x && Cut(wanted)[k] == wanted[k];
  }

  /** No wanted transfer is passed over for a later one. */
  lemma FirstOnesComeFirst(favs: seq<Favourite>, ts: seq<Transfer>, l: Lookup, user: Id, i: nat, j: nat)
    requires i < j < |Collected(favs, ts, user)|
    requires Wants(l, user, Collected(favs, ts, user)[i])
    requires Collected(favs, ts, user)[j] in ItemsOf(UserIndex(favs, ts), l, user)
    ensures Collected(favs, ts, user)[i] in ItemsOf(UserIndex(favs, ts), l, user)
  {
    var ids := Collected(favs, ts, user);
    var off, done := user in l.noRumours, user in l.noTransfers;
    var wanted, before := Wanted(ids, l.rumours, off, done), Wanted(ids[..j], l.rumours, off, done);
    IndexHoldsCollected(favs, ts, user);
    ItemsAreWanted(favs, ts, l, user);
    WantedPlace(ids, j, l.rumours, off, done);
    CollectedOnce(favs, ts, user);
    WantedIsDistinct(ids, l.rumours, off, done);
    WantedAre(ids[..j], l.rumours, off, done);
    assert ids[..j][i] == ids[i];
    CutKeepsTheFirst(before, wanted, ids[i], ids[j]);
  }

  lemma CollectedOnce(favs: seq<Favourite>, ts: seq<Transfer>, user: Id)
    ensures Distinct(Collected(favs, ts, user))
  {
    IndexIsTheJoin(favs, ts, user);
  }

  /** Up to five transfers that the user collected and wants, and none only when there are none. */
  lemma ItemsAreWanted(favs: seq<Favourite>, ts: seq<Transfer>, l: Lookup, user: Id)
    ensures var items := ItemsOf(UserIndex(favs, ts), l, user);
            && |items| <= 5
            && (forall id | id in items :: id in Collected(favs, ts, user) && Wants(l, user, id))
            && (|items| < 5 ==> forall id | id in Collected(favs, ts, user) && Wants(l, user, id) :: id in items)
  {
    IndexHoldsCollected(favs, ts, user);
    WantedAre(Collected(favs, ts, user), l.rumours, user in l.noRumours, user in l.noTransfers);
    var wanted := Wanted(Collected(favs, ts, user), l.rumours, user in l.noRumours, user in l.noTransfers);
    assert forall id | id in Cut(wanted) :: id in wanted;
  }

  /** Exactly the mails that go to these users. */
  ghost predicate AreSent(mails: seq<Mail>, byUser: map<Id, seq<Id>>, l: Lookup, users: seq<Id>, broken: set<Id>) {
    forall m :: m in mails <==>
      m.user in users && m.user !in broken && m.items == ItemsOf(byUser, l, m.user) && m.items != []
  }

  lemma SendNext(mails: seq<Mail>, byUser: map<Id, seq<Id>>, l: Lookup, i: nat, broken: set<Id>)
    requires i < |l.users| && AreSent(mails, byUser, l, l.users[..i], broken)
    ensures var user, items := l.users[i], ItemsOf(byUser, l, l.users[i]);
            AreSent(if items != [] && user !in broken then mails + [Mail(user, items)] else mails,
                    byUser, l, l.users[..i + 1], broken)
  {
    assert l.users[..i + 1] == l.users[..i] + [l.users[i]];
  }

  class TransferAlertService {
    var lastRun: Option<int>
    var outbox: seq<Mail>

    /** `broken` are the users whose mail fails; the run goes on, and its window is closed for them as well. */
    method Run(runAt: int, ts: seq<Transfer>, favs: seq<Favourite>, l: Lookup, broken: set<Id>)
      modifies this
      ensures lastRun == Some(runAt)
      ensures old(outbox) <= outbox
      ensures forall m ::
                m in outbox[|old(outbox)|..] <==>
                && m.user in l.users && m.user !in broken
                && m.items == ItemsOf(UserIndex(favs, ts), l, m.user) && m.items != []
    {
      var byUser := JoinFavourites(favs, ts);
      ghost var n := |outbox|;
      for i := 0 to |l.users|
        invariant old(outbox) <= outbox && n == |old(outbox)|
        invariant AreSent(outbox[n..], byUser, l, l.users[..i], broken)
      {
        var user := l.users[i];
        var items := ItemsFor(At(byUser, user), l.rumours, user in l.noRumours, user in l.noTransfers);
        SendNext(outbox[n..], byUser, l, i, broken);
        if items != [] && user !in broken {
          assert (outbox + [Mail(user, items)])[n..] == outbox[n..] + [Mail(user, items)];
          outbox := outbox + [Mail(user, items)];
        }
      }
      assert l.users[..|l.users|] == l.users;
      lastRun := Some(runAt);
    }
  }

  // ---------------------------------------------------------------- the window

  /** One run: `runAt` is taken first and stored at the end, the query runs at `queryAt`. */
  datatype Run = Run(runAt: int, queryAt: int)

  /** Runs follow each other; a query comes after its own clock reading and before the next one. */
  ghost predicate InOrder(runs: seq<Run>) {
    && (forall i | 0 <= i < |runs| :: runs[i].runAt <= runs[i].queryAt)
    && (forall i | 0 < i < |runs| :: runs[i - 1].queryAt <= runs[i].runAt)
  }

  /** The last run that was stored, or a day before the first one. */
  function Since(runs: seq<Run>, i: nat): int
    requires i < |runs|
  {
    if i == 0 then runs[0].runAt - DEFAULT_LOOKBACK_MS else runs[i - 1].runAt
  }

  /** `createdAt: { gt: since }`, on what exists at query time. */
  predicate Sees(runs: seq<Run>, i: nat, created: int)
    requires i < |runs|
  {
    Since(runs, i) < created <= runs[i].queryAt
  }

  function TimesSeen(runs: seq<Run>, created: int): nat {
    if runs == [] then 0
    else TimesSeen(runs[..|runs| - 1], created) + if Sees(runs, |runs| - 1, created) then 1 else 0
  }

  /** Between the clock reading of a run and its query, the last run apart. */
  function Races(runs: seq<Run>, created: int): nat {
    if |runs| < 2 then 0
    else
      var r := runs[|runs| - 2];
      Races(runs[..|runs| - 1], created) + if r.runAt < created <= r.queryAt then 1 else 0
  }

  lemma {:induction false} NotSeenLater(runs: seq<Run>, created: int)
    requires runs != [] && InOrder(runs) && created > runs[|runs| - 1].queryAt
    ensures TimesSeen(runs, created) == 0 && Races(runs, created) == 0
  {
    if |runs| > 1 {
      var n := |runs| - 1;
      assert InOrder(runs[..n]);
      NotSeenLater(runs[..n], created);
    } else {
      assert runs[..0] == [];
    }
  }

  /**
   * Main result. A transfer of the covered time is seen once, and once more if it was created after a run read the
   * clock and before that run's query: the query has no upper bound, and the next window starts at the clock reading.
   */
  lemma {:induction false} SeenOncePlusRaces(runs: seq<Run>, created: int)
    requires runs != [] && InOrder(runs)
    requires runs[0].runAt - 86400000 < created <= runs[|runs| - 1].queryAt
    ensures TimesSeen(runs, created) == 1 + Races(runs, created)
    ensures Races(runs, created) <= 1
  {
    var n := |runs| - 1;
    if n == 0 {
      assert runs[..0] == [];
    } else {
      var before := runs[..n];
      assert InOrder(before) && Since(before, 0) == Since(runs, 0) && before[n - 1] == runs[n - 1];
      if created > runs[n - 1].queryAt {
        NotSeenLater(before, created);
      } else {
        SeenOncePlusRaces(before, created);
        if runs[n - 1].runAt < created {
          NoEarlierRace(before, created);
        }
      }
    }
  }

  lemma {:induction false} NoEarlierRace(runs: seq<Run>, created: int)
    requires runs != [] && InOrder(runs) && created > runs[|runs| - 1].runAt
    ensures Races(runs, created) == 0
  {
    if |runs| > 1 {
      var n := |runs| - 1;
      assert InOrder(runs[..n]) && runs[..n][n - 1] == runs[n - 1];
      NoEarlierRace(runs[..n], created);
    }
  }

  // ---------------------------------------------------------------- the limit of the query

  /** The transfers a run's query matches, of all that were ever created. */
  ghost function Visible(runs: seq<Run>, i: nat, created: map<Id, int>): set<Id>
    requires i < |runs|
  {
    set id | id in created && Sees(runs, i, created[id])
  }

  ghost function Newer(visible: set<Id>, created: map<Id, int>, id: Id): set<Id>
    requires visible <= created.Keys && id in created
  {
    set x | x in visible && created[x] > created[id]
  }

  /** `orderBy: { createdAt: 'desc' }, take: 500` */
  ghost predicate IsQuery(picked: set<Id>, visible: set<Id>, created: map<Id, int>)
    requires visible <= created.Keys
  {
    && picked <= visible
    && |picked| == (if |visible| < MAX_TRANSFERS then |visible| else MAX_TRANSFERS)
    && forall a, b | a in picked && b in visible && b !in picked :: created[a] >= created[b]
  }

  ghost predicate DistinctTimes(created: map<Id, int>) {
    forall a, b | a in created && b in created && a != b :: created[a] != created[b]
  }

  /** The query keeps a transfer it matches exactly when it matches fewer than 500 newer ones. */
  lemma PickedIff(picked: set<Id>, visible: set<Id>, created: map<Id, int>, id: Id)
    requires visible <= created.Keys && IsQuery(picked, visible, created) && DistinctTimes(created) && id in visible
    ensures id in picked <==> |Newer(visible, created, id)| < 500
  {
    var newer := Newer(visible, created, id);
    SubsetSize(picked, visible);
    if id in picked {
      assert newer + {id} <= picked;
      SubsetSize(newer + {id}, picked);
    } else {
      assert picked <= newer;
      SubsetSize(picked, newer);
    }
  }

  lemma {:induction false} SeenInARun(runs: seq<Run>, created: int)
    requires TimesSeen(runs, created) > 0
    ensures exists i | 0 <= i < |runs| :: Sees(runs, i, created)
  {
    var n := |runs| - 1;
    if Sees(runs, n, created) {
    } else {
      SeenInARun(runs[..n], created);
      var i :| 0 <= i < n && Sees(runs[..n], i, created);
      assert Sees(runs, i, created);
    }
  }

  /**
   * Main result. A transfer of the covered time falls into the window of some run, and no run ever mails it exactly
   * when every run whose window it falls into, there being at most two, matches 500 newer ones: nothing comes back to
   * what the limit cuts off.
   */
  lemma DroppedForGoodIff(runs: seq<Run>, created: map<Id, int>, picks: seq<set<Id>>, id: Id)
    requires InOrder(runs) && runs != [] && |picks| == |runs| && DistinctTimes(created)
    requires forall i | 0 <= i < |runs| :: IsQuery(picks[i], Visible(runs, i, created), created)
    requires id in created && runs[0].runAt - 86400000 < created[id] <= runs[|runs| - 1].queryAt
    ensures exists i | 0 <= i < |runs| :: Sees(runs, i, created[id])
    ensures (forall i | 0 <= i < |runs| :: id !in picks[i]) <==>
            forall i | 0 <= i < |runs| && Sees(runs, i, created[id]) ::
              |Newer(Visible(runs, i, created), created, id)| >= 500
  {
    SeenOncePlusRaces(runs, created[id]);
    SeenInARun(runs, created[id]);
    forall i | 0 <= i < |runs|
      ensures id in picks[i] <==>
              Sees(runs, i, created[id]) && |Newer(Visible(runs, i, created), created, id)| < MAX_TRANSFERS
    {
      if Sees(runs, i, created[id]) { PickedIff(picks[i], Visible(runs, i, created), created, id); }
    }
  }
}
