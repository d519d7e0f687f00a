/** Which team a player ends on: the last one of the walk whose replies list the player. */
module FootballPlayers {
  import opened Collections
  import opened Wrappers
  import opened FootballSync
  import opened FootballTables

  // ---------------------------------------------------------------- reference definitions

  /**
   * The players a team's replies put on it: those of the pages received whose row could be written, with or without
   * their statistics, and, when every page was received, those of the squad that no page had.
   */
  function PutOn(w: World, cfg: Config, t: int): set<int> {
    var paged := PageItems(Replies(w, t));
    (set p | p in paged && w.playerSaved(t, p) != NotSaved) +
    if AllGot(Replies(w, t)) && cfg.fetchSquads && w.squad(t).Got?
    then set p | p in w.squad(t).value && p !in paged && w.rosterSaved(t, p)
    else {}
  }

  /** The teams of one list whose replies are asked for, in order. */
  function ListVisits(w: World, ts: seq<int>, seen: set<int>): seq<int> {
    if ts == [] then []
    else (if ts[0] !in seen && w.teamSaved(ts[0]) then [ts[0]] else []) + ListVisits(w, ts[1..], seen + {ts[0]})
  }

  /** The teams whose replies a walk over the targets asks for, in order. */
  function Visits(w: World, index: map<int, Meta>, targets: seq<int>, seen: set<int>): seq<int> {
    if targets == [] then []
    else
      var rest := Visits(w, index, targets[1..], seen + NewOf(w, index, targets[0], seen));
      if HasList(w, index, targets[0]) && !IsCup(index, targets[0])
      then ListVisits(w, w.teams(targets[0]).value, seen) + rest
      else rest
  }

  /** The last team of a walk that a player was put on. */
  function LastTeam(w: World, cfg: Config, visits: seq<int>, p: int): Option<int> {
    if visits == [] then None
    else
      var n := |visits| - 1;
      if p in PutOn(w, cfg, visits[n]) then Some(visits[n]) else LastTeam(w, cfg, visits[..n], p)
  }

  /** The last team of a walk whose replies list a player. */
  function LastLister(w: World, cfg: Config, visits: seq<int>, p: int): Option<int> {
    if visits == [] then None
    else
      var n := |visits| - 1;
      if p in SquadOf(w, cfg, visits[n]) then Some(visits[n]) else LastLister(w, cfg, visits[..n], p)
  }

  function RowIn(players: map<Key, Player>, k: Key): Option<Player> { if k in players then Some(players[k]) else None }

  function TeamIn(s: State, k: Key): Option<Key> { if k in s.players then Some(s.players[k].team) else None }

  // ---------------------------------------------------------------- the visits are the attended teams

  lemma {:induction false} ListVisitsAre(w: World, ts: seq<int>, seen: set<int>)
    ensures forall t :: t in ListVisits(w, ts, seen) <==> t in ts && t !in seen && w.teamSaved(t)
    ensures Distinct(ListVisits(w, ts, seen))
  {
    if ts != [] {
      ListVisitsAre(w, ts[1..], seen + {ts[0]});
      assert ts == [ts[0]] + ts[1..];
    }
  }

  /** Each attended team is visited once, and no other team is. */
  lemma {:induction false} VisitsAreAttended(w: World, index: map<int, Meta>, targets: seq<int>, seen: set<int>)
    ensures forall t :: t in Visits(w, index, targets, seen) <==> t !in seen && Attended(w, index, targets, t)
    ensures Distinct(Visits(w, index, targets, seen))
  {
    if targets != [] {
      var id := targets[0];
      var now := seen + NewOf(w, index, id, seen);
      VisitsAreAttended(w, index, targets[1..], now);
      if HasList(w, index, id) {
        ListVisitsAre(w, w.teams(id).value, seen);
        DistinctAppend(ListVisits(w, w.teams(id).value, seen), Visits(w, index, targets[1..], now));
      }
      forall t ensures t in Visits(w, index, targets, seen) <==> t !in seen && Attended(w, index, targets, t) {
        AttendedCons(w, index, targets, t);
      }
    }
  }

  // ---------------------------------------------------------------- one squad

  /** These players' rows now say this team and playing; no other row has changed. */
  ghost predicate Put(a: map<Key, Player>, b: map<Key, Player>, t: int, added: set<int>) {
    forall k :: RowIn(b, k) == if k.Ext? && k.id in added then Some(Player(Ext(t), false)) else RowIn(a, k)
  }

  lemma PutThen(a: map<Key, Player>, b: map<Key, Player>, c: map<Key, Player>, t: int, x: set<int>, y: set<int>)
    requires Put(a, b, t, x) && Put(b, c, t, y)
    ensures Put(a, c, t, x + y)
  {
    assert forall k :: RowIn(c, k) == if k.Ext? && k.id in y then Some(Player(Ext(t), false)) else RowIn(b, k);
  }

  function Storable(w: World, t: int, ps: set<int>): set<int> { set p | p in ps && w.playerSaved(t, p) != NotSaved }

  lemma {:induction false} PlayersPut(w: World, t: int, items: seq<int>, s: State)
    ensures var after := SavePlayers(w, t, items, s);
            && s.errors <= after.errors
            && Put(s.players, after.players, t, Storable(w, t, SetOf(items)))
            && (after.errors == s.errors ==> Storable(w, t, SetOf(items)) == SetOf(items))
    decreases items
  {
    if items != [] {
      var mid := SavePlayer(w, t, items[0], s);
      PlayersPut(w, t, items[1..], mid);
      assert items == [items[0]] + items[1..];
      assert SetOf(items) == {items[0]} + SetOf(items[1..]);
      assert Put(s.players, mid.players, t, Storable(w, t, {items[0]}));
      PutThen(s.players, mid.players, SavePlayers(w, t, items, s).players, t,
              Storable(w, t, {items[0]}), Storable(w, t, SetOf(items[1..])));
      assert Storable(w, t, SetOf(items)) == Storable(w, t, {items[0]}) + Storable(w, t, SetOf(items[1..]));
    }
  }

  lemma {:induction false} PagesPut(w: World, t: int, pages: seq<Reply<seq<int>>>, s: State, here: set<int>)
    ensures var f := FetchPages(w, t, pages, s, here);
            && s.errors <= f.s.errors
            && Put(s.players, f.s.players, t, Storable(w, t, PageItems(pages)))
            && (f.s.errors == s.errors ==> Storable(w, t, PageItems(pages)) == PageItems(pages))
    decreases pages
  {
    if pages != [] && pages[0].Got? {
      var l := Logged(s, pages[0]);
      var items, rest := SetOf(pages[0].value), PageItems(pages[1..]);
      var mid := SavePlayers(w, t, pages[0].value, l);
      PlayersPut(w, t, pages[0].value, l);
      PagesPut(w, t, pages[1..], mid, here + items);
      PutThen(s.players, mid.players, FetchPages(w, t, pages, s, here).s.players, t,
              Storable(w, t, items), Storable(w, t, rest));
      assert Storable(w, t, items + rest) == Storable(w, t, items) + Storable(w, t, rest);
    }
  }

  function RosterStorable(w: World, t: int, here: set<int>, ps: set<int>): set<int> {
    set p | p in ps && p !in here && w.rosterSaved(t, p)
  }

  lemma {:induction false} RosterPut(w: World, t: int, squad: seq<int>, here: set<int>, s: State)
    ensures var after := SaveRoster(w, t, squad, here, s);
            && s.errors <= after.errors
            && Put(s.players, after.players, t, RosterStorable(w, t, here, SetOf(squad)))
            && (after.errors == s.errors ==> RosterStorable(w, t, here, SetOf(squad)) == SetOf(squad) - here)
    decreases squad
  {
    if squad != [] {
      var p, rest := squad[0], SetOf(squad[1..]);
      var mid := if p in here then s else SaveRosterPlayer(w, t, p, s);
      RosterPut(w, t, squad[1..], here, mid);
      assert squad == [p] + squad[1..];
      assert SetOf(squad) == {p} + rest;
      assert Put(s.players, mid.players, t, RosterStorable(w, t, here, {p}));
      PutThen(s.players, mid.players, SaveRoster(w, t, squad, here, s).players, t,
              RosterStorable(w, t, here, {p}), RosterStorable(w, t, here, rest));
      assert RosterStorable(w, t, here, SetOf(squad)) ==
             RosterStorable(w, t, here, {p}) + RosterStorable(w, t, here, rest);
    }
  }

  /** However a squad's requests end, exactly the players its replies put on the team are on it, and playing. */
  lemma SquadPut(w: World, cfg: Config, t: int, s: State)
    ensures var after := SyncSquad(w, cfg, t, s).0;
            && s.errors <= after.errors
            && Put(s.players, after.players, t, PutOn(w, cfg, t))
            && (after.errors == s.errors ==> PutOn(w, cfg, t) == SquadOf(w, cfg, t))
  {
    var paged := PageItems(Replies(w, t));
    var f := FetchPages(w, t, Replies(w, t), s, {});
    PagesPut(w, t, Replies(w, t), s, {});
    PagesWrite(w, t, Replies(w, t), s, {});
    assert {} + paged == paged;
    if f.signal == Fine && cfg.fetchSquads && w.squad(t).Got? {
      var l := Logged(f.s, w.squad(t));
      var squad := w.squad(t).value;
      RosterPut(w, t, squad, f.here, l);
      PutThen(s.players, f.s.players, SaveRoster(w, t, squad, f.here, l).players, t,
              Storable(w, t, paged), RosterStorable(w, t, f.here, SetOf(squad)));
      assert PutOn(w, cfg, t) == Storable(w, t, paged) + RosterStorable(w, t, f.here, SetOf(squad));
    } else {
      assert PutOn(w, cfg, t) == Storable(w, t, paged);
    }
  }

  // ---------------------------------------------------------------- pages, requests and errors of a squad

  /** While each reply reports more pages than there were, the next page is asked for; then the loop ends. */
  lemma {:induction false} RepliesArePages(w: World, t: int, first: nat, items: seq<seq<int>>, totals: seq<int>)
    requires |items| == |totals| > 0 && first + |items| - 1 <= w.lastPage(t)
    requires forall k | 0 <= k < |items| :: w.pages(t, first + k) == Got(Page(items[k], totals[k]))
    requires forall k | 0 <= k < |items| :: totals[k] > first + k <==> k < |items| - 1
    ensures RepliesFrom(w, t, first) == seq(|items|, k requires 0 <= k < |items| => Got(items[k]))
    ensures first == 1 ==> Replies(w, t) == RepliesFrom(w, t, first)
    decreases |items|
  {
    assert w.pages(t, first + 0) == Got(Page(items[0], totals[0]));
    if |items| > 1 {
      forall k | 0 <= k < |items| - 1 ensures w.pages(t, first + 1 + k) == Got(Page(items[1..][k], totals[1..][k])) {
        assert w.pages(t, first + (k + 1)) == Got(Page(items[k + 1], totals[k + 1]));
      }
      RepliesArePages(w, t, first + 1, items[1..], totals[1..]);
    }
  }

  /** A page that fails is the last one asked for. */
  lemma FailingPageIsLast(w: World, t: int, page: nat)
    requires !w.pages(t, page).Got?
    ensures |RepliesFrom(w, t, page)| == 1 && !RepliesFrom(w, t, page)[0].Got?
    ensures RepliesFrom(w, t, page)[0].QuotaStop? <==> w.pages(t, page).QuotaStop?
  {
  }

  function RequestOf<T>(r: Reply<T>): Request {
    if r.Got? then Answered else if r.QuotaStop? then OverQuota else Broken
  }

  function RequestsOf(pages: seq<Reply<seq<int>>>): seq<Request> {
    seq(|pages|, i requires 0 <= i < |pages| => RequestOf(pages[i]))
  }

  ghost predicate LastMayFail(pages: seq<Reply<seq<int>>>) { forall i | 0 <= i < |pages| - 1 :: pages[i].Got? }

  lemma {:induction false} PageRequests(w: World, t: int, pages: seq<Reply<seq<int>>>, s: State, here: set<int>)
    requires LastMayFail(pages)
    ensures FetchPages(w, t, pages, s, here).s.requests == s.requests + RequestsOf(pages)
    decreases pages
  {
    if pages != [] {
      assert RequestsOf(pages) == [RequestOf(pages[0])] + RequestsOf(pages[1..]);
      if pages[0].Got? {
        var l := Logged(s, pages[0]);
        PlayersMakeNoRequest(w, t, pages[0].value, l);
        PageRequests(w, t, pages[1..], SavePlayers(w, t, pages[0].value, l), here + SetOf(pages[0].value));
      } else {
        assert pages[1..] == [];
      }
    }
  }

  lemma {:induction false} OnlyTheLastFails(w: World, t: int, page: nat)
    ensures LastMayFail(RepliesFrom(w, t, page))
    decreases w.lastPage(t) - page
  {
    if w.pages(t, page).Got? && More(w, t, page, w.pages(t, page).value.totalPages) {
      OnlyTheLastFails(w, t, page + 1);
      var rest := RepliesFrom(w, t, page + 1);
      var pages := RepliesFrom(w, t, page);
      assert pages == [Got(w.pages(t, page).value.items)] + rest;
      assert forall i | 0 < i < |pages| :: pages[i] == rest[i - 1];
    }
  }

  lemma {:induction false} RosterMakesNoRequest(w: World, t: int, squad: seq<int>, here: set<int>, s: State)
    ensures SaveRoster(w, t, squad, here, s).requests == s.requests
    decreases squad
  {
    if squad != [] {
      RosterMakesNoRequest(w, t, squad[1..], here, if squad[0] in here then s else SaveRosterPlayer(w, t, squad[0], s));
    }
  }

  /**
   * A squad asks for its pages, then for the roster if that is on and every page came, then for the transfers if
   * that is on and nothing failed before.
   */
  lemma SquadRequests(w: World, cfg: Config, t: int, s: State)
    ensures var paged := AllGot(Replies(w, t));
            SyncSquad(w, cfg, t, s).0.requests == s.requests + RequestsOf(Replies(w, t)) +
              (if paged && cfg.fetchSquads then [RequestOf(w.squad(t))] else []) +
              (if paged && cfg.detectTransfers && (cfg.fetchSquads ==> w.squad(t).Got?)
               then [RequestOf(w.transfers(t))] else [])
  {
    OnlyTheLastFails(w, t, 1);
    PageRequests(w, t, Replies(w, t), s, {});
    PagesWrite(w, t, Replies(w, t), s, {});
    var f := FetchPages(w, t, Replies(w, t), s, {});
    if f.signal == Fine && cfg.fetchSquads && w.squad(t).Got? {
      RosterMakesNoRequest(w, t, w.squad(t).value, f.here, Logged(f.s, w.squad(t)));
    }
  }

  lemma {:induction false} PlayersErrorsIff(w: World, t: int, items: seq<int>, s: State)
    ensures s.errors <= SavePlayers(w, t, items, s).errors
    ensures SavePlayers(w, t, items, s).errors == s.errors <==> forall p | p in items :: w.playerSaved(t, p) == Saved
    decreases items
  {
    if items != [] {
      PlayersErrorsIff(w, t, items[1..], SavePlayer(w, t, items[0], s));
      assert items == [items[0]] + items[1..];
    }
  }

  lemma {:induction false} PagesErrorsIff(w: World, t: int, pages: seq<Reply<seq<int>>>, s: State, here: set<int>)
    ensures var after := FetchPages(w, t, pages, s, here).s;
            && s.errors <= after.errors
            && (after.errors == s.errors <==> forall p | p in PageItems(pages) :: w.playerSaved(t, p) == Saved)
    decreases pages
  {
    if pages != [] && pages[0].Got? {
      var l := Logged(s, pages[0]);
      PlayersErrorsIff(w, t, pages[0].value, l);
      PagesErrorsIff(w, t, pages[1..], SavePlayers(w, t, pages[0].value, l), here + SetOf(pages[0].value));
      assert PageItems(pages) == SetOf(pages[0].value) + PageItems(pages[1..]);
      assert forall p :: p in SetOf(pages[0].value) <==> p in pages[0].value;
    }
  }

  lemma {:induction false} RosterErrorsIff(w: World, t: int, squad: seq<int>, here: set<int>, s: State)
    ensures var after := SaveRoster(w, t, squad, here, s);
            && s.errors <= after.errors
            && (after.errors == s.errors <==> forall p | p in squad && p !in here :: w.rosterSaved(t, p))
    decreases squad
  {
    if squad != [] {
      RosterErrorsIff(w, t, squad[1..], here, if squad[0] in here then s else SaveRosterPlayer(w, t, squad[0], s));
      assert squad == [squad[0]] + squad[1..];
    }
  }

  /** A squad counts no error exactly when everything it received could be stored, statistics and transfers too. */
  lemma SquadErrorsIff(w: World, cfg: Config, t: int, s: State)
    ensures var paged, items := AllGot(Replies(w, t)), PageItems(Replies(w, t));
            SyncSquad(w, cfg, t, s).0.errors == s.errors <==>
              && (forall p | p in items :: w.playerSaved(t, p) == Saved)
              && (paged && cfg.fetchSquads && w.squad(t).Got? ==>
                    forall p | p in w.squad(t).value && p !in items :: w.rosterSaved(t, p))
              && (paged && cfg.detectTransfers && (cfg.fetchSquads ==> w.squad(t).Got?) && w.transfers(t).Got? ==>
                    w.transfers(t).value == 0)
  {
    var f := FetchPages(w, t, Replies(w, t), s, {});
    PagesErrorsIff(w, t, Replies(w, t), s, {});
    PagesWrite(w, t, Replies(w, t), s, {});
    assert f.signal == Fine ==> f.here == PageItems(Replies(w, t));
    if f.signal == Fine && cfg.fetchSquads && w.squad(t).Got? {
      RosterErrorsIff(w, t, w.squad(t).value, f.here, Logged(f.s, w.squad(t)));
    }
  }

  /** The squad's requests: every page came, and what was asked for after them. */
  predicate NothingFailed(w: World, cfg: Config, t: int) {
    && (forall i | 0 <= i < |Replies(w, t)| :: !Replies(w, t)[i].Failed?)
    && (AllGot(Replies(w, t)) && cfg.fetchSquads ==> !w.squad(t).Failed?)
    && (AllGot(Replies(w, t)) && cfg.detectTransfers && (cfg.fetchSquads ==> w.squad(t).Got?) ==>
          !w.transfers(t).Failed?)
  }

  lemma {:induction false} PagesSignal(w: World, t: int, pages: seq<Reply<seq<int>>>, s: State, here: set<int>)
    requires LastMayFail(pages)
    ensures FetchPages(w, t, pages, s, here).signal == Threw <==> exists i | 0 <= i < |pages| :: pages[i].Failed?
    decreases pages
  {
    if pages != [] {
      assert pages == [pages[0]] + pages[1..];
      if pages[0].Got? {
        PagesSignal(w, t, pages[1..], SavePlayers(w, t, pages[0].value, Logged(s, pages[0])),
                    here + SetOf(pages[0].value));
        assert forall i | 0 < i < |pages| :: pages[i] == pages[1..][i - 1];
      }
    }
  }

  /** A team adds no error exactly when it is skipped, or is written, with its squad asked for without a failure. */
  lemma TeamErrorsIff(w: World, cfg: Config, league: int, kind: Kind, t: int, s: State)
    ensures SyncTeam(w, cfg, league, kind, t, s).0.errors == s.errors <==>
            || t in s.seenTeams
            || (&& w.teamSaved(t)
                && (kind == League ==>
                      && NothingFailed(w, cfg, t)
                      && SyncSquad(w, cfg, t, UpsertTeam(t, league, kind, s)).0.errors == s.errors))
  {
    if t !in s.seenTeams && w.teamSaved(t) && kind == League {
      var a, b := UpsertTeam(t, league, kind, s.(seenTeams := s.seenTeams + {t})), UpsertTeam(t, league, kind, s);
      SquadErrorsIff(w, cfg, t, a);
      SquadErrorsIff(w, cfg, t, b);
      SquadPut(w, cfg, t, a);
      OnlyTheLastFails(w, t, 1);
      PagesSignal(w, t, Replies(w, t), a, {});
      PagesWrite(w, t, Replies(w, t), a, {});
    }
  }

  // ---------------------------------------------------------------- the walk

  /** The visits leave every player on the last team that put the player there, and every other row alone. */
  ghost predicate Played(w: World, cfg: Config, visits: seq<int>, a: State, b: State) {
    forall k ::
      RowIn(b.players, k) ==
      match if k.Ext? then LastTeam(w, cfg, visits, k.id) else None
      case Some(t) => Some(Player(Ext(t), false))
      case None => RowIn(a.players, k)
  }

  lemma {:induction false} LastOfTwo(w: World, cfg: Config, a: seq<int>, b: seq<int>, p: int)
    ensures LastTeam(w, cfg, a + b, p) ==
            if LastTeam(w, cfg, b, p).Some? then LastTeam(w, cfg, b, p) else LastTeam(w, cfg, a, p)
    decreases b
  {
    if b == [] {
      assert a + b == a;
    } else {
      var n := |b| - 1;
      assert (a + b)[..|a + b| - 1] == a + b[..n];
      LastOfTwo(w, cfg, a, b[..n], p);
    }
  }

  lemma PlayedThen(w: World, cfg: Config, x: seq<int>, y: seq<int>, a: State, b: State, c: State)
    requires Played(w, cfg, x, a, b) && Played(w, cfg, y, b, c)
    ensures Played(w, cfg, x + y, a, c)
  {
    forall k: Key | k.Ext? ensures LastTeam(w, cfg, x + y, k.id) ==
      if LastTeam(w, cfg, y, k.id).Some? then LastTeam(w, cfg, y, k.id) else LastTeam(w, cfg, x, k.id)
    {
      LastOfTwo(w, cfg, x, y, k.id);
    }
  }

  /** Without an error everybody listed could be written. */
  ghost predicate AllPut(w: World, cfg: Config, visits: seq<int>) {
    forall t | t in visits :: PutOn(w, cfg, t) == SquadOf(w, cfg, t)
  }

  /** The visits of a team list made by a competition of this kind. */
  function VisitsOf(w: World, kind: Kind, ts: seq<int>, seen: set<int>): seq<int> {
    if kind == League then ListVisits(w, ts, seen) else []
  }

  lemma TeamPut(w: World, cfg: Config, league: int, kind: Kind, t: int, s: State)
    ensures var after := SyncTeam(w, cfg, league, kind, t, s).0;
            var visits := VisitsOf(w, kind, [t], s.seenTeams);
            && s.errors <= after.errors && after.seenTeams == s.seenTeams + {t}
            && Played(w, cfg, visits, s, after) && (after.errors == s.errors ==> AllPut(w, cfg, visits))
  {
    assert ListVisits(w, [t], s.seenTeams) == if t !in s.seenTeams && w.teamSaved(t) then [t] else [];
    TeamTakes(w, cfg, league, kind, t, s);
    if kind == League && t !in s.seenTeams && w.teamSaved(t) {
      SquadPut(w, cfg, t, UpsertTeam(t, league, kind, s.(seenTeams := s.seenTeams + {t})));
      assert LastTeam(w, cfg, [t][..0], 0) == None && [t][..0] == [];
    }
  }

  lemma {:induction false} TeamsPut(w: World, cfg: Config, league: int, kind: Kind, ts: seq<int>, s: State)
    requires SyncTeams(w, cfg, league, kind, ts, s).1 != Quota
    ensures var after := SyncTeams(w, cfg, league, kind, ts, s).0;
            var visits := VisitsOf(w, kind, ts, s.seenTeams);
            && s.errors <= after.errors
            && Played(w, cfg, visits, s, after) && (after.errors == s.errors ==> AllPut(w, cfg, visits))
    decreases ts
  {
    if ts != [] {
      var mid := SyncTeam(w, cfg, league, kind, ts[0], s).0;
      TeamPut(w, cfg, league, kind, ts[0], s);
      TeamsPut(w, cfg, league, kind, ts[1..], mid);
      var first, rest := VisitsOf(w, kind, [ts[0]], s.seenTeams), VisitsOf(w, kind, ts[1..], mid.seenTeams);
      VisitsCons(w, kind, ts, s.seenTeams);
      PlayedThen(w, cfg, first, rest, s, mid, SyncTeams(w, cfg, league, kind, ts, s).0);
    }
  }

  lemma VisitsCons(w: World, kind: Kind, ts: seq<int>, seen: set<int>)
    requires ts != []
    ensures VisitsOf(w, kind, ts, seen) ==
            VisitsOf(w, kind, [ts[0]], seen) + VisitsOf(w, kind, ts[1..], seen + {ts[0]})
  {
    var t, rest := ts[0], ListVisits(w, ts[1..], seen + {ts[0]});
    assert [t][1..] == [] && ListVisits(w, [], seen + {t}) == [];
    if t !in seen && w.teamSaved(t) {
      assert ListVisits(w, [t], seen) == [t] + [] == [t];
    } else {
      assert ListVisits(w, [t], seen) == [] + [] == [] && ListVisits(w, ts, seen) == [] + rest == rest;
    }
  }

  function StepVisits(w: World, index: map<int, Meta>, id: int, seen: set<int>): seq<int> {
    if HasList(w, index, id) && !IsCup(index, id) then ListVisits(w, w.teams(id).value, seen) else []
  }

  lemma StepPut(w: World, cfg: Config, index: map<int, Meta>, id: int, p: Progress)
    requires !p.quotaHit && !StepTarget(w, cfg, index, id, p).quotaHit
    ensures var q := StepTarget(w, cfg, index, id, p);
            var visits := StepVisits(w, index, id, p.s.seenTeams);
            && p.s.errors <= q.s.errors
            && Played(w, cfg, visits, p.s, q.s) && (q.s.errors == p.s.errors ==> AllPut(w, cfg, visits))
  {
    if HasList(w, index, id) {
      var l := Logged(p.s.(leagues := p.s.leagues + {Ext(id)}), w.teams(id));
      TeamsPut(w, cfg, id, index[id].kind, w.teams(id).value, l);
    }
  }

  lemma {:induction false} TargetsPut(w: World, cfg: Config, index: map<int, Meta>, targets: seq<int>, p: Progress)
    requires !p.quotaHit && !SyncTargets(w, cfg, index, targets, p).quotaHit
    ensures var q := SyncTargets(w, cfg, index, targets, p);
            var visits := Visits(w, index, targets, p.s.seenTeams);
            && p.s.errors <= q.s.errors
            && Played(w, cfg, visits, p.s, q.s) && (q.s.errors == p.s.errors ==> AllPut(w, cfg, visits))
    decreases targets
  {
    if targets != [] {
      var id, mid := targets[0], StepTarget(w, cfg, index, targets[0], p);
      if mid.quotaHit {
        Unstopped(w, cfg, index, targets[1..], mid);
      } else {
        StepPut(w, cfg, index, id, p);
        StepSeesPlayer(w, cfg, index, id, p, 0);
        TargetsPut(w, cfg, index, targets[1..], mid);
        var first := StepVisits(w, index, id, p.s.seenTeams);
        var rest := Visits(w, index, targets[1..], mid.s.seenTeams);
        PlayedThen(w, cfg, first, rest, p.s, mid.s, SyncTargets(w, cfg, index, targets, p).s);
        assert first + rest == Visits(w, index, targets, p.s.seenTeams);
      }
    }
  }

  /**
   * Main result. After every run without a quota stop, whatever failed in it, a player is on the last team of the
   * walk that the replies received put the player on, and is not free; every other row keeps its team.
   */
  lemma PlayersEndOnTheirLastTeam(w: World, cfg: Config, index: map<int, Meta>, ids: seq<int>, s: State, k: Key)
    requires !SyncAll(w, cfg, Got(index), ids, s).progress.quotaHit
    ensures var after := SyncAll(w, cfg, Got(index), ids, s).progress.s;
            var visits := Visits(w, index, TargetOrder(index, ids), {});
            match if k.Ext? then LastTeam(w, cfg, visits, k.id) else None
            case Some(t) => RowIn(after.players, k) == Some(Player(Ext(t), false))
            case None => TeamIn(after, k) == TeamIn(s, k)
  {
    var targets, p := TargetOrder(index, ids), Opening(index, s);
    var q := SyncTargets(w, cfg, index, targets, p);
    TargetsPut(w, cfg, index, targets, p);
    assert RowIn(p.s.players, k) == RowIn(s.players, k);
    if k.Ext? && LastTeam(w, cfg, Visits(w, index, targets, {}), k.id).Some? {
      LastTeamLists(w, cfg, Visits(w, index, targets, {}), k.id);
      PutIsSeen(w, cfg, index, targets, p, k.id);
    }
  }

  lemma {:induction false} LastTeamLists(w: World, cfg: Config, visits: seq<int>, p: int)
    ensures var last := LastTeam(w, cfg, visits, p);
            last.Some? ==> last.value in visits && p in PutOn(w, cfg, last.value)
    ensures forall t | t in visits && p in PutOn(w, cfg, t) :: LastTeam(w, cfg, visits, p).Some?
  {
    if visits != [] {
      var n := |visits| - 1;
      LastTeamLists(w, cfg, visits[..n], p);
      assert visits == visits[..n] + [visits[n]];
    }
  }

  /** A player put on a team has been seen, so the sweep passes the player over. */
  lemma PutIsSeen(w: World, cfg: Config, index: map<int, Meta>, targets: seq<int>, p: Progress, x: int)
    requires !p.quotaHit && !SyncTargets(w, cfg, index, targets, p).quotaHit && p.s.seenTeams == {}
    requires LastTeam(w, cfg, Visits(w, index, targets, {}), x).Some?
    ensures x in SyncTargets(w, cfg, index, targets, p).s.seenPlayers
  {
    var visits := Visits(w, index, targets, {});
    LastTeamLists(w, cfg, visits, x);
    VisitsAreAttended(w, index, targets, {});
    TargetsSee(w, cfg, index, targets, p, x);
    var t := LastTeam(w, cfg, visits, x).value;
    assert t !in {} && Attended(w, index, targets, t) && x in SquadOf(w, cfg, t);
  }

  lemma {:induction false} LastTeamIsLister(w: World, cfg: Config, visits: seq<int>, p: int)
    requires AllPut(w, cfg, visits)
    ensures LastTeam(w, cfg, visits, p) == LastLister(w, cfg, visits, p)
  {
    if visits != [] {
      var n := |visits| - 1;
      assert visits[n] in visits && forall t | t in visits[..n] :: t in visits;
      LastTeamIsLister(w, cfg, visits[..n], p);
    }
  }

  /** After a clean run it is the last attended team whose replies list the player; one nobody lists keeps the team. */
  lemma CleanRunPlayers(w: World, cfg: Config, index: map<int, Meta>, ids: seq<int>, s: State, p: int)
    requires Clean(SyncAll(w, cfg, Got(index), ids, s))
    ensures var after := SyncAll(w, cfg, Got(index), ids, s).progress.s;
            match LastLister(w, cfg, Visits(w, index, TargetOrder(index, ids), {}), p)
            case Some(t) => RowIn(after.players, Ext(p)) == Some(Player(Ext(t), false))
            case None => TeamIn(after, Ext(p)) == TeamIn(s, Ext(p))
  {
    TargetsPut(w, cfg, index, TargetOrder(index, ids), Opening(index, s));
    LastTeamIsLister(w, cfg, Visits(w, index, TargetOrder(index, ids), {}), p);
    PlayersEndOnTheirLastTeam(w, cfg, index, ids, s, Ext(p));
  }
}
