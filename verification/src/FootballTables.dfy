/** What football sync runs leave in the tables: which league owns a team, and which players are free agents. */
module FootballTables {
  import opened Collections
  import opened Wrappers
  import opened FootballSync

  // ---------------------------------------------------------------- reference definitions

  /** The run gets this target's team list. */
  predicate HasList(w: World, index: map<int, Meta>, league: int) {
    league in index && index[league].season.Some? && w.leagueSaved(league) && w.teams(league).Got?
  }

  predicate Lists(w: World, index: map<int, Meta>, league: int, t: int) {
    HasList(w, index, league) && t in w.teams(league).value
  }

  /** The first of the targets whose fetched list has the team. */
  function First(w: World, index: map<int, Meta>, targets: seq<int>, t: int): Option<int> {
    if targets == [] then None
    else if Lists(w, index, targets[0], t) then Some(targets[0])
    else First(w, index, targets[1..], t)
  }

  function PageItems(pages: seq<Reply<seq<int>>>): set<int> {
    if pages == [] || !pages[0].Got? then {} else SetOf(pages[0].value) + PageItems(pages[1..])
  }

  predicate AllGot(pages: seq<Reply<seq<int>>>) { pages == [] || (pages[0].Got? && AllGot(pages[1..])) }

  /** Everyone the replies received for a team list: pages before the first failing one, and the roster if reached. */
  function SquadOf(w: World, cfg: Config, t: int): set<int> {
    PageItems(Replies(w, t)) +
    if AllGot(Replies(w, t)) && cfg.fetchSquads && w.squad(t).Got? then SetOf(w.squad(t).value) else {}
  }

  /** A team's squad is asked for when the first target listing it is no cup and its own row could be written. */
  predicate Attended(w: World, index: map<int, Meta>, targets: seq<int>, t: int) {
    var first := First(w, index, targets, t);
    first.Some? && !IsCup(index, first.value) && w.teamSaved(t)
  }

  /** Some reply that the run received lists the player. */
  ghost predicate Listed(w: World, cfg: Config, index: map<int, Meta>, targets: seq<int>, seen: set<int>, p: int) {
    exists t :: t !in seen && Attended(w, index, targets, t) && p in SquadOf(w, cfg, t)
  }

  function OwnerIn(s: State, k: Key): Option<Key> { if k in s.teams then Some(s.teams[k]) else None }

  /** The owner a team has after the targets are walked, by the first of them that lists it. */
  function Owner(w: World, index: map<int, Meta>, targets: seq<int>, t: int, before: Option<Key>): Option<Key> {
    match First(w, index, targets, t)
    case None => before
    case Some(league) => if IsCup(index, league) && before.Some? then before else Some(Ext(league))
  }

  ghost predicate Playing(s: State) {
    forall p | p in s.seenPlayers :: Ext(p) in s.players && !s.players[Ext(p)].free
  }

  // ---------------------------------------------------------------- one squad

  /** Players were written; everyone added is seen and, without an error, playing. */
  ghost predicate Wrote(a: State, b: State, added: set<int>) {
    && b.teams == a.teams && b.seenTeams == a.seenTeams && a.errors <= b.errors
    && SetOf(b.seenPlayers) == SetOf(a.seenPlayers) + added
    && (b.errors == a.errors && Playing(a) ==> Playing(b))
  }

  lemma WroteThen(a: State, b: State, c: State, x: set<int>, y: set<int>)
    requires Wrote(a, b, x) && Wrote(b, c, y)
    ensures Wrote(a, c, x + y)
  {
  }

  lemma WroteOne(a: State, b: State, t: int, p: int)
    requires b.teams == a.teams && b.seenTeams == a.seenTeams && a.errors <= b.errors
    requires b.seenPlayers == a.seenPlayers + [p]
    requires b.players == a.players[Ext(p) := Player(Ext(t), false)] || b.errors > a.errors
    ensures Wrote(a, b, {p})
  {
    assert SetOf(a.seenPlayers + [p]) == SetOf(a.seenPlayers) + {p};
  }

  lemma {:induction false} PlayersWrite(w: World, t: int, items: seq<int>, s: State)
    ensures Wrote(s, SavePlayers(w, t, items, s), SetOf(items))
    decreases items
  {
    if items != [] {
      var mid := SavePlayer(w, t, items[0], s);
      WroteOne(s, mid, t, items[0]);
      PlayersWrite(w, t, items[1..], mid);
      WroteThen(s, mid, SavePlayers(w, t, items[1..], mid), {items[0]}, SetOf(items[1..]));
      assert items == [items[0]] + items[1..];
      assert SetOf(items) == {items[0]} + SetOf(items[1..]);
    }
  }

  lemma {:induction false} PagesWrite(w: World, t: int, pages: seq<Reply<seq<int>>>, s: State, here: set<int>)
    ensures var f := FetchPages(w, t, pages, s, here);
            && Wrote(s, f.s, PageItems(pages))
            && (f.signal == Fine <==> AllGot(pages))
            && (f.signal == Fine ==> f.here == here + PageItems(pages))
    decreases pages
  {
    if pages != [] && pages[0].Got? {
      var mid := SavePlayers(w, t, pages[0].value, Logged(s, pages[0]));
      PlayersWrite(w, t, pages[0].value, Logged(s, pages[0]));
      PagesWrite(w, t, pages[1..], mid, here + SetOf(pages[0].value));
      WroteThen(s, mid, FetchPages(w, t, pages, s, here).s, SetOf(pages[0].value), PageItems(pages[1..]));
    }
  }

  lemma {:induction false} RosterWrites(w: World, t: int, squad: seq<int>, here: set<int>, s: State)
    requires here <= SetOf(s.seenPlayers)
    ensures Wrote(s, SaveRoster(w, t, squad, here, s), SetOf(squad))
    decreases squad
  {
    if squad != [] {
      var mid := if squad[0] in here then s else SaveRosterPlayer(w, t, squad[0], s);
      if squad[0] !in here { WroteOne(s, mid, t, squad[0]); }
      assert Wrote(s, mid, {squad[0]});
      RosterWrites(w, t, squad[1..], here, mid);
      WroteThen(s, mid, SaveRoster(w, t, squad[1..], here, mid), {squad[0]}, SetOf(squad[1..]));
      assert squad == [squad[0]] + squad[1..];
      assert SetOf(squad) == {squad[0]} + SetOf(squad[1..]);
    }
  }

  /** However the squad's requests end, exactly the players of the replies received are seen. */
  lemma SquadWrites(w: World, cfg: Config, t: int, s: State)
    ensures Wrote(s, SyncSquad(w, cfg, t, s).0, SquadOf(w, cfg, t))
  {
    var f := FetchPages(w, t, Replies(w, t), s, {});
    PagesWrite(w, t, Replies(w, t), s, {});
    if f.signal == Fine && cfg.fetchSquads && w.squad(t).Got? {
      var l := Logged(f.s, w.squad(t));
      var after := SaveRoster(w, t, w.squad(t).value, f.here, l);
      RosterWrites(w, t, w.squad(t).value, f.here, l);
      WroteThen(s, f.s, after, PageItems(Replies(w, t)), SetOf(w.squad(t).value));
    }
  }

  // ---------------------------------------------------------------- owners

  /** A competition took these teams: it owns them, unless it is a cup and the team was there before. */
  ghost predicate Took(league: int, kind: Kind, added: set<int>, a: State, b: State) {
    && (forall k: Key | !(k.Ext? && k.id in added) :: OwnerIn(b, k) == OwnerIn(a, k))
    && (forall t | t in added ::
          OwnerIn(b, Ext(t)) == if kind == Cup && Ext(t) in a.teams then OwnerIn(a, Ext(t)) else Some(Ext(league)))
  }

  lemma TookThen(league: int, kind: Kind, x: set<int>, y: set<int>, a: State, b: State, c: State)
    requires Took(league, kind, x, a, b) && Took(league, kind, y, b, c) && x !! y
    ensures Took(league, kind, x + y, a, c)
  {
    forall t | t in x + y
      ensures OwnerIn(c, Ext(t)) == if kind == Cup && Ext(t) in a.teams then OwnerIn(a, Ext(t)) else Some(Ext(league))
    {
      if t in y { assert OwnerIn(b, Ext(t)) == OwnerIn(a, Ext(t)); }
    }
  }

  lemma TeamTakes(w: World, cfg: Config, league: int, kind: Kind, t: int, s: State)
    ensures var after := SyncTeam(w, cfg, league, kind, t, s).0;
            && s.errors <= after.errors && after.seenTeams == s.seenTeams + {t}
            && (after.errors == s.errors ==> Took(league, kind, {t} - s.seenTeams, s, after))
            && (after.errors == s.errors && Playing(s) ==> Playing(after))
  {
    if t in s.seenTeams {
      assert {t} - s.seenTeams == {};
    } else {
      assert {t} - s.seenTeams == {t};
      SquadWrites(w, cfg, t, UpsertTeam(t, league, kind, s.(seenTeams := s.seenTeams + {t})));
    }
  }

  /** The teams taken before the list ends or the quota stops it. */
  lemma {:induction false} TeamsTake(w: World, cfg: Config, league: int, kind: Kind, ts: seq<int>, s: State)
    returns (added: set<int>)
    ensures var (after, signal) := SyncTeams(w, cfg, league, kind, ts, s);
            && s.errors <= after.errors && added <= SetOf(ts) - s.seenTeams
            && (signal == Fine ==> after.seenTeams == s.seenTeams + SetOf(ts) && added == SetOf(ts) - s.seenTeams)
            && (after.errors == s.errors ==> Took(league, kind, added, s, after))
            && (after.errors == s.errors && Playing(s) ==> Playing(after))
    decreases ts
  {
    added := {};
    if ts != [] {
      var (mid, signal) := SyncTeam(w, cfg, league, kind, ts[0], s);
      TeamTakes(w, cfg, league, kind, ts[0], s);
      NewTeams(ts, s.seenTeams);
      added := {ts[0]} - s.seenTeams;
      if signal != Quota {
        var rest := TeamsTake(w, cfg, league, kind, ts[1..], mid);
        var after := SyncTeams(w, cfg, league, kind, ts, s).0;
        if after.errors == s.errors {
          TookThen(league, kind, added, rest, s, mid, after);
        }
        added := added + rest;
      }
    }
  }

  lemma NewTeams(ts: seq<int>, seen: set<int>)
    requires ts != []
    ensures SetOf(ts) == {ts[0]} + SetOf(ts[1..])
    ensures SetOf(ts) - seen == ({ts[0]} - seen) + (SetOf(ts[1..]) - (seen + {ts[0]}))
  {
    assert ts == [ts[0]] + ts[1..];
  }

  /** One target, however it ends. */
  lemma StepTakes(w: World, cfg: Config, index: map<int, Meta>, id: int, p: Progress) returns (added: set<int>)
    requires !p.quotaHit
    ensures var q := StepTarget(w, cfg, index, id, p);
            && p.s.errors <= q.s.errors
            && (q.s.errors == p.s.errors ==>
                  && id in index && Took(id, index[id].kind, added, p.s, q.s)
                  && (Playing(p.s) ==> Playing(q.s))
                  && (added != {} ==> HasList(w, index, id) && added <= SetOf(w.teams(id).value) - p.s.seenTeams)
                  && (!q.quotaHit ==> HasList(w, index, id) && added == SetOf(w.teams(id).value) - p.s.seenTeams))
  {
    added := {};
    if id in index && index[id].season.Some? && w.leagueSaved(id) && w.teams(id).Got? {
      var l := Logged(p.s.(leagues := p.s.leagues + {Ext(id)}), w.teams(id));
      added := TeamsTake(w, cfg, id, index[id].kind, w.teams(id).value, l);
    }
  }

  // ---------------------------------------------------------------- who is seen

  function SquadsOf(w: World, cfg: Config, ts: set<int>): set<int> {
    set t, p | t in ts && w.teamSaved(t) && p in SquadOf(w, cfg, t) :: p
  }

  /** A competition visited these teams; a league asked for their squads. */
  ghost predicate Saw(w: World, cfg: Config, kind: Kind, added: set<int>, a: State, b: State) {
    && b.seenTeams == a.seenTeams + added
    && SetOf(b.seenPlayers) == SetOf(a.seenPlayers) + if kind == League then SquadsOf(w, cfg, added) else {}
  }

  lemma SquadsAdd(w: World, cfg: Config, x: set<int>, y: set<int>)
    ensures SquadsOf(w, cfg, x + y) == SquadsOf(w, cfg, x) + SquadsOf(w, cfg, y)
  {
  }

  lemma SquadsOfOne(w: World, cfg: Config, t: int)
    ensures SquadsOf(w, cfg, {t}) == if w.teamSaved(t) then SquadOf(w, cfg, t) else {}
  {
    forall p | w.teamSaved(t) && p in SquadOf(w, cfg, t) ensures p in SquadsOf(w, cfg, {t}) { assert t in {t}; }
  }

  lemma SawThen(w: World, cfg: Config, kind: Kind, x: set<int>, y: set<int>, a: State, b: State, c: State)
    requires Saw(w, cfg, kind, x, a, b) && Saw(w, cfg, kind, y, b, c)
    ensures Saw(w, cfg, kind, x + y, a, c)
  {
    SquadsAdd(w, cfg, x, y);
  }

  lemma TeamSees(w: World, cfg: Config, league: int, kind: Kind, t: int, s: State)
    ensures Saw(w, cfg, kind, {t} - s.seenTeams, s, SyncTeam(w, cfg, league, kind, t, s).0)
  {
    if t in s.seenTeams {
      assert {t} - s.seenTeams == {} && SquadsOf(w, cfg, {}) == {};
    } else {
      assert {t} - s.seenTeams == {t};
      SquadWrites(w, cfg, t, UpsertTeam(t, league, kind, s.(seenTeams := s.seenTeams + {t})));
      SquadsOfOne(w, cfg, t);
    }
  }

  lemma {:induction false} TeamsSee(w: World, cfg: Config, league: int, kind: Kind, ts: seq<int>, s: State)
    ensures var (after, signal) := SyncTeams(w, cfg, league, kind, ts, s);
            signal != Quota ==> Saw(w, cfg, kind, SetOf(ts) - s.seenTeams, s, after)
    decreases ts
  {
    if ts == [] {
      assert SetOf(ts) - s.seenTeams == {} && SquadsOf(w, cfg, {}) == {};
    } else {
      var (mid, signal) := SyncTeam(w, cfg, league, kind, ts[0], s);
      TeamSees(w, cfg, league, kind, ts[0], s);
      NewTeams(ts, s.seenTeams);
      if signal != Quota && SyncTeams(w, cfg, league, kind, ts, s).1 != Quota {
        TeamsSee(w, cfg, league, kind, ts[1..], mid);
        var x, y := {ts[0]} - s.seenTeams, SetOf(ts[1..]) - mid.seenTeams;
        assert mid.seenTeams == s.seenTeams + {ts[0]};
        SawThen(w, cfg, kind, x, y, s, mid, SyncTeams(w, cfg, league, kind, ts, s).0);
      }
    }
  }

  /** A target that does not hit the quota: either its list is walked, or nobody is seen. */
  lemma StepSees(w: World, cfg: Config, index: map<int, Meta>, id: int, p: Progress)
    requires !p.quotaHit
    ensures var q := StepTarget(w, cfg, index, id, p);
            !q.quotaHit ==>
              if HasList(w, index, id) then
                && Saw(w, cfg, index[id].kind, SetOf(w.teams(id).value) - p.s.seenTeams, p.s, q.s)
                && q.synced == p.synced + if IsCup(index, id) then {} else {Ext(id)}
              else
                q.s.seenTeams == p.s.seenTeams && q.s.seenPlayers == p.s.seenPlayers && q.synced == p.synced
  {
    if HasList(w, index, id) {
      var l := Logged(p.s.(leagues := p.s.leagues + {Ext(id)}), w.teams(id));
      TeamsSee(w, cfg, id, index[id].kind, w.teams(id).value, l);
      NeverThrows(w, cfg, id, index[id].kind, w.teams(id).value, l);
    }
  }

  lemma {:induction false} NeverThrows(w: World, cfg: Config, league: int, kind: Kind, ts: seq<int>, s: State)
    ensures SyncTeams(w, cfg, league, kind, ts, s).1 != Threw
    decreases ts
  {
    if ts != [] {
      NeverThrows(w, cfg, league, kind, ts[1..], SyncTeam(w, cfg, league, kind, ts[0], s).0);
    }
  }

  lemma AttendedCons(w: World, index: map<int, Meta>, targets: seq<int>, t: int)
    requires targets != []
    ensures Attended(w, index, targets, t) <==>
            if Lists(w, index, targets[0], t) then !IsCup(index, targets[0]) && w.teamSaved(t)
            else Attended(w, index, targets[1..], t)
  {
  }

  /** The teams a target adds to those seen. */
  function NewOf(w: World, index: map<int, Meta>, id: int, seen: set<int>): set<int> {
    if HasList(w, index, id) then SetOf(w.teams(id).value) - seen else {}
  }

  lemma ListedBefore(w: World, cfg: Config, index: map<int, Meta>, targets: seq<int>, seen: set<int>, x: int)
    requires targets != [] && Listed(w, cfg, index, targets, seen, x)
    ensures var added := NewOf(w, index, targets[0], seen);
            || (!IsCup(index, targets[0]) && x in SquadsOf(w, cfg, added))
            || Listed(w, cfg, index, targets[1..], seen + added, x)
  {
    var t :| t !in seen && Attended(w, index, targets, t) && x in SquadOf(w, cfg, t);
    AttendedCons(w, index, targets, t);
    if !Lists(w, index, targets[0], t) {
      assert t !in seen + NewOf(w, index, targets[0], seen) && Attended(w, index, targets[1..], t);
    }
  }

  lemma ListedAfter(w: World, cfg: Config, index: map<int, Meta>, targets: seq<int>, seen: set<int>, x: int)
    requires targets != []
    requires var added := NewOf(w, index, targets[0], seen);
             || (!IsCup(index, targets[0]) && x in SquadsOf(w, cfg, added))
             || Listed(w, cfg, index, targets[1..], seen + added, x)
    ensures Listed(w, cfg, index, targets, seen, x)
  {
    var added := NewOf(w, index, targets[0], seen);
    if !IsCup(index, targets[0]) && x in SquadsOf(w, cfg, added) {
      var t :| t in added && w.teamSaved(t) && x in SquadOf(w, cfg, t);
      AttendedCons(w, index, targets, t);
      assert t !in seen && Attended(w, index, targets, t);
    } else {
      var t :| t !in seen + added && Attended(w, index, targets[1..], t) && x in SquadOf(w, cfg, t);
      AttendedCons(w, index, targets, t);
      assert t !in seen && Attended(w, index, targets, t);
    }
  }

  lemma StepSeesPlayer(w: World, cfg: Config, index: map<int, Meta>, id: int, p: Progress, x: int)
    requires !p.quotaHit && !StepTarget(w, cfg, index, id, p).quotaHit
    ensures var q := StepTarget(w, cfg, index, id, p);
            && q.s.seenTeams == p.s.seenTeams + NewOf(w, index, id, p.s.seenTeams)
            && (x in q.s.seenPlayers <==>
                  || x in p.s.seenPlayers
                  || (!IsCup(index, id) && x in SquadsOf(w, cfg, NewOf(w, index, id, p.s.seenTeams))))
  {
    var q := StepTarget(w, cfg, index, id, p);
    StepSees(w, cfg, index, id, p);
    assert x in q.s.seenPlayers <==> x in SetOf(q.s.seenPlayers);
    assert x in p.s.seenPlayers <==> x in SetOf(p.s.seenPlayers);
  }

  /** What a walk without a quota stop has seen and is to sweep, errors or not. */
  lemma {:induction false} TargetsSee(w: World, cfg: Config, index: map<int, Meta>, targets: seq<int>, p: Progress,
                                      x: int)
    requires !p.quotaHit && !SyncTargets(w, cfg, index, targets, p).quotaHit
    ensures var q := SyncTargets(w, cfg, index, targets, p);
            && (x in q.s.seenPlayers <==>
                  x in p.s.seenPlayers || Listed(w, cfg, index, targets, p.s.seenTeams, x))
            && (Ext(x) in q.synced <==>
                  Ext(x) in p.synced || (x in targets && HasList(w, index, x) && !IsCup(index, x)))
            && (x in q.s.seenTeams <==> x in p.s.seenTeams || First(w, index, targets, x).Some?)
    decreases targets
  {
    if targets != [] {
      var id, mid := targets[0], StepTarget(w, cfg, index, targets[0], p);
      if mid.quotaHit {
        Unstopped(w, cfg, index, targets[1..], mid);
      } else {
        assert targets == [id] + targets[1..];
        StepSees(w, cfg, index, id, p);
        StepSeesPlayer(w, cfg, index, id, p, x);
        TargetsSee(w, cfg, index, targets[1..], mid, x);
        if Listed(w, cfg, index, targets, p.s.seenTeams, x) {
          ListedBefore(w, cfg, index, targets, p.s.seenTeams, x);
        } else if x in SyncTargets(w, cfg, index, targets, p).s.seenPlayers && x !in p.s.seenPlayers {
          ListedAfter(w, cfg, index, targets, p.s.seenTeams, x);
        }
      }
    }
  }

  // ---------------------------------------------------------------- the walk over the targets

  /** What a walk without errors and without a quota stop does to the owners. */
  ghost predicate Walked(w: World, index: map<int, Meta>, targets: seq<int>, p: Progress, q: Progress) {
    && (forall t :: OwnerIn(q.s, Ext(t)) ==
                    if t in p.s.seenTeams then OwnerIn(p.s, Ext(t))
                    else Owner(w, index, targets, t, OwnerIn(p.s, Ext(t))))
    && (forall row :: OwnerIn(q.s, Local(row)) == OwnerIn(p.s, Local(row)))
    && (forall id | id in targets :: HasList(w, index, id))
    && (Playing(p.s) ==> Playing(q.s))
  }

  lemma OwnersCons(w: World, index: map<int, Meta>, targets: seq<int>, p: State, mid: State, q: State, t: int)
    requires targets != [] && HasList(w, index, targets[0])
    requires mid.seenTeams == p.seenTeams + NewOf(w, index, targets[0], p.seenTeams)
    requires Took(targets[0], index[targets[0]].kind, NewOf(w, index, targets[0], p.seenTeams), p, mid)
    requires OwnerIn(q, Ext(t)) ==
             if t in mid.seenTeams then OwnerIn(mid, Ext(t)) else Owner(w, index, targets[1..], t, OwnerIn(mid, Ext(t)))
    ensures OwnerIn(q, Ext(t)) ==
            if t in p.seenTeams then OwnerIn(p, Ext(t)) else Owner(w, index, targets, t, OwnerIn(p, Ext(t)))
  {
    assert t !in NewOf(w, index, targets[0], p.seenTeams) ==> OwnerIn(mid, Ext(t)) == OwnerIn(p, Ext(t));
  }

  lemma WalkedCons(w: World, index: map<int, Meta>, targets: seq<int>, p: Progress, mid: Progress, q: Progress)
    requires targets != [] && HasList(w, index, targets[0])
    requires mid.s.seenTeams == p.s.seenTeams + NewOf(w, index, targets[0], p.s.seenTeams)
    requires Took(targets[0], index[targets[0]].kind, NewOf(w, index, targets[0], p.s.seenTeams), p.s, mid.s)
    requires Playing(p.s) ==> Playing(mid.s)
    requires Walked(w, index, targets[1..], mid, q)
    ensures Walked(w, index, targets, p, q)
  {
    assert targets == [targets[0]] + targets[1..];
    forall t
      ensures OwnerIn(q.s, Ext(t)) ==
              if t in p.s.seenTeams then OwnerIn(p.s, Ext(t))
              else Owner(w, index, targets, t, OwnerIn(p.s, Ext(t)))
    {
      OwnersCons(w, index, targets, p.s, mid.s, q.s, t);
    }
  }

  lemma {:induction false} TargetsWalk(w: World, cfg: Config, index: map<int, Meta>, targets: seq<int>, p: Progress)
    requires !p.quotaHit
    ensures var q := SyncTargets(w, cfg, index, targets, p);
            && p.s.errors <= q.s.errors
            && (!q.quotaHit && q.s.errors == p.s.errors ==> Walked(w, index, targets, p, q))
    decreases targets
  {
    if targets != [] {
      var mid := StepTarget(w, cfg, index, targets[0], p);
      var added := StepTakes(w, cfg, index, targets[0], p);
      if mid.quotaHit {
        Unstopped(w, cfg, index, targets[1..], mid);
      } else {
        TargetsWalk(w, cfg, index, targets[1..], mid);
        var q := SyncTargets(w, cfg, index, targets, p);
        if !q.quotaHit && q.s.errors == p.s.errors {
          StepSeesPlayer(w, cfg, index, targets[0], p, 0);
          WalkedCons(w, index, targets, p, mid, q);
        }
      }
    }
  }

  /** Without a quota stop a target is processed if the run got its team list, and failed otherwise. */
  lemma {:induction false} SettledByTheirLists(w: World, cfg: Config, index: map<int, Meta>, targets: seq<int>,
                                               p: Progress, id: int)
    requires !p.quotaHit && !SyncTargets(w, cfg, index, targets, p).quotaHit
    ensures var q := SyncTargets(w, cfg, index, targets, p);
            var got := id in index && index[id].season.Some? && w.leagueSaved(id) && w.teams(id).Got?;
            && (id in q.processed <==> id in p.processed || (id in targets && got))
            && (id in q.failed <==> id in p.failed || (id in targets && !got))
            && (got && id in targets ==> Ext(id) in q.s.leagues)
            && p.s.leagues <= q.s.leagues
    decreases targets
  {
    if targets != [] {
      var first, mid := targets[0], StepTarget(w, cfg, index, targets[0], p);
      if mid.quotaHit {
        Unstopped(w, cfg, index, targets[1..], mid);
      } else {
        assert targets == [first] + targets[1..];
        StepByItsList(w, cfg, index, first, p);
        SettledByTheirLists(w, cfg, index, targets[1..], mid, id);
      }
    }
  }

  lemma StepByItsList(w: World, cfg: Config, index: map<int, Meta>, id: int, p: Progress)
    requires !p.quotaHit && !StepTarget(w, cfg, index, id, p).quotaHit
    ensures var q := StepTarget(w, cfg, index, id, p);
            if HasList(w, index, id) then
              && q.processed == p.processed + [id] && q.failed == p.failed
              && q.s.leagues == p.s.leagues + {Ext(id)}
            else
              q.processed == p.processed && q.failed == p.failed + [id] && p.s.leagues <= q.s.leagues
  {
    if HasList(w, index, id) {
      var l := Logged(p.s.(leagues := p.s.leagues + {Ext(id)}), w.teams(id));
      NeverThrows(w, cfg, id, index[id].kind, w.teams(id).value, l);
      LeaguesStay(w, cfg, id, index[id].kind, w.teams(id).value, l);
    }
  }

  lemma {:induction false} PlayersLeaveLeagues(w: World, t: int, items: seq<int>, s: State)
    ensures SavePlayers(w, t, items, s).leagues == s.leagues
    decreases items
  {
    if items != [] { PlayersLeaveLeagues(w, t, items[1..], SavePlayer(w, t, items[0], s)); }
  }

  lemma {:induction false} PagesLeaveLeagues(w: World, t: int, pages: seq<Reply<seq<int>>>, s: State, here: set<int>)
    ensures FetchPages(w, t, pages, s, here).s.leagues == s.leagues
    decreases pages
  {
    if pages != [] && pages[0].Got? {
      PlayersLeaveLeagues(w, t, pages[0].value, Logged(s, pages[0]));
      PagesLeaveLeagues(w, t, pages[1..], SavePlayers(w, t, pages[0].value, Logged(s, pages[0])),
                        here + SetOf(pages[0].value));
    }
  }

  lemma {:induction false} RosterLeavesLeagues(w: World, t: int, squad: seq<int>, here: set<int>, s: State)
    ensures SaveRoster(w, t, squad, here, s).leagues == s.leagues
    decreases squad
  {
    if squad != [] {
      RosterLeavesLeagues(w, t, squad[1..], here, if squad[0] in here then s else SaveRosterPlayer(w, t, squad[0], s));
    }
  }

  lemma SquadLeavesLeagues(w: World, cfg: Config, t: int, s: State)
    ensures SyncSquad(w, cfg, t, s).0.leagues == s.leagues
  {
    var f := FetchPages(w, t, Replies(w, t), s, {});
    PagesLeaveLeagues(w, t, Replies(w, t), s, {});
    if f.signal == Fine && cfg.fetchSquads && w.squad(t).Got? {
      RosterLeavesLeagues(w, t, w.squad(t).value, f.here, Logged(f.s, w.squad(t)));
    }
  }

  lemma {:induction false} LeaguesStay(w: World, cfg: Config, league: int, kind: Kind, ts: seq<int>, s: State)
    ensures SyncTeams(w, cfg, league, kind, ts, s).0.leagues == s.leagues
    decreases ts
  {
    if ts != [] {
      SquadLeavesLeagues(w, cfg, ts[0], UpsertTeam(ts[0], league, kind, s.(seenTeams := s.seenTeams + {ts[0]})));
      LeaguesStay(w, cfg, league, kind, ts[1..], SyncTeam(w, cfg, league, kind, ts[0], s).0);
    }
  }

  // ---------------------------------------------------------------- owners after a clean run

  /** Neither an error nor a quota stop. */
  ghost predicate Clean(r: Outcome) { !r.fatal && !r.progress.quotaHit && r.progress.s.errors == 0 }

  lemma {:induction false} FirstOfTwoParts(w: World, index: map<int, Meta>, a: seq<int>, b: seq<int>, t: int)
    ensures First(w, index, a + b, t) ==
            if First(w, index, a, t).Some? then First(w, index, a, t) else First(w, index, b, t)
  {
    if a == [] {
      assert a + b == b;
    } else {
      assert (a + b)[1..] == a[1..] + b;
      FirstOfTwoParts(w, index, a[1..], b, t);
    }
  }

  lemma {:induction false} FirstIsTarget(w: World, index: map<int, Meta>, targets: seq<int>, t: int)
    ensures var f := First(w, index, targets, t);
            && (f.Some? ==> f.value in targets && Lists(w, index, f.value, t))
            && (f.None? ==> forall id | id in targets :: !Lists(w, index, id, t))
  {
    if targets != [] {
      FirstIsTarget(w, index, targets[1..], t);
      assert targets == [targets[0]] + targets[1..];
    }
  }

  lemma {:induction false} PartIsCup(index: map<int, Meta>, cups: bool, ids: seq<int>)
    ensures forall id :: id in Part(index, cups, ids) <==> id in ids && IsCup(index, id) == cups
  {
    if ids != [] {
      PartIsCup(index, cups, ids[1..]);
      assert ids == [ids[0]] + ids[1..];
    }
  }

  lemma OrderKeepsMembers(index: map<int, Meta>, ids: seq<int>)
    ensures forall id :: id in TargetOrder(index, ids) <==> id in ids
  {
    PartIsCup(index, false, ids);
    PartIsCup(index, true, ids);
  }

  /** In the sorted targets a league-type listing comes before any cup's. */
  lemma FirstLeagueWins(w: World, index: map<int, Meta>, ids: seq<int>, t: int)
    ensures var league := First(w, index, Part(index, false, ids), t);
            var first := First(w, index, TargetOrder(index, ids), t);
            && (league.Some? ==> first == league && !IsCup(index, league.value))
            && (league.None? ==> first == First(w, index, Part(index, true, ids), t))
            && (league.None? && first.Some? ==> IsCup(index, first.value))
  {
    FirstOfTwoParts(w, index, Part(index, false, ids), Part(index, true, ids), t);
    PartIsCup(index, false, ids);
    PartIsCup(index, true, ids);
    FirstIsTarget(w, index, Part(index, false, ids), t);
    FirstIsTarget(w, index, Part(index, true, ids), t);
  }

  /** The loop's starting point in a run. */
  function Opening(index: map<int, Meta>, s: State): Progress { Start(s).(s := Logged(Start(s).s, Got(index))) }

  lemma CleanRunWalks(w: World, cfg: Config, index: map<int, Meta>, ids: seq<int>, s: State)
    requires Clean(SyncAll(w, cfg, Got(index), ids, s))
    ensures var q := SyncTargets(w, cfg, index, TargetOrder(index, ids), Opening(index, s));
            && SyncAll(w, cfg, Got(index), ids, s).progress == q.(s := Sweep(q.synced, q.s))
            && !q.quotaHit && Walked(w, index, TargetOrder(index, ids), Opening(index, s), q) && Playing(q.s)
  {
    TargetsWalk(w, cfg, index, TargetOrder(index, ids), Opening(index, s));
  }

  lemma CleanOwner(w: World, cfg: Config, index: map<int, Meta>, ids: seq<int>, s: State, t: int)
    requires Clean(SyncAll(w, cfg, Got(index), ids, s))
    ensures OwnerIn(SyncAll(w, cfg, Got(index), ids, s).progress.s, Ext(t)) ==
            Owner(w, index, TargetOrder(index, ids), t, OwnerIn(s, Ext(t)))
    ensures forall id | id in ids :: HasList(w, index, id)
  {
    CleanRunWalks(w, cfg, index, ids, s);
    OrderKeepsMembers(index, ids);
  }

  /**
   * Main result. After a clean run a listed team belongs to the first league-type target that lists it; a cup never
   * moves a team that was there, and gives a new one a home only if no league lists it.
   */
  lemma TeamsBelongToTheirLeague(w: World, cfg: Config, index: map<int, Meta>, ids: seq<int>, s: State, t: int)
    requires Clean(SyncAll(w, cfg, Got(index), ids, s))
    ensures forall id | id in ids :: HasList(w, index, id)
    ensures var after := OwnerIn(SyncAll(w, cfg, Got(index), ids, s).progress.s, Ext(t));
            var league := First(w, index, Part(index, false, ids), t);
            var cup := First(w, index, Part(index, true, ids), t);
            after == if league.Some? then Some(Ext(league.value))
                     else if OwnerIn(s, Ext(t)).Some? || cup.None? then OwnerIn(s, Ext(t))
                     else Some(Ext(cup.value))
  {
    CleanOwner(w, cfg, index, ids, s, t);
    FirstLeagueWins(w, index, ids, t);
  }

  // ---------------------------------------------------------------- free agents

  lemma SweepDecides(synced: set<Key>, s: State, k: Key)
    requires k in s.players
    ensures var after := Sweep(synced, s);
            var owner := OwnerIn(s, s.players[k].team);
            && after.teams == s.teams && after.players.Keys == s.players.Keys
            && after.players[k].team == s.players[k].team
            && (after.players[k].free <==>
                  s.players[k].free || (owner.Some? && owner.value in synced && NotSeen(k, s.seenPlayers)))
  {
  }

  /** Writing players never frees one. */
  ghost predicate FreesNobody(a: State, b: State) {
    forall k | k in b.players && b.players[k].free :: k in a.players && a.players[k].free
  }

  lemma {:induction false} PlayersFreeNobody(w: World, t: int, items: seq<int>, s: State)
    ensures FreesNobody(s, SavePlayers(w, t, items, s))
    decreases items
  {
    if items != [] { PlayersFreeNobody(w, t, items[1..], SavePlayer(w, t, items[0], s)); }
  }

  lemma {:induction false} PagesFreeNobody(w: World, t: int, pages: seq<Reply<seq<int>>>, s: State, here: set<int>)
    ensures FreesNobody(s, FetchPages(w, t, pages, s, here).s)
    decreases pages
  {
    if pages != [] && pages[0].Got? {
      var l := Logged(s, pages[0]);
      PlayersFreeNobody(w, t, pages[0].value, l);
      PagesFreeNobody(w, t, pages[1..], SavePlayers(w, t, pages[0].value, l), here + SetOf(pages[0].value));
    }
  }

  lemma {:induction false} RosterFreesNobody(w: World, t: int, squad: seq<int>, here: set<int>, s: State)
    ensures FreesNobody(s, SaveRoster(w, t, squad, here, s))
    decreases squad
  {
    if squad != [] {
      RosterFreesNobody(w, t, squad[1..], here, if squad[0] in here then s else SaveRosterPlayer(w, t, squad[0], s));
    }
  }

  lemma SquadFreesNobody(w: World, cfg: Config, t: int, s: State)
    ensures FreesNobody(s, SyncSquad(w, cfg, t, s).0)
  {
    var f := FetchPages(w, t, Replies(w, t), s, {});
    PagesFreeNobody(w, t, Replies(w, t), s, {});
    if f.signal == Fine && cfg.fetchSquads && w.squad(t).Got? {
      RosterFreesNobody(w, t, w.squad(t).value, f.here, Logged(f.s, w.squad(t)));
    }
  }

  lemma {:induction false} TeamsFreeNobody(w: World, cfg: Config, league: int, kind: Kind, ts: seq<int>, s: State)
    ensures FreesNobody(s, SyncTeams(w, cfg, league, kind, ts, s).0)
    decreases ts
  {
    if ts != [] {
      SquadFreesNobody(w, cfg, ts[0], UpsertTeam(ts[0], league, kind, s.(seenTeams := s.seenTeams + {ts[0]})));
      TeamsFreeNobody(w, cfg, league, kind, ts[1..], SyncTeam(w, cfg, league, kind, ts[0], s).0);
    }
  }

  lemma {:induction false} TargetsFreeNobody(w: World, cfg: Config, index: map<int, Meta>, targets: seq<int>,
                                             p: Progress)
    ensures FreesNobody(p.s, SyncTargets(w, cfg, index, targets, p).s)
    decreases targets
  {
    if targets != [] {
      var id := targets[0];
      if !p.quotaHit && id in index && w.leagueSaved(id) && w.teams(id).Got? {
        var l := Logged(p.s.(leagues := p.s.leagues + {Ext(id)}), w.teams(id));
        TeamsFreeNobody(w, cfg, id, index[id].kind, w.teams(id).value, l);
      }
      TargetsFreeNobody(w, cfg, index, targets[1..], StepTarget(w, cfg, index, id, p));
    }
  }

  /** The player's team belongs to a league-type target whose list the run fetched. */
  ghost predicate InSweptLeague(w: World, index: map<int, Meta>, ids: seq<int>, s: State, k: Key)
    requires k in s.players
  {
    exists id ::
      id in ids && HasList(w, index, id) && !IsCup(index, id) && OwnerIn(s, s.players[k].team) == Some(Ext(id))
  }

  lemma {:induction false} SyncedAreExternal(w: World, cfg: Config, index: map<int, Meta>, targets: seq<int>,
                                             p: Progress)
    requires forall k | k in p.synced :: k.Ext?
    ensures forall k | k in SyncTargets(w, cfg, index, targets, p).synced :: k.Ext?
    decreases targets
  {
    if targets != [] { SyncedAreExternal(w, cfg, index, targets[1..], StepTarget(w, cfg, index, targets[0], p)); }
  }

  lemma SweptInRun(w: World, cfg: Config, index: map<int, Meta>, ids: seq<int>, s: State, k: Key)
    requires !SyncTargets(w, cfg, index, TargetOrder(index, ids), Opening(index, s)).quotaHit
    requires k in SyncTargets(w, cfg, index, TargetOrder(index, ids), Opening(index, s)).s.players
    ensures var q := SyncTargets(w, cfg, index, TargetOrder(index, ids), Opening(index, s));
            var owner := OwnerIn(q.s, q.s.players[k].team);
            owner.Some? && owner.value in q.synced <==> InSweptLeague(w, index, ids, q.s, k)
  {
    var q := SyncTargets(w, cfg, index, TargetOrder(index, ids), Opening(index, s));
    var owner := OwnerIn(q.s, q.s.players[k].team);
    OrderKeepsMembers(index, ids);
    SyncedAreExternal(w, cfg, index, TargetOrder(index, ids), Opening(index, s));
    if owner.Some? && owner.value.Ext? {
      TargetsSee(w, cfg, index, TargetOrder(index, ids), Opening(index, s), owner.value.id);
    }
  }

  /** No reply the run received lists anybody. */
  ghost predicate Nobody(w: World, cfg: Config, index: map<int, Meta>, targets: seq<int>) {
    forall x :: !Listed(w, cfg, index, targets, {}, x)
  }

  lemma NobodySeen(w: World, cfg: Config, index: map<int, Meta>, targets: seq<int>, p: Progress)
    requires !p.quotaHit && !SyncTargets(w, cfg, index, targets, p).quotaHit
    requires p.s.seenTeams == {} && p.s.seenPlayers == []
    ensures SyncTargets(w, cfg, index, targets, p).s.seenPlayers == [] <==> Nobody(w, cfg, index, targets)
  {
    var seen := SyncTargets(w, cfg, index, targets, p).s.seenPlayers;
    forall x ensures x in seen <==> Listed(w, cfg, index, targets, {}, x) {
      TargetsSee(w, cfg, index, targets, p, x);
    }
    if seen != [] { assert seen[0] in seen && Listed(w, cfg, index, targets, {}, seen[0]); }
  }

  /** Whom any run without a quota stop frees, errors or not, in terms of the state before the sweep. */
  lemma SweepInRun(w: World, cfg: Config, index: map<int, Meta>, ids: seq<int>, s: State, p: int)
    requires !SyncAll(w, cfg, Got(index), ids, s).progress.quotaHit
    requires Ext(p) in SyncAll(w, cfg, Got(index), ids, s).progress.s.players
    ensures var q := SyncTargets(w, cfg, index, TargetOrder(index, ids), Opening(index, s));
            var after := SyncAll(w, cfg, Got(index), ids, s).progress.s;
            && Ext(p) in q.s.players
            && (p in q.s.seenPlayers <==> Listed(w, cfg, index, TargetOrder(index, ids), {}, p))
            && (after.players[Ext(p)].free <==>
                  || q.s.players[Ext(p)].free
                  || (&& InSweptLeague(w, index, ids, after, Ext(p))
                      && !Listed(w, cfg, index, TargetOrder(index, ids), {}, p)
                      && !(p == -1 && Nobody(w, cfg, index, TargetOrder(index, ids)))))
  {
    var q := SyncTargets(w, cfg, index, TargetOrder(index, ids), Opening(index, s));
    assert Ext(p) in q.s.players;
    TargetsSee(w, cfg, index, TargetOrder(index, ids), Opening(index, s), p);
    SweptInRun(w, cfg, index, ids, s, Ext(p));
    SweepDecides(q.synced, q.s, Ext(p));
    NobodySeen(w, cfg, index, TargetOrder(index, ids), Opening(index, s));
    assert NotSeen(Ext(p), q.s.seenPlayers) <==> p !in q.s.seenPlayers && !(p == -1 && q.s.seenPlayers == []);
    SameOwner(w, index, ids, q.s, Sweep(q.synced, q.s), Ext(p));
  }

  lemma SameOwner(w: World, index: map<int, Meta>, ids: seq<int>, a: State, b: State, k: Key)
    requires k in a.players && k in b.players && a.teams == b.teams && a.players[k].team == b.players[k].team
    ensures InSweptLeague(w, index, ids, a, k) <==> InSweptLeague(w, index, ids, b, k)
  {
  }

  /**
   * Main result. After any run without a quota stop, whatever failed in it, a player who was not free before is free
   * exactly when the player's team belongs to a league-type target whose list was fetched and no reply the run
   * received lists the player. One id is apart: -1 stands for nobody in the query of a run that saw nobody.
   */
  lemma FreedIffNotReceived(w: World, cfg: Config, index: map<int, Meta>, ids: seq<int>, s: State, p: int)
    requires !SyncAll(w, cfg, Got(index), ids, s).progress.quotaHit
    requires Ext(p) in SyncAll(w, cfg, Got(index), ids, s).progress.s.players
    requires !(Ext(p) in s.players && s.players[Ext(p)].free)
    ensures var after := SyncAll(w, cfg, Got(index), ids, s).progress.s;
            after.players[Ext(p)].free <==>
              && InSweptLeague(w, index, ids, after, Ext(p))
              && !Listed(w, cfg, index, TargetOrder(index, ids), {}, p)
              && !(p == -1 && Nobody(w, cfg, index, TargetOrder(index, ids)))
  {
    SweepInRun(w, cfg, index, ids, s, p);
    TargetsFreeNobody(w, cfg, index, TargetOrder(index, ids), Opening(index, s));
  }

  /**
   * Main result. After a clean run every player with an external id on a team of a league-type target, free before
   * or not, is a free agent exactly when no fetched squad lists the player.
   */
  lemma FreeExactlyWhenUnlisted(w: World, cfg: Config, index: map<int, Meta>, ids: seq<int>, s: State, p: int,
                                league: int)
    requires Clean(SyncAll(w, cfg, Got(index), ids, s)) && p != -1 && league in ids && !IsCup(index, league)
    requires var after := SyncAll(w, cfg, Got(index), ids, s).progress.s;
             Ext(p) in after.players && OwnerIn(after, after.players[Ext(p)].team) == Some(Ext(league))
    ensures SyncAll(w, cfg, Got(index), ids, s).progress.s.players[Ext(p)].free <==>
            !Listed(w, cfg, index, TargetOrder(index, ids), {}, p)
  {
    CleanRunWalks(w, cfg, index, ids, s);
    SweepInRun(w, cfg, index, ids, s, p);
    OrderKeepsMembers(index, ids);
    assert HasList(w, index, league);
    assert InSweptLeague(w, index, ids, SyncAll(w, cfg, Got(index), ids, s).progress.s, Ext(p));
  }

  /**
   * When the first page of a team fails, everybody on it whom no other team's replies list is freed, although the
   * run goes on and the team's league counts as processed.
   */
  lemma FailedFetchFreesASquad(w: World, cfg: Config, index: map<int, Meta>, ids: seq<int>, s: State, t: int, p: int)
    requires !SyncAll(w, cfg, Got(index), ids, s).progress.quotaHit && p != -1
    requires w.pages(t, 1) == Failed && forall u | u != t :: p !in SquadOf(w, cfg, u)
    requires Ext(p) in SyncAll(w, cfg, Got(index), ids, s).progress.s.players
    requires InSweptLeague(w, index, ids, SyncAll(w, cfg, Got(index), ids, s).progress.s, Ext(p))
    ensures SyncAll(w, cfg, Got(index), ids, s).progress.s.players[Ext(p)].free
  {
    SweepInRun(w, cfg, index, ids, s, p);
    assert Replies(w, t) == [Failed] && SquadOf(w, cfg, t) == {};
  }

  /**
   * A run frees only players of its own league-type targets, and none at all if it hits the quota. So a league that
   * was finished before the quota stop is not swept by that run, nor by the resumed one, whose targets are the rest.
   */
  lemma SweepCoversOwnTargetsOnly(w: World, cfg: Config, index: map<int, Meta>, ids: seq<int>, s: State, k: Key)
    requires var after := SyncAll(w, cfg, Got(index), ids, s).progress.s;
             k in after.players && after.players[k].free && !(k in s.players && s.players[k].free)
    ensures var r := SyncAll(w, cfg, Got(index), ids, s).progress;
            !r.quotaHit && k.Ext? && InSweptLeague(w, index, ids, r.s, k)
  {
    var q := SyncTargets(w, cfg, index, TargetOrder(index, ids), Opening(index, s));
    TargetsFreeNobody(w, cfg, index, TargetOrder(index, ids), Opening(index, s));
    assert k in q.s.players && !q.s.players[k].free;
    SweptInRun(w, cfg, index, ids, s, k);
    SweepDecides(q.synced, q.s, k);
    SameOwner(w, index, ids, q.s, Sweep(q.synced, q.s), k);
  }
}
