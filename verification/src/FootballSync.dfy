/**
 * The football sync: leagues, their teams and squads are fetched from the API and written to the tables, a quota stop
 * ends the run with a resumable remainder, and a run without one closes with the free-agent sweep.
 */
module FootballSync {
  import opened Collections
  import opened Wrappers

  /** A row that came from the API is known by its external id; an administrator's own rows have none. */
  datatype Key = Ext(id: int) | Local(row: nat)
  datatype Kind = League | Cup
  datatype Meta = Meta(season: Option<int>, kind: Kind)
  datatype Player = Player(team: Key, free: bool)

  datatype Reply<T> = Got(value: T) | QuotaStop | Failed
  datatype Request = Answered | OverQuota | Broken
  datatype Save = Saved | WithoutStats | NotSaved

  /** One page of a team's players; every reply says anew how many pages there are. */
  datatype Page = Page(items: seq<int>, totalPages: int)

  /**
   * What the API and the database answer during one run: the teams of a league, the pages of a team's players with a
   * bound on the totals they report, a team's squad, the number of its transfers that cannot be stored, and whether
   * each row can be written.
   */
  datatype World = World(
    teams: int -> Reply<seq<int>>,
    pages: (int, nat) -> Reply<Page>,
    lastPage: int -> nat,
    squad: int -> Reply<seq<int>>,
    transfers: int -> Reply<nat>,
    leagueSaved: int -> bool,
    teamSaved: int -> bool,
    playerSaved: (int, int) -> Save,
    rosterSaved: (int, int) -> bool)

  datatype Config = Config(fetchSquads: bool, detectTransfers: bool)

  /** The tables and the run's own bookkeeping; `requests` is the log of API calls. */
  datatype State = State(
    leagues: set<Key>,
    teams: map<Key, Key>,
    players: map<Key, Player>,
    seenTeams: set<int>,
    seenPlayers: seq<int>,
    errors: nat,
    requests: seq<Request>)

  datatype Signal = Fine | Quota | Threw

  function Logged<T>(s: State, r: Reply<T>): State {
    s.(requests := s.requests + [match r case Got(_) => Answered case QuotaStop => OverQuota case Failed => Broken])
  }

  function Trouble<T>(r: Reply<T>): Signal {
    match r case Got(_) => Fine case QuotaStop => Quota case Failed => Threw
  }

  // ---------------------------------------------------------------- one squad

  function SavePlayer(w: World, t: int, p: int, s: State): State {
    var s := s.(seenPlayers := s.seenPlayers + [p]);
    var written := s.(players := s.players[Ext(p) := Player(Ext(t), false)]);
    match w.playerSaved(t, p)
    case Saved => written
    case WithoutStats => written.(errors := s.errors + 1)
    case NotSaved => s.(errors := s.errors + 1)
  }

  function SavePlayers(w: World, t: int, items: seq<int>, s: State): State
    decreases items
  {
    if items == [] then s else SavePlayers(w, t, items[1..], SavePlayer(w, t, items[0], s))
  }

  /** Whether the page loop goes on after a page. */
  predicate More(w: World, t: int, page: nat, total: int) { page + 1 <= total && page < w.lastPage(t) }

  /** The replies the page loop gets from a page on. */
  function RepliesFrom(w: World, t: int, page: nat): seq<Reply<seq<int>>>
    decreases w.lastPage(t) - page
  {
    match w.pages(t, page)
    case Got(p) => [Got(p.items)] + if More(w, t, page, p.totalPages) then RepliesFrom(w, t, page + 1) else []
    case QuotaStop => [QuotaStop]
    case Failed => [Failed]
  }

  function Replies(w: World, t: int): seq<Reply<seq<int>>> { RepliesFrom(w, t, 1) }

  datatype Pages = Pages(s: State, here: set<int>, signal: Signal)

  function FetchPages(w: World, t: int, pages: seq<Reply<seq<int>>>, s: State, here: set<int>): Pages
    decreases pages
  {
    if pages == [] then Pages(s, here, Fine)
    else
      var s := Logged(s, pages[0]);
      match pages[0]
      case Got(items) => FetchPages(w, t, pages[1..], SavePlayers(w, t, items, s), here + SetOf(items))
      case _ => Pages(s, here, Trouble(pages[0]))
  }

  function SaveRosterPlayer(w: World, t: int, p: int, s: State): State {
    var s := s.(seenPlayers := s.seenPlayers + [p]);
    if w.rosterSaved(t, p) then s.(players := s.players[Ext(p) := Player(Ext(t), false)])
    else s.(errors := s.errors + 1)
  }

  function SaveRoster(w: World, t: int, squad: seq<int>, here: set<int>, s: State): State
    decreases squad
  {
    if squad == [] then s
    else SaveRoster(w, t, squad[1..], here, if squad[0] in here then s else SaveRosterPlayer(w, t, squad[0], s))
  }

  function SyncSquadRoster(w: World, t: int, here: set<int>, s: State): (State, Signal) {
    var r := w.squad(t);
    var s := Logged(s, r);
    if r.Got? then (SaveRoster(w, t, r.value, here, s), Fine) else (s, Trouble(r))
  }

  function SyncTransfers(w: World, t: int, s: State): (State, Signal) {
    var r := w.transfers(t);
    var s := Logged(s, r);
    if r.Got? then (s.(errors := s.errors + r.value), Fine) else (s, Trouble(r))
  }

  function SyncSquad(w: World, cfg: Config, t: int, s: State): (State, Signal) {
    var f := FetchPages(w, t, Replies(w, t), s, {});
    if f.signal != Fine then (f.s, f.signal)
    else
      var (s, signal) := if cfg.fetchSquads then SyncSquadRoster(w, t, f.here, f.s) else (f.s, Fine);
      if signal != Fine then (s, signal)
      else if cfg.detectTransfers then SyncTransfers(w, t, s)
      else (s, Fine)
  }

  // ---------------------------------------------------------------- one league

  /** A cup never moves a team that exists. */
  function UpsertTeam(t: int, league: int, kind: Kind, s: State): State {
    if Ext(t) in s.teams && kind == Cup then s else s.(teams := s.teams[Ext(t) := Ext(league)])
  }

  function SyncTeam(w: World, cfg: Config, league: int, kind: Kind, t: int, s: State): (State, Signal) {
    if t in s.seenTeams then (s, Fine)
    else
      var s := s.(seenTeams := s.seenTeams + {t});
      if !w.teamSaved(t) then (s.(errors := s.errors + 1), Fine)
      else
        var s := UpsertTeam(t, league, kind, s);
        if kind == Cup then (s, Fine)
        else
          var (s, signal) := SyncSquad(w, cfg, t, s);
          if signal == Threw then (s.(errors := s.errors + 1), Fine) else (s, signal)
  }

  function SyncTeams(w: World, cfg: Config, league: int, kind: Kind, ts: seq<int>, s: State): (State, Signal)
    decreases ts
  {
    if ts == [] then (s, Fine)
    else
      var (s, signal) := SyncTeam(w, cfg, league, kind, ts[0], s);
      if signal == Quota then (s, Quota) else SyncTeams(w, cfg, league, kind, ts[1..], s)
  }

  function SyncLeague(w: World, cfg: Config, league: int, kind: Kind, s: State): (State, Signal) {
    if !w.leagueSaved(league) then (s, Threw)
    else
      var r := w.teams(league);
      var s := Logged(s.(leagues := s.leagues + {Ext(league)}), r);
      if r.Got? then SyncTeams(w, cfg, league, kind, r.value, s) else (s, Trouble(r))
  }

  // ---------------------------------------------------------------- all targets

  datatype Progress = Progress(
    s: State,
    processed: seq<int>,
    synced: set<Key>,
    failed: seq<int>,
    remaining: seq<int>,
    quotaHit: bool)

  function StepTarget(w: World, cfg: Config, index: map<int, Meta>, id: int, p: Progress): Progress {
    if p.quotaHit then p.(remaining := p.remaining + [id])
    else if id !in index || index[id].season.None? then
      p.(s := p.s.(errors := p.s.errors + 1), failed := p.failed + [id])
    else
      var (s, signal) := SyncLeague(w, cfg, id, index[id].kind, p.s);
      match signal
      case Fine =>
        p.(s := s, processed := p.processed + [id],
           synced := p.synced + if index[id].kind == League then {Ext(id)} else {})
      case Quota => p.(s := s, quotaHit := true, remaining := p.remaining + [id])
      case Threw => p.(s := s.(errors := s.errors + 1), failed := p.failed + [id])
  }

  function SyncTargets(w: World, cfg: Config, index: map<int, Meta>, targets: seq<int>, p: Progress): Progress
    decreases targets
  {
    if targets == [] then p
    else SyncTargets(w, cfg, index, targets[1..], StepTarget(w, cfg, index, targets[0], p))
  }

  function Start(s: State): Progress {
    Progress(s.(seenTeams := {}, seenPlayers := [], errors := 0, requests := []), [], {}, [], [], false)
  }

  /** `externalId: { notIn: seen.length ? seen : [-1] }`; a row without an external id never matches. */
  predicate NotSeen(k: Key, seen: seq<int>) {
    k.Ext? && k.id !in if seen == [] then [-1] else seen
  }

  function Sweep(synced: set<Key>, s: State): State {
    s.(players := map k | k in s.players ::
         if s.players[k].team in s.teams && s.teams[s.players[k].team] in synced && NotSeen(k, s.seenPlayers)
         then s.players[k].(free := true)
         else s.players[k])
  }

  function IsCup(index: map<int, Meta>, id: int): bool { id in index && index[id].kind == Cup }

  /** The stable sort on whether a target is a cup: the others first, each part in its order. */
  function Part(index: map<int, Meta>, cups: bool, ids: seq<int>): seq<int> {
    if ids == [] then []
    else if IsCup(index, ids[0]) == cups then [ids[0]] + Part(index, cups, ids[1..])
    else Part(index, cups, ids[1..])
  }

  function TargetOrder(index: map<int, Meta>, ids: seq<int>): seq<int> {
    Part(index, false, ids) + Part(index, true, ids)
  }

  function ResolveTargets(index: map<int, Meta>, given: seq<int>, configured: seq<int>, catalog: seq<int>): seq<int> {
    TargetOrder(index, if given != [] then given else if configured != [] then configured else catalog)
  }

  datatype Outcome = Outcome(progress: Progress, fatal: bool)

  /** One run; any failure to load the league index is fatal and leaves nothing to resume. */
  function SyncAll(w: World, cfg: Config, index: Reply<map<int, Meta>>, ids: seq<int>, s: State): Outcome {
    var p := Start(s);
    var p := p.(s := Logged(p.s, index));
    if !index.Got? then Outcome(p, true)
    else
      var p := SyncTargets(w, cfg, index.value, TargetOrder(index.value, ids), p);
      Outcome(if p.quotaHit then p else p.(s := Sweep(p.synced, p.s)), false)
  }

  // ---------------------------------------------------------------- every target is settled once

  lemma {:induction false} Unstopped(w: World, cfg: Config, index: map<int, Meta>, targets: seq<int>, p: Progress)
    requires p.quotaHit
    ensures SyncTargets(w, cfg, index, targets, p) == p.(remaining := p.remaining + targets)
  {
    if targets == [] {
      assert p.remaining + targets == p.remaining;
    } else {
      Unstopped(w, cfg, index, targets[1..], StepTarget(w, cfg, index, targets[0], p));
      assert p.remaining + targets == p.remaining + [targets[0]] + targets[1..];
    }
  }

  /** Processed, failed and remaining targets partition the targets; the remaining ones are a suffix. */
  ghost predicate Settles(targets: seq<int>, p: Progress, q: Progress) {
    && (q.quotaHit <==> q.remaining != [])
    && |q.remaining| <= |targets| && q.remaining == targets[|targets| - |q.remaining|..]
    && multiset(q.processed) + multiset(q.failed) + multiset(q.remaining) ==
       multiset(p.processed) + multiset(p.failed) + multiset(targets)
  }

  /** One target goes into exactly one of the three lists. */
  lemma StepSettles(w: World, cfg: Config, index: map<int, Meta>, id: int, p: Progress)
    requires !p.quotaHit && p.remaining == []
    ensures var q := StepTarget(w, cfg, index, id, p);
            || (!q.quotaHit && q.remaining == [] && q.processed == p.processed + [id] && q.failed == p.failed)
            || (!q.quotaHit && q.remaining == [] && q.processed == p.processed && q.failed == p.failed + [id])
            || (q.quotaHit && q.remaining == [id] && q.processed == p.processed && q.failed == p.failed)
  {
  }

  lemma SettlesCons(id: int, rest: seq<int>, p: Progress, q: Progress, r: Progress)
    requires Settles(rest, q, r)
    requires multiset(q.processed) + multiset(q.failed) == multiset(p.processed) + multiset(p.failed) + multiset{id}
    ensures Settles([id] + rest, p, r)
  {
    var targets := [id] + rest;
    assert rest[|rest| - |r.remaining|..] == targets[|targets| - |r.remaining|..];
  }

  lemma {:induction false} EveryTargetIsSettledOnce(w: World, cfg: Config, index: map<int, Meta>, targets: seq<int>,
                                                    p: Progress)
    requires !p.quotaHit && p.remaining == []
    ensures Settles(targets, p, SyncTargets(w, cfg, index, targets, p))
  {
    if targets != [] {
      var q := StepTarget(w, cfg, index, targets[0], p);
      StepSettles(w, cfg, index, targets[0], p);
      assert targets == [targets[0]] + targets[1..];
      if q.quotaHit {
        Unstopped(w, cfg, index, targets[1..], q);
        assert q.remaining + targets[1..] == targets;
      } else {
        EveryTargetIsSettledOnce(w, cfg, index, targets[1..], q);
        SettlesCons(targets[0], targets[1..], p, q, SyncTargets(w, cfg, index, targets[1..], q));
      }
    }
  }

  // ---------------------------------------------------------------- a quota error is never swallowed

  /** The requests made since the log was `before`: a quota error is the last of them, and only if signalled. */
  ghost predicate Honest(before: seq<Request>, after: seq<Request>, quota: bool) {
    && before <= after
    && (forall i | |before| <= i < |after| :: after[i] == OverQuota ==> quota && i == |after| - 1)
    && (quota ==> |before| < |after| && after[|after| - 1] == OverQuota)
  }

  lemma HonestThen(a: seq<Request>, b: seq<Request>, c: seq<Request>, quota: bool)
    requires Honest(a, b, false) && Honest(b, c, quota)
    ensures Honest(a, c, quota)
  {
  }

  lemma {:induction false} PlayersMakeNoRequest(w: World, t: int, items: seq<int>, s: State)
    ensures SavePlayers(w, t, items, s).requests == s.requests
    decreases items
  {
    if items != [] { PlayersMakeNoRequest(w, t, items[1..], SavePlayer(w, t, items[0], s)); }
  }

  lemma {:induction false} PagesAreHonest(w: World, t: int, pages: seq<Reply<seq<int>>>, s: State, here: set<int>)
    ensures var f := FetchPages(w, t, pages, s, here); Honest(s.requests, f.s.requests, f.signal == Quota)
    decreases pages
  {
    if pages != [] && pages[0].Got? {
      var l := Logged(s, pages[0]);
      PlayersMakeNoRequest(w, t, pages[0].value, l);
      PagesAreHonest(w, t, pages[1..], SavePlayers(w, t, pages[0].value, l), here + SetOf(pages[0].value));
      var fetched := FetchPages(w, t, pages, s, here);
      HonestThen(s.requests, l.requests, fetched.s.requests, fetched.signal == Quota);
    }
  }

  lemma {:induction false} RosterMakesNoRequest(w: World, t: int, squad: seq<int>, here: set<int>, s: State)
    ensures SaveRoster(w, t, squad, here, s).requests == s.requests
    decreases squad
  {
    if squad != [] {
      RosterMakesNoRequest(w, t, squad[1..], here, if squad[0] in here then s else SaveRosterPlayer(w, t, squad[0], s));
    }
  }

  lemma SquadIsHonest(w: World, cfg: Config, t: int, s: State)
    ensures var (after, signal) := SyncSquad(w, cfg, t, s); Honest(s.requests, after.requests, signal == Quota)
  {
    var f := FetchPages(w, t, Replies(w, t), s, {});
    PagesAreHonest(w, t, Replies(w, t), s, {});
    if f.signal == Fine {
      var (mid, signal) := if cfg.fetchSquads then SyncSquadRoster(w, t, f.here, f.s) else (f.s, Fine);
      if cfg.fetchSquads && w.squad(t).Got? {
        RosterMakesNoRequest(w, t, w.squad(t).value, f.here, Logged(f.s, w.squad(t)));
      }
      HonestThen(s.requests, f.s.requests, mid.requests, signal == Quota);
      if signal == Fine && cfg.detectTransfers {
        var (after, last) := SyncTransfers(w, t, mid);
        HonestThen(s.requests, mid.requests, after.requests, last == Quota);
      }
    }
  }

  lemma TeamIsHonest(w: World, cfg: Config, league: int, kind: Kind, t: int, s: State)
    ensures var (after, signal) := SyncTeam(w, cfg, league, kind, t, s);
            Honest(s.requests, after.requests, signal == Quota)
  {
    SquadIsHonest(w, cfg, t, UpsertTeam(t, league, kind, s.(seenTeams := s.seenTeams + {t})));
  }

  lemma {:induction false} TeamsAreHonest(w: World, cfg: Config, league: int, kind: Kind, ts: seq<int>, s: State)
    ensures var (after, signal) := SyncTeams(w, cfg, league, kind, ts, s);
            Honest(s.requests, after.requests, signal == Quota)
    decreases ts
  {
    if ts != [] {
      var (mid, signal) := SyncTeam(w, cfg, league, kind, ts[0], s);
      TeamIsHonest(w, cfg, league, kind, ts[0], s);
      if signal != Quota {
        TeamsAreHonest(w, cfg, league, kind, ts[1..], mid);
        var (after, last) := SyncTeams(w, cfg, league, kind, ts[1..], mid);
        HonestThen(s.requests, mid.requests, after.requests, last == Quota);
      }
    }
  }

  lemma LeagueIsHonest(w: World, cfg: Config, league: int, kind: Kind, s: State)
    ensures var (after, signal) := SyncLeague(w, cfg, league, kind, s);
            Honest(s.requests, after.requests, signal == Quota)
  {
    if w.leagueSaved(league) && w.teams(league).Got? {
      var l := Logged(s.(leagues := s.leagues + {Ext(league)}), w.teams(league));
      TeamsAreHonest(w, cfg, league, kind, w.teams(league).value, l);
      var (after, signal) := SyncTeams(w, cfg, league, kind, w.teams(league).value, l);
      HonestThen(s.requests, l.requests, after.requests, signal == Quota);
    }
  }

  lemma {:induction false} TargetsAreHonest(w: World, cfg: Config, index: map<int, Meta>, targets: seq<int>,
                                            p: Progress)
    requires !p.quotaHit
    ensures var q := SyncTargets(w, cfg, index, targets, p); Honest(p.s.requests, q.s.requests, q.quotaHit)
    decreases targets
  {
    if targets != [] {
      var mid := StepTarget(w, cfg, index, targets[0], p);
      StepIsHonest(w, cfg, index, targets[0], p);
      if mid.quotaHit {
        Unstopped(w, cfg, index, targets[1..], mid);
      } else {
        TargetsAreHonest(w, cfg, index, targets[1..], mid);
        var q := SyncTargets(w, cfg, index, targets[1..], mid);
        HonestThen(p.s.requests, mid.s.requests, q.s.requests, q.quotaHit);
      }
    }
  }

  lemma StepIsHonest(w: World, cfg: Config, index: map<int, Meta>, id: int, p: Progress)
    requires !p.quotaHit
    ensures var q := StepTarget(w, cfg, index, id, p); Honest(p.s.requests, q.s.requests, q.quotaHit)
  {
    if id in index && index[id].season.Some? {
      LeagueIsHonest(w, cfg, id, index[id].kind, p.s);
    }
  }

  // ---------------------------------------------------------------- one run

  /**
   * Main result. A run whose index loads settles or keeps every target: processed, failed and remaining ones
   * partition the targets and the remaining ones are the suffix from the league that hit the quota. A quota error
   * at any depth ends the run: it is the last request made, and it is there exactly when something remains.
   */
  lemma RunSettlesOrKeeps(w: World, cfg: Config, index: map<int, Meta>, ids: seq<int>, s: State)
    ensures var r := SyncAll(w, cfg, Got(index), ids, s);
            var log := r.progress.s.requests;
            && !r.fatal
            && Settles(TargetOrder(index, ids), Start(s), r.progress)
            && (r.progress.remaining != [] <==> OverQuota in log)
            && (forall i | 0 <= i < |log| - 1 :: log[i] != OverQuota)
  {
    var p := Start(s).(s := Logged(Start(s).s, Got(index)));
    EveryTargetIsSettledOnce(w, cfg, index, TargetOrder(index, ids), p);
    TargetsAreHonest(w, cfg, index, TargetOrder(index, ids), p);
  }

  // ---------------------------------------------------------------- resumption

  /** All leagues before all cups. */
  ghost predicate LeaguesFirst(index: map<int, Meta>, ids: seq<int>) {
    forall i, j | 0 <= i < j < |ids| :: IsCup(index, ids[i]) ==> IsCup(index, ids[j])
  }

  lemma {:induction false} SortedStays(index: map<int, Meta>, ids: seq<int>)
    requires LeaguesFirst(index, ids)
    ensures TargetOrder(index, ids) == ids
  {
    if ids != [] {
      SortedStays(index, ids[1..]);
      assert ids == [ids[0]] + ids[1..];
      if IsCup(index, ids[0]) {
        NoLeague(index, ids);
      }
    }
  }

  lemma {:induction false} NoLeague(index: map<int, Meta>, ids: seq<int>)
    requires forall i | 0 <= i < |ids| :: IsCup(index, ids[i])
    ensures Part(index, false, ids) == [] && Part(index, true, ids) == ids
  {
    if ids != [] {
      NoLeague(index, ids[1..]);
      assert ids == [ids[0]] + ids[1..];
    }
  }

  lemma {:induction false} PartMembers(index: map<int, Meta>, cups: bool, ids: seq<int>)
    ensures forall i | 0 <= i < |Part(index, cups, ids)| :: IsCup(index, Part(index, cups, ids)[i]) == cups
  {
    if ids != [] {
      PartMembers(index, cups, ids[1..]);
    }
  }

  lemma {:induction false} PartsCover(index: map<int, Meta>, ids: seq<int>)
    ensures multiset(Part(index, false, ids)) + multiset(Part(index, true, ids)) == multiset(ids)
  {
    if ids != [] {
      PartsCover(index, ids[1..]);
      MoveOne(ids[0], Part(index, false, ids[1..]), Part(index, true, ids[1..]), ids[1..]);
      assert ids == [ids[0]] + ids[1..];
    }
  }

  lemma MoveOne(x: int, a: seq<int>, b: seq<int>, ids: seq<int>)
    requires multiset(a) + multiset(b) == multiset(ids)
    ensures multiset([x] + a) + multiset(b) == multiset([x] + ids)
    ensures multiset(a) + multiset([x] + b) == multiset([x] + ids)
  {
  }

  /** Among leagues, and among cups, the order of the targets is kept. */
  lemma {:induction false} PartKeepsOrder(index: map<int, Meta>, cups: bool, a: seq<int>, b: seq<int>)
    ensures Part(index, cups, a + b) == Part(index, cups, a) + Part(index, cups, b)
    ensures |a| == 1 ==>
              Part(index, cups, a) == if (a[0] in index && index[a[0]].kind == Cup) == cups then a else []
  {
    if a == [] {
      assert a + b == b;
    } else {
      PartKeepsOrder(index, cups, a[1..], b);
      assert (a + b)[1..] == a[1..] + b;
      assert |a| == 1 ==> a == [a[0]] && Part(index, cups, a[1..]) == [];
    }
  }

  lemma OrderIsSorted(index: map<int, Meta>, ids: seq<int>)
    ensures LeaguesFirst(index, TargetOrder(index, ids))
    ensures multiset(TargetOrder(index, ids)) == multiset(ids) && |TargetOrder(index, ids)| == |ids|
  {
    PartMembers(index, false, ids);
    PartMembers(index, true, ids);
    PartsCover(index, ids);
    assert |multiset(TargetOrder(index, ids))| == |multiset(ids)|;
  }

  /** The remainder of a run is already in order: the next run walks it as it is. */
  lemma OrderSurvivesResume(index: map<int, Meta>, ids: seq<int>, k: nat)
    requires k <= |TargetOrder(index, ids)|
    ensures TargetOrder(index, TargetOrder(index, ids)[k..]) == TargetOrder(index, ids)[k..]
  {
    OrderIsSorted(index, ids);
    SortedStays(index, TargetOrder(index, ids)[k..]);
  }

  lemma RunKeepsTargets(w: World, cfg: Config, index: map<int, Meta>, ids: seq<int>, s: State)
    ensures var r := SyncAll(w, cfg, Got(index), ids, s).progress;
            multiset(r.processed) + multiset(r.failed) + multiset(r.remaining) == multiset(ids)
  {
    RunSettlesOrKeeps(w, cfg, index, ids, s);
    OrderIsSorted(index, ids);
    var p := Start(s);
    assert multiset(p.processed) + multiset(p.failed) == multiset{};
  }
}
