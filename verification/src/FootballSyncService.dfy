/** The sync service as it runs: loops over targets, teams and pages that write the tables in place. */
module FootballSyncService {
  import opened Collections
  import opened Wrappers
  import opened FootballPlayers
  import opened FootballSync

  class FootballDataSync {
    const cfg: Config
    var leagues: set<Key>
    var teams: map<Key, Key>
    var players: map<Key, Player>
    var seenTeams: set<int>
    var seenPlayers: seq<int>
    var errors: nat
    var requests: seq<Request>

    ghost function Now(): State
      reads this
    {
      State(leagues, teams, players, seenTeams, seenPlayers, errors, requests)
    }

    method Request<T>(r: Reply<T>)
      modifies this
      ensures Now() == Logged(old(Now()), r)
    {
      match r
      case Got(_) => requests := requests + [Answered];
      case QuotaStop => requests := requests + [OverQuota];
      case Failed => requests := requests + [Broken];
    }

    method SavePlayer(w: World, t: int, p: int)
      modifies this
      ensures Now() == FootballSync.SavePlayer(w, t, p, old(Now()))
      ensures players == if w.playerSaved(t, p) == NotSaved then old(players)
                         else old(players)[Ext(p) := Player(Ext(t), false)]
    {
      seenPlayers := seenPlayers + [p];
      var save := w.playerSaved(t, p);
      if save != NotSaved {
        players := players[Ext(p) := Player(Ext(t), false)];
      }
      if save != Saved {
        errors := errors + 1;
      }
    }

    method SavePlayers(w: World, t: int, items: seq<int>, before: set<int>) returns (here: set<int>)
      modifies this
      ensures Now() == FootballSync.SavePlayers(w, t, items, old(Now()))
      ensures here == before + SetOf(items)
    {
      here := before;
      for j := 0 to |items|
        invariant FootballSync.SavePlayers(w, t, items[j..], Now()) == FootballSync.SavePlayers(w, t, items, old(Now()))
        invariant here == before + SetOf(items[..j])
      {
        var p := items[j];
        assert items[j..][1..] == items[j + 1..];
        assert items[..j + 1] == items[..j] + [p];
        here := here + {p};
        SavePlayer(w, t, p);
      }
      assert items[..|items|] == items;
    }

    /** The do-while loop: page 1 is always fetched, and each reply tells anew how many pages there are. */
    method FetchPages(w: World, t: int) returns (here: set<int>, signal: Signal)
      modifies this
      ensures FootballSync.FetchPages(w, t, Replies(w, t), old(Now()), {}) == Pages(Now(), here, signal)
    {
      here := {};
      var page, totalPages := 1, 1;
      while true
        invariant FootballSync.FetchPages(w, t, RepliesFrom(w, t, page), Now(), here) ==
                  FootballSync.FetchPages(w, t, Replies(w, t), old(Now()), {})
        decreases w.lastPage(t) - page
      {
        ghost var rest := RepliesFrom(w, t, page);
        var reply := w.pages(t, page);
        Request(reply);
        match reply {
          case Got(p) =>
            assert rest[1..] == if More(w, t, page, p.totalPages) then RepliesFrom(w, t, page + 1) else [];
            here := SavePlayers(w, t, p.items, here);
            totalPages := p.totalPages;
          case QuotaStop => return here, Quota;
          case Failed => return here, Threw;
        }
        if !More(w, t, page, totalPages) {
          break;
        }
        page := page + 1;
      }
      signal := Fine;
    }

    method SyncSquadRoster(w: World, t: int, here: set<int>) returns (signal: Signal)
      modifies this
      ensures (Now(), signal) == FootballSync.SyncSquadRoster(w, t, here, old(Now()))
    {
      var squad := w.squad(t);
      Request(squad);
      match squad
      case QuotaStop => return Quota;
      case Failed => return Threw;
      case Got(members) =>
        ghost var s := Now();
        for j := 0 to |members|
          invariant SaveRoster(w, t, members[j..], here, Now()) == SaveRoster(w, t, members, here, s)
        {
          assert members[j..][1..] == members[j + 1..];
          var p := members[j];
          if p !in here {
            seenPlayers := seenPlayers + [p];
            if w.rosterSaved(t, p) {
              players := players[Ext(p) := Player(Ext(t), false)];
            } else {
              errors := errors + 1;
            }
          }
        }
        signal := Fine;
    }

    method SyncSquad(w: World, t: int) returns (signal: Signal)
      modifies this
      ensures (Now(), signal) == FootballSync.SyncSquad(w, cfg, t, old(Now()))
      ensures Put(old(players), players, t, PutOn(w, cfg, t))
    {
      SquadPut(w, cfg, t, Now());
      var here;
      here, signal := FetchPages(w, t);
      if signal != Fine {
        return;
      }
      if cfg.fetchSquads {
        signal := SyncSquadRoster(w, t, here);
        if signal != Fine {
          return;
        }
      }
      if cfg.detectTransfers {
        var transfers := w.transfers(t);
        Request(transfers);
        match transfers
        case QuotaStop => signal := Quota;
        case Failed => signal := Threw;
        case Got(n) => errors := errors + n;
      }
    }

    /** The body of the team loop, its catch included. */
    method SyncTeam(w: World, league: int, kind: Kind, t: int) returns (signal: Signal)
      modifies this
      ensures (Now(), signal) == FootballSync.SyncTeam(w, cfg, league, kind, t, old(Now()))
    {
      if t in seenTeams {
        return Fine;
      }
      seenTeams := seenTeams + {t};
      if !w.teamSaved(t) {
        errors := errors + 1;
        return Fine;
      }
      if Ext(t) !in teams || kind == League {
        teams := teams[Ext(t) := Ext(league)];
      }
      signal := Fine;
      if kind == League {
        signal := SyncSquad(w, t);
        if signal == Threw {
          errors := errors + 1;
          signal := Fine;
        }
      }
    }

    method SyncLeague(w: World, league: int, kind: Kind) returns (signal: Signal)
      modifies this
      ensures (Now(), signal) == FootballSync.SyncLeague(w, cfg, league, kind, old(Now()))
    {
      if !w.leagueSaved(league) {
        return Threw;
      }
      leagues := leagues + {Ext(league)};
      var listed := w.teams(league);
      Request(listed);
      match listed
      case QuotaStop => return Quota;
      case Failed => return Threw;
      case Got(ts) => signal := SyncTeams(w, league, kind, ts);
    }

    method SyncTeams(w: World, league: int, kind: Kind, ts: seq<int>) returns (signal: Signal)
      modifies this
      ensures (Now(), signal) == FootballSync.SyncTeams(w, cfg, league, kind, ts, old(Now()))
    {
      for j := 0 to |ts|
        invariant FootballSync.SyncTeams(w, cfg, league, kind, ts[j..], Now()) ==
                  FootballSync.SyncTeams(w, cfg, league, kind, ts, old(Now()))
      {
        assert ts[j..][1..] == ts[j + 1..];
        signal := SyncTeam(w, league, kind, ts[j]);
        if signal == Quota {
          return;
        }
      }
      signal := Fine;
    }

    method MarkFreeAgents(synced: set<Key>)
      modifies this
      ensures Now() == Sweep(synced, old(Now()))
    {
      if synced == {} {
        NothingToSweep(Now());
        return;
      }
      players := map k | k in players ::
        if players[k].team in teams && teams[players[k].team] in synced && NotSeen(k, seenPlayers)
        then players[k].(free := true)
        else players[k];
    }

    method SyncAll(w: World, index: Reply<map<int, Meta>>, given: seq<int>, configured: seq<int>, catalog: seq<int>)
      returns (remaining: seq<int>, fatal: bool)
      modifies this
      ensures var ids := if given != [] then given else if configured != [] then configured else catalog;
              var r := FootballSync.SyncAll(w, cfg, index, ids, old(Now()));
              Now() == r.progress.s && remaining == r.progress.remaining && fatal == r.fatal
    {
      seenTeams, seenPlayers, errors, requests := {}, [], 0, [];
      Request(index);
      match index
      case QuotaStop => return [], true;
      case Failed => return [], true;
      case Got(known) =>
        var synced, quotaHit;
        synced, remaining, quotaHit := SyncTargets(w, known, ResolveTargets(known, given, configured, catalog));
        if !quotaHit {
          MarkFreeAgents(synced);
        }
        fatal := false;
    }

    method SyncTargets(w: World, index: map<int, Meta>, targets: seq<int>)
      returns (synced: set<Key>, remaining: seq<int>, quotaHit: bool)
      modifies this
      ensures var r := FootballSync.SyncTargets(w, cfg, index, targets, Progress(old(Now()), [], {}, [], [], false));
              Now() == r.s && synced == r.synced && remaining == r.remaining && quotaHit == r.quotaHit
    {
      ghost var processed, failed := [], [];
      synced, remaining, quotaHit := {}, [], false;
      for i := 0 to |targets|
        invariant FootballSync.SyncTargets(w, cfg, index, targets[i..],
                                           Progress(Now(), processed, synced, failed, remaining, quotaHit)) ==
                  FootballSync.SyncTargets(w, cfg, index, targets, Progress(old(Now()), [], {}, [], [], false))
      {
        assert targets[i..][1..] == targets[i + 1..];
        var id := targets[i];
        if quotaHit {
          remaining := remaining + [id];
        } else if id !in index || index[id].season.None? {
          errors := errors + 1;
          failed := failed + [id];
        } else {
          var signal := SyncLeague(w, id, index[id].kind);
          match signal
          case Fine =>
            synced := synced + if index[id].kind == League then {Ext(id)} else {};
            processed := processed + [id];
          case Quota =>
            quotaHit := true;
            remaining := remaining + [id];
          case Threw =>
            errors := errors + 1;
            failed := failed + [id];
        }
      }
    }
  }

  lemma NothingToSweep(s: State)
    ensures Sweep({}, s) == s
  {
  }

  /** One sync job: whether a resume job is queued, and for which leagues. */
  datatype Job = Job(leagueExternalIds: seq<int>)

  method ProcessSync(sync: FootballDataSync, w: World, index: Reply<map<int, Meta>>, job: Job, configured: seq<int>,
                     catalog: seq<int>)
    returns (resume: Option<Job>)
    modifies sync
    ensures var ids := if job.leagueExternalIds != [] then job.leagueExternalIds
                       else if configured != [] then configured
                       else catalog;
            var r := SyncAll(w, sync.cfg, index, ids, old(sync.Now()));
            && sync.Now() == r.progress.s
            && (resume.Some? <==> r.progress.quotaHit)
            && (resume.Some? ==> resume.value.leagueExternalIds == r.progress.remaining)
  {
    ghost var ids := if job.leagueExternalIds != [] then job.leagueExternalIds
                     else if configured != [] then configured
                     else catalog;
    ghost var before := sync.Now();
    var remaining, fatal := sync.SyncAll(w, index, job.leagueExternalIds, configured, catalog);
    if index.Got? {
      RunSettlesOrKeeps(w, sync.cfg, index.value, ids, before);
    }
    resume := if remaining != [] then Some(Job(remaining)) else None;
  }
}
