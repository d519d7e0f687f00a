/** Runs resumed after a quota stop: what they move, and what the API client's memory of its quota does to them. */
module FootballResume {
  import opened Wrappers
  import opened FootballSync
  import opened FootballTables
  import Throttle

  // ---------------------------------------------------------------- where a stopped run stops

  /** One target of a loop that the quota does not stop there. */
  lemma LoopStep(w: World, cfg: Config, index: map<int, Meta>, targets: seq<int>, k: nat, p: Progress)
    requires k < |targets| && !StepTarget(w, cfg, index, targets[0], p).quotaHit
    ensures SyncTargets(w, cfg, index, targets[..k + 1], p)
         == SyncTargets(w, cfg, index, targets[1..][..k], StepTarget(w, cfg, index, targets[0], p))
    ensures SyncTargets(w, cfg, index, targets, p)
         == SyncTargets(w, cfg, index, targets[1..], StepTarget(w, cfg, index, targets[0], p))
  {
    assert targets[..k + 1][1..] == targets[1..][..k];
  }

  /** A stopped loop: the settled targets, then the one that hits the quota. */
  lemma {:induction false} StoppedAt(w: World, cfg: Config, index: map<int, Meta>, targets: seq<int>, p: Progress)
    returns (k: nat)
    requires !p.quotaHit && p.remaining == [] && SyncTargets(w, cfg, index, targets, p).quotaHit
    ensures k < |targets| && SyncTargets(w, cfg, index, targets, p).remaining == targets[k..]
    ensures var mid := SyncTargets(w, cfg, index, targets[..k], p);
            && !mid.quotaHit && StepTarget(w, cfg, index, targets[k], mid).quotaHit
            && SyncTargets(w, cfg, index, targets, p).s == StepTarget(w, cfg, index, targets[k], mid).s
    decreases targets
  {
    var rest, first := targets[1..], StepTarget(w, cfg, index, targets[0], p);
    StepSettles(w, cfg, index, targets[0], p);
    if first.quotaHit {
      k := 0;
      Unstopped(w, cfg, index, rest, first);
      assert [targets[0]] + rest == targets && targets[..0] == [];
    } else {
      var j := StoppedAt(w, cfg, index, rest, first);
      LoopStep(w, cfg, index, targets, j, p);
      k := j + 1;
      assert targets[k..] == rest[j..] && targets[k] == rest[j];
    }
  }

  /** The targets a stopped run has settled. */
  function Settled(index: map<int, Meta>, ids: seq<int>, remaining: seq<int>): seq<int> {
    var targets := TargetOrder(index, ids);
    if |remaining| <= |targets| then targets[..|targets| - |remaining|] else []
  }

  /**
   * The owner a team has when the quota stops a run without errors: by the settled targets, or taken from the
   * target half done if that one lists the team and no settled one does.
   */
  lemma StoppedOwner(v: World, cfg: Config, index: map<int, Meta>, ids: seq<int>, s: State, t: int)
    requires var r := SyncAll(v, cfg, Got(index), ids, s).progress; r.quotaHit && r.s.errors == 0
    ensures var r := SyncAll(v, cfg, Got(index), ids, s).progress;
            var settled := Settled(index, ids, r.remaining);
            var before := Owner(v, index, settled, t, OwnerIn(s, Ext(t)));
            && r.remaining != [] && settled + r.remaining == TargetOrder(index, ids)
            && (forall id | id in settled :: HasList(v, index, id))
            && (|| OwnerIn(r.s, Ext(t)) == before
                || (&& First(v, index, settled, t).None? && Lists(v, index, r.remaining[0], t)
                    && OwnerIn(r.s, Ext(t)) == Owner(v, index, [r.remaining[0]], t, before)))
  {
    var targets, p := TargetOrder(index, ids), Opening(index, s);
    var k := StoppedAt(v, cfg, index, targets, p);
    assert targets[..k] + targets[k..] == targets;
    var mid := SyncTargets(v, cfg, index, targets[..k], p);
    HalfDoneOwner(v, cfg, index, targets[k], mid, t);
    WalkOwner(v, cfg, index, targets[..k], p, t);
  }

  /** The owner after a walk without errors, for one team. */
  lemma WalkOwner(v: World, cfg: Config, index: map<int, Meta>, settled: seq<int>, p: Progress, t: int)
    requires !p.quotaHit && p.s.seenTeams == {}
    ensures var q := SyncTargets(v, cfg, index, settled, p);
            && p.s.errors <= q.s.errors
            && (!q.quotaHit && q.s.errors == p.s.errors ==>
                  && (forall id | id in settled :: HasList(v, index, id))
                  && OwnerIn(q.s, Ext(t)) == Owner(v, index, settled, t, OwnerIn(p.s, Ext(t)))
                  && (t in q.s.seenTeams <==> First(v, index, settled, t).Some?))
  {
    TargetsWalk(v, cfg, index, settled, p);
    if !SyncTargets(v, cfg, index, settled, p).quotaHit { TargetsSee(v, cfg, index, settled, p, t); }
  }

  /** What the target that hits the quota has done to a team's owner. */
  lemma HalfDoneOwner(v: World, cfg: Config, index: map<int, Meta>, id: int, mid: Progress, t: int)
    requires !mid.quotaHit
    ensures var q := StepTarget(v, cfg, index, id, mid);
            && mid.s.errors <= q.s.errors
            && (q.s.errors == mid.s.errors ==>
                  || OwnerIn(q.s, Ext(t)) == OwnerIn(mid.s, Ext(t))
                  || (&& t !in mid.s.seenTeams && Lists(v, index, id, t)
                      && OwnerIn(q.s, Ext(t)) == Owner(v, index, [id], t, OwnerIn(mid.s, Ext(t)))))
  {
    var added := StepTakes(v, cfg, index, id, mid);
    if t in added && Lists(v, index, id, t) {
      assert First(v, index, [id], t) == Some(id);
    }
  }

  // ---------------------------------------------------------------- what a resumed run moves

  ghost predicate ListedByALeague(w: World, index: map<int, Meta>, targets: seq<int>, t: int) {
    exists id :: id in targets && !IsCup(index, id) && Lists(w, index, id, t)
  }

  lemma {:induction false} SameLists(v: World, w: World, index: map<int, Meta>, targets: seq<int>, t: int)
    requires forall id | id in targets :: Lists(v, index, id, t) == Lists(w, index, id, t)
    ensures First(v, index, targets, t) == First(w, index, targets, t)
  {
    if targets != [] {
      assert targets[0] in targets && forall id | id in targets[1..] :: id in targets;
      SameLists(v, w, index, targets[1..], t);
    }
  }

  /** Among targets with the leagues first, the first listing is a league's if any league lists the team. */
  lemma {:induction false} LeagueListsFirst(w: World, index: map<int, Meta>, targets: seq<int>, t: int)
    requires LeaguesFirst(index, targets)
    ensures var first := First(w, index, targets, t);
            ListedByALeague(w, index, targets, t) <==> first.Some? && !IsCup(index, first.value)
  {
    FirstIsTarget(w, index, targets, t);
    if targets != [] {
      var rest := targets[1..];
      assert targets == [targets[0]] + rest;
      LeagueListsFirst(w, index, rest, t);
      if ListedByALeague(w, index, targets, t) {
        var id :| id in targets && !IsCup(index, id) && Lists(w, index, id, t);
        if id != targets[0] {
          assert id in rest;
          var j :| 0 < j < |targets| && targets[j] == id;
          assert !IsCup(index, targets[0]);
        }
      }
    }
  }

  ghost predicate NoDuplicates(ids: seq<int>) { forall x :: multiset(ids)[x] <= 1 }

  lemma PartsAreDisjoint(index: map<int, Meta>, ids: seq<int>, a: seq<int>, b: seq<int>, x: int)
    requires NoDuplicates(ids) && a + b == TargetOrder(index, ids) && x in a
    ensures x !in b
  {
    OrderIsSorted(index, ids);
    assert multiset(a + b)[x] == multiset(a)[x] + multiset(b)[x] <= 1;
    assert (x in a <==> x in multiset(a)) && (x in b <==> x in multiset(b));
  }

  lemma PartsAreSorted(index: map<int, Meta>, ids: seq<int>, a: seq<int>, b: seq<int>, x: int, y: int)
    requires a + b == TargetOrder(index, ids)
    ensures LeaguesFirst(index, a) && LeaguesFirst(index, b)
    ensures x in a && y in b && IsCup(index, x) ==> IsCup(index, y)
  {
    OrderIsSorted(index, ids);
    var both := a + b;
    assert forall i | 0 <= i < |a| :: both[i] == a[i];
    assert forall j | 0 <= j < |b| :: both[|a| + j] == b[j];
    if x in a && y in b {
      var i :| 0 <= i < |a| && a[i] == x;
      var j :| 0 <= j < |b| && b[j] == y;
      assert both[i] == x && both[|a| + j] == y;
    }
  }

  /** The owners after a whole run, a stopped one and a resumed one, case by case. */
  lemma OwnersDiffer(w: World, index: map<int, Meta>, ids: seq<int>, a: seq<int>, b: seq<int>, t: int,
                     before: Option<Key>, stopped: Option<Key>)
    requires NoDuplicates(ids) && a + b == TargetOrder(index, ids) && b != []
    requires var o := Owner(w, index, a, t, before);
             || stopped == o
             || (First(w, index, a, t).None? && Lists(w, index, b[0], t) && stopped == Owner(w, index, [b[0]], t, o))
    ensures Owner(w, index, a + b, t, before) != Owner(w, index, b, t, stopped) <==>
            ListedByALeague(w, index, a, t) && ListedByALeague(w, index, b, t)
  {
    var x, y := First(w, index, a, t), First(w, index, b, t);
    FirstOfTwoParts(w, index, a, b, t);
    FirstIsTarget(w, index, a, t);
    FirstIsTarget(w, index, b, t);
    PartsAreSorted(index, ids, a, b, if x.Some? then x.value else 0, if y.Some? then y.value else 0);
    LeagueListsFirst(w, index, a, t);
    LeagueListsFirst(w, index, b, t);
    if x.Some? { PartsAreDisjoint(index, ids, a, b, x.value); }
  }

  /**
   * Main result. The targets are distinct, and the run stopped by the quota sees the lists that the whole run and the
   * resumed one see. Then stopping and resuming leaves a team with another owner than one whole run exactly when
   * both a settled league and a league of the remainder list the team: the resumed run has forgotten the first.
   */
  lemma ResumedRunMovesATeam(v: World, w: World, cfg: Config, index: map<int, Meta>, ids: seq<int>, s: State, t: int)
    requires NoDuplicates(ids)
    requires Clean(SyncAll(w, cfg, Got(index), ids, s))
    requires var r := SyncAll(v, cfg, Got(index), ids, s).progress; r.quotaHit && r.s.errors == 0
    requires var r := SyncAll(v, cfg, Got(index), ids, s).progress; Clean(SyncAll(w, cfg, Got(index), r.remaining, r.s))
    requires forall id | id in ids && HasList(v, index, id) :: v.teams(id) == w.teams(id)
    ensures var whole := SyncAll(w, cfg, Got(index), ids, s).progress;
            var stopped := SyncAll(v, cfg, Got(index), ids, s).progress;
            var resumed := SyncAll(w, cfg, Got(index), stopped.remaining, stopped.s).progress;
            OwnerIn(whole.s, Ext(t)) != OwnerIn(resumed.s, Ext(t)) <==>
              && ListedByALeague(w, index, Settled(index, ids, stopped.remaining), t)
              && ListedByALeague(w, index, stopped.remaining, t)
  {
    var stopped := SyncAll(v, cfg, Got(index), ids, s).progress;
    var a, b := Settled(index, ids, stopped.remaining), stopped.remaining;
    CleanOwner(w, cfg, index, ids, s, t);
    CleanOwner(w, cfg, index, b, stopped.s, t);
    StoppedOwnerAs(v, w, cfg, index, ids, s, t);
    PartsAreSorted(index, ids, a, b, 0, 0);
    SortedStays(index, b);
    OwnersDiffer(w, index, ids, a, b, t, OwnerIn(s, Ext(t)), OwnerIn(stopped.s, Ext(t)));
  }

  /** The stopped run's owner in terms of the lists that the other runs see. */
  lemma StoppedOwnerAs(v: World, w: World, cfg: Config, index: map<int, Meta>, ids: seq<int>, s: State, t: int)
    requires var r := SyncAll(v, cfg, Got(index), ids, s).progress; r.quotaHit && r.s.errors == 0
    requires forall id | id in ids :: HasList(w, index, id) && (HasList(v, index, id) ==> v.teams(id) == w.teams(id))
    ensures var b := SyncAll(v, cfg, Got(index), ids, s).progress.remaining;
            var a := Settled(index, ids, b);
            var after := OwnerIn(SyncAll(v, cfg, Got(index), ids, s).progress.s, Ext(t));
            var o := Owner(w, index, a, t, OwnerIn(s, Ext(t)));
            && b != [] && a + b == TargetOrder(index, ids)
            && (|| after == o
                || (First(w, index, a, t).None? && Lists(w, index, b[0], t) && after == Owner(w, index, [b[0]], t, o)))
  {
    var b := SyncAll(v, cfg, Got(index), ids, s).progress.remaining;
    var a := Settled(index, ids, b);
    StoppedOwner(v, cfg, index, ids, s, t);
    OrderKeepsMembers(index, ids);
    assert forall id | id in a :: id in a + b;
    assert b[0] in a + b;
    SameLists(v, w, index, a, t);
    if Lists(v, index, b[0], t) { SameLists(v, w, index, [b[0]], t); }
  }

  // ---------------------------------------------------------------- the chain of resume jobs and the client

  /**
   * One job of a chain: what it is answered, the headers of its responses in order, and whether the process was
   * restarted before it, which gives it a client that remembers no quota.
   */
  datatype Attempt = Attempt(w: World, index: Reply<map<int, Meta>>, headers: seq<Option<int>>, restarted: bool)

  /** What a chain has come to: targets settled and lost, the remainder that is queued, and the client's memory. */
  datatype Chain = Chain(
    s: State, settled: multiset<int>, lost: multiset<int>, remaining: seq<int>, client: Option<int>)

  function ClientOf(a: Attempt, c: Chain): Option<int> { if a.restarted then None else c.client }

  /** A queued remainder is the next job; a fatal run queues nothing, and what it was to settle is lost. */
  function Next(reserve: int, cfg: Config, a: Attempt, c: Chain): Chain {
    if c.remaining == [] then c
    else
      var r := SyncAll(a.w, cfg, a.index, c.remaining, c.s);
      var client := Throttle.RemainingAfter(reserve, ClientOf(a, c), a.headers);
      if r.fatal then Chain(r.progress.s, c.settled, c.lost + multiset(c.remaining), [], client)
      else
        Chain(r.progress.s, c.settled + multiset(r.progress.processed) + multiset(r.progress.failed), c.lost,
              r.progress.remaining, client)
  }

  function Chained(reserve: int, cfg: Config, attempts: seq<Attempt>, ids: seq<int>, s: State): Chain {
    if attempts == [] then Chain(s, multiset{}, multiset{}, ids, None)
    else Next(reserve, cfg, attempts[|attempts| - 1], Chained(reserve, cfg, attempts[..|attempts| - 1], ids, s))
  }

  /** The run's requests are this client's calls: a request is over quota exactly when the client refuses it. */
  ghost predicate ThroughClient(reserve: int, remaining: Option<int>, headers: seq<Option<int>>, log: seq<Request>) {
    && |headers| == |log|
    && forall i | 0 <= i < |log| ::
         Throttle.Answers(reserve, remaining, headers)[i].QuotaExhausted? <==> log[i] == OverQuota
  }

  ghost predicate TrueToClient(reserve: int, cfg: Config, a: Attempt, c: Chain) {
    c.remaining != [] ==>
      ThroughClient(reserve, ClientOf(a, c), a.headers,
                    SyncAll(a.w, cfg, a.index, c.remaining, c.s).progress.s.requests)
  }

  /** A request for the index that the client does not refuse succeeds. */
  ghost predicate Loads(reserve: int, a: Attempt, c: Chain) {
    c.remaining != [] && !Throttle.AtReserve(reserve, ClientOf(a, c)) ==> a.index.Got?
  }

  ghost predicate Plausible(reserve: int, cfg: Config, attempts: seq<Attempt>, ids: seq<int>, s: State) {
    attempts != [] ==>
      var n := |attempts| - 1;
      var c := Chained(reserve, cfg, attempts[..n], ids, s);
      && Plausible(reserve, cfg, attempts[..n], ids, s)
      && TrueToClient(reserve, cfg, attempts[n], c) && Loads(reserve, attempts[n], c)
  }

  /** Every run that loads the index settles at least one target. */
  ghost predicate Advancing(reserve: int, cfg: Config, attempts: seq<Attempt>, ids: seq<int>, s: State) {
    attempts != [] ==>
      var n := |attempts| - 1;
      var c := Chained(reserve, cfg, attempts[..n], ids, s);
      var r := SyncAll(attempts[n].w, cfg, attempts[n].index, c.remaining, c.s);
      && Advancing(reserve, cfg, attempts[..n], ids, s)
      && (c.remaining != [] && !r.fatal ==> |r.progress.remaining| < |c.remaining|)
  }

  /** Every job that resumes a remainder has a fresh client. */
  ghost predicate FreshResumes(reserve: int, cfg: Config, attempts: seq<Attempt>, ids: seq<int>, s: State) {
    attempts != [] ==>
      var n := |attempts| - 1;
      && FreshResumes(reserve, cfg, attempts[..n], ids, s)
      && (n > 0 && Chained(reserve, cfg, attempts[..n], ids, s).remaining != [] ==> attempts[n].restarted)
  }

  /** A run that leaves a remainder leaves its client at the reserve. */
  lemma StopLeavesTheReserve(reserve: int, cfg: Config, a: Attempt, c: Chain)
    requires c.remaining != [] && TrueToClient(reserve, cfg, a, c) && Next(reserve, cfg, a, c).remaining != []
    ensures Throttle.AtReserve(reserve, Next(reserve, cfg, a, c).client)
  {
    var log := SyncAll(a.w, cfg, a.index, c.remaining, c.s).progress.s.requests;
    RunSettlesOrKeeps(a.w, cfg, a.index.value, c.remaining, c.s);
    var i :| 0 <= i < |log| && log[i] == OverQuota;
    assert Throttle.Answers(reserve, ClientOf(a, c), a.headers)[i].QuotaExhausted?;
    Throttle.RefusedMeansAtReserve(reserve, ClientOf(a, c), a.headers);
  }

  /** The index is the first request of a run. */
  lemma IndexComesFirst(w: World, cfg: Config, index: Reply<map<int, Meta>>, ids: seq<int>, s: State)
    ensures var log := SyncAll(w, cfg, index, ids, s).progress.s.requests;
            log != [] && (log[0] == OverQuota <==> index == QuotaStop)
  {
    if index.Got? {
      TargetsAreHonest(w, cfg, index.value, TargetOrder(index.value, ids), Opening(index.value, s));
      assert Opening(index.value, s).s.requests == [Answered];
    }
  }

  /** A client at its reserve refuses the index, and the remainder is lost. */
  lemma ReserveLosesTheRest(reserve: int, cfg: Config, a: Attempt, c: Chain)
    requires c.remaining != [] && TrueToClient(reserve, cfg, a, c) && Throttle.AtReserve(reserve, ClientOf(a, c))
    ensures Next(reserve, cfg, a, c).remaining == []
    ensures Next(reserve, cfg, a, c).lost == c.lost + multiset(c.remaining)
  {
    IndexComesFirst(a.w, cfg, a.index, c.remaining, c.s);
    Throttle.QuotaStopIsForever(reserve, ClientOf(a, c), a.headers, 0);
  }

  /** No target is settled twice or forgotten: settled, lost and remaining ones are the targets. */
  lemma NextKeepsTargets(reserve: int, cfg: Config, a: Attempt, c: Chain)
    ensures var d := Next(reserve, cfg, a, c);
            d.settled + d.lost + multiset(d.remaining) == c.settled + c.lost + multiset(c.remaining)
  {
    if c.remaining != [] && a.index.Got? {
      RunKeepsTargets(a.w, cfg, a.index.value, c.remaining, c.s);
    }
  }

  lemma {:induction false} ChainKeepsTargets(reserve: int, cfg: Config, attempts: seq<Attempt>, ids: seq<int>, s: State)
    ensures var c := Chained(reserve, cfg, attempts, ids, s);
            c.settled + c.lost + multiset(c.remaining) == multiset(ids)
  {
    if attempts != [] {
      var n := |attempts| - 1;
      ChainKeepsTargets(reserve, cfg, attempts[..n], ids, s);
      NextKeepsTargets(reserve, cfg, attempts[n], Chained(reserve, cfg, attempts[..n], ids, s));
    }
  }

  /** How a chain stands after some attempts; `renewed` when every resuming job had a fresh client. */
  ghost predicate Standing(reserve: int, n: nat, renewed: bool, c: Chain) {
    && (renewed ==> c.lost == multiset{})
    && (!renewed ==> c.lost != multiset{} && c.remaining == [])
    && (n > 0 && c.remaining != [] ==> Throttle.AtReserve(reserve, c.client))
  }

  lemma StandingNext(reserve: int, cfg: Config, n: nat, renewed: bool, a: Attempt, c: Chain)
    requires Standing(reserve, n, renewed, c) && (n == 0 ==> c.client == None)
    requires TrueToClient(reserve, cfg, a, c) && Loads(reserve, a, c)
    ensures Standing(reserve, n + 1, renewed && (n > 0 && c.remaining != [] ==> a.restarted), Next(reserve, cfg, a, c))
  {
    if c.remaining != [] {
      if Next(reserve, cfg, a, c).remaining != [] { StopLeavesTheReserve(reserve, cfg, a, c); }
      if Throttle.AtReserve(reserve, ClientOf(a, c)) {
        ReserveLosesTheRest(reserve, cfg, a, c);
        assert c.remaining[0] in multiset(c.remaining);
      }
    }
  }

  lemma {:induction false} ChainStands(reserve: int, cfg: Config, attempts: seq<Attempt>, ids: seq<int>, s: State)
    requires Plausible(reserve, cfg, attempts, ids, s)
    ensures Standing(reserve, |attempts|, FreshResumes(reserve, cfg, attempts, ids, s),
                     Chained(reserve, cfg, attempts, ids, s))
  {
    if attempts != [] {
      var n := |attempts| - 1;
      ChainStands(reserve, cfg, attempts[..n], ids, s);
      StandingNext(reserve, cfg, n, FreshResumes(reserve, cfg, attempts[..n], ids, s), attempts[n],
                   Chained(reserve, cfg, attempts[..n], ids, s));
    }
  }

  /**
   * Main result. Along the resume jobs nothing is lost exactly when each job that resumes a remainder starts with a
   * fresh client: a chain that has come to its end has settled every target if and only if that holds. Without it
   * the index request of the first job on a stale client is refused, and its whole remainder is lost.
   */
  lemma ChainSettlesIffClientsAreFresh(reserve: int, cfg: Config, attempts: seq<Attempt>, ids: seq<int>, s: State)
    requires Plausible(reserve, cfg, attempts, ids, s)
    ensures var c := Chained(reserve, cfg, attempts, ids, s);
            && (c.lost == multiset{} <==> FreshResumes(reserve, cfg, attempts, ids, s))
            && c.settled + c.lost + multiset(c.remaining) == multiset(ids)
            && (c.remaining == [] ==>
                  (c.settled == multiset(ids) <==> FreshResumes(reserve, cfg, attempts, ids, s)))
  {
    var c := Chained(reserve, cfg, attempts, ids, s);
    ChainStands(reserve, cfg, attempts, ids, s);
    ChainKeepsTargets(reserve, cfg, attempts, ids, s);
    assert |c.settled| + |c.lost| + |multiset(c.remaining)| == |multiset(ids)|;
    assert c.lost == multiset{} <==> |c.lost| == 0;
  }

  /** As many jobs as targets are enough, if each that loads the index settles one. */
  lemma {:induction false} ChainEnds(reserve: int, cfg: Config, attempts: seq<Attempt>, ids: seq<int>, s: State)
    requires Advancing(reserve, cfg, attempts, ids, s)
    ensures var left := |Chained(reserve, cfg, attempts, ids, s).remaining|; left == 0 || left + |attempts| <= |ids|
  {
    if attempts != [] { ChainEnds(reserve, cfg, attempts[..|attempts| - 1], ids, s); }
  }
}
