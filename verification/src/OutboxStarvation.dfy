/** A full batch of failed jobs at the head of the outbox: while it stays there, no tick gives any row a job. */
module OutboxStarvation {
  import opened Wrappers
  import opened Outbox

  /** A tick changes the queue exactly when a batched row has no job yet. */
  lemma DispatchIsIdleIff(s: State, picked: set<MsgId>)
    ensures Apply(s, Dispatch(picked)).jobs == s.jobs <==> picked <= s.jobs.Keys
  {
    var jobs := Apply(s, Dispatch(picked)).jobs;
    assert jobs.Keys == s.jobs.Keys + picked;
    if picked <= s.jobs.Keys { assert jobs == s.jobs; }
  }

  /** A pending row with a failed job that no worker has at hand, created before now. */
  ghost predicate Stuck(s: State, id: MsgId) {
    && id in s.msgs && Dispatchable(s.msgs[id]) && s.msgs[id].createdAt < s.clock
    && id in s.jobs && s.jobs[id].phase.Failed?
    && (forall w | w in s.tasks :: s.tasks[w].id != id)
  }

  /** As many stuck rows as a batch holds, older than all the other pending rows. */
  ghost predicate Starved(s: State, head: set<MsgId>) {
    && |head| == BATCH
    && (forall id | id in head :: Stuck(s, id))
    && (forall a, b | a in head && b in Pending(s) && b !in head :: s.msgs[a].createdAt < s.msgs[b].createdAt)
  }

  /** Two sets of one size are equal when no element of either alone excludes one of the other alone. */
  lemma NoSwapsMeansEqual(a: set<MsgId>, b: set<MsgId>)
    requires |a| == |b| && forall x, y | x in a && y in b :: x in b || y in a
    ensures a == b
  {
    assert a <= b || b <= a;
    assert |b - a| == |b| - |a * b| && |a - b| == |a| - |a * b|;
    assert a * b == if a <= b then a else b;
  }

  lemma BatchIsFull(s: State, head: set<MsgId>, picked: set<MsgId>)
    requires Starved(s, head) && IsBatch(s, picked)
    ensures |picked| == BATCH
  {
    assert head <= Pending(s);
    assert |Pending(s)| == |head| + |Pending(s) - head|;
  }

  /** Then there is one possible batch, and the tick changes nothing. */
  lemma StarvedTickIsIdle(s: State, head: set<MsgId>, picked: set<MsgId>)
    requires Starved(s, head) && IsBatch(s, picked)
    ensures picked == head && Apply(s, Dispatch(picked)) == s
  {
    BatchIsFull(s, head, picked);
    forall a, b | a in head && b in picked ensures a in picked || b in head {
      assert a in Pending(s);
    }
    NoSwapsMeansEqual(head, picked);
    DispatchIsIdleIff(s, head);
  }

  lemma StuckStays(c: Config, s: State, e: Event, id: MsgId)
    requires Enabled(c, s, e) && Stuck(s, id) && e != Evict(id)
    ensures Stuck(Apply(s, e), id) && Apply(s, e).msgs[id] == s.msgs[id]
  {
  }

  /** Only dropping a failed job of the head ends it. */
  lemma StarvationStep(c: Config, s: State, head: set<MsgId>, e: Event)
    requires Enabled(c, s, e) && Starved(s, head) && !(e.Evict? && e.id in head)
    ensures Starved(Apply(s, e), head) && Apply(s, e).jobs.Keys <= s.jobs.Keys
  {
    var s' := Apply(s, e);
    forall id | id in head ensures Stuck(s', id) && s'.msgs[id] == s.msgs[id] {
      StuckStays(c, s, e, id);
    }
    if e.Dispatch? { StarvedTickIsIdle(s, head, e.picked); }
    forall a, b | a in head && b in Pending(s') && b !in head ensures s'.msgs[a].createdAt < s'.msgs[b].createdAt {
      LaterRows(c, s, e, b);
    }
  }

  /** A pending row was pending before, with the same creation time, or is created now. */
  lemma LaterRows(c: Config, s: State, e: Event, id: MsgId)
    requires Enabled(c, s, e) && id in Pending(Apply(s, e))
    ensures var s' := Apply(s, e);
            (id in Pending(s) && s'.msgs[id].createdAt == s.msgs[id].createdAt) || s'.msgs[id].createdAt == s.clock
  {
  }

  ghost predicate KeepsHead(more: seq<Event>, head: set<MsgId>) {
    forall i | 0 <= i < |more| :: !(more[i].Evict? && more[i].id in head)
  }

  /**
   * Main result: from a state in which the batch is full of failed jobs, whatever happens, no row gets a job until
   * one of those failed jobs is dropped.
   */
  lemma {:induction false} StarvationLasts(c: Config, run: seq<Event>, more: seq<Event>, head: set<MsgId>)
    requires Exec(c, run).Some? && Exec(c, run + more).Some?
    requires Starved(Exec(c, run).value, head) && KeepsHead(more, head)
    ensures Starved(Exec(c, run + more).value, head)
    ensures Exec(c, run + more).value.jobs.Keys <= Exec(c, run).value.jobs.Keys
    decreases |more|
  {
    if more == [] {
      assert run + more == run;
    } else {
      var n := |more| - 1;
      assert (run + more)[..|run + more| - 1] == run + more[..n];
      StarvationLasts(c, run, more[..n], head);
      StarvationStep(c, Exec(c, run + more[..n]).value, head, more[n]);
    }
  }

  // ---------------------------------------------------------------- it can come to that

  function Rows(ids: set<MsgId>): map<MsgId, Message> { map id | id in ids :: Message(0, None, 0) }

  function Jobs(ids: set<MsgId>, failed: set<MsgId>): map<MsgId, Job> {
    map id | id in ids :: if id in failed then Job(0, Failed, Some(0)) else Job(0, Waiting, None)
  }

  /** Rows without jobs. */
  function Fresh(ids: set<MsgId>): State { State(0, Rows(ids), map[], map[], map[], map[]) }

  /** Rows with a job each, some of them failed, and nobody at work. */
  function Queue(ids: set<MsgId>, failed: set<MsgId>): State {
    State(0, Rows(ids), Jobs(ids, failed), map[], map[], map[])
  }

  ghost predicate Reached(c: Config, s: State) { exists run :: Exec(c, run) == Some(s) }

  lemma ReachedNext(c: Config, s: State, e: Event, s': State)
    requires Reached(c, s) && Enabled(c, s, e) && Apply(s, e) == s'
    ensures Reached(c, s')
  {
    var run :| Exec(c, run) == Some(s);
    Then(c, run, s, e, s');
  }

  lemma {:induction false} EnqueueMany(c: Config, ids: set<MsgId>)
    ensures Reached(c, Fresh(ids))
    decreases ids
  {
    if ids == {} {
      assert Fresh(ids) == Init() && Exec(c, []) == Some(Init());
    } else {
      var id :| id in ids;
      EnqueueMany(c, ids - {id});
      assert Rows(ids) == Rows(ids - {id})[id := Message(0, None, 0)];
      ReachedNext(c, Fresh(ids - {id}), Enqueue(id), Fresh(ids));
    }
  }

  lemma DispatchAll(c: Config, ids: set<MsgId>)
    requires |ids| == BATCH && Reached(c, Fresh(ids))
    ensures Reached(c, Queue(ids, {}))
  {
    assert Pending(Fresh(ids)) == ids;
    assert AddJobs(Fresh(ids), ids) == Jobs(ids, {});
    ReachedNext(c, Fresh(ids), Dispatch(ids), Queue(ids, {}));
  }

  /** A worker reads the row and dies; the queue gives the job up. */
  lemma LoseOne(c: Config, ids: set<MsgId>, failed: set<MsgId>, id: MsgId)
    requires c.limit > 0 && id in ids && id !in failed && Reached(c, Queue(ids, failed))
    ensures Reached(c, Queue(ids, failed + {id}))
  {
    var s := Queue(ids, failed);
    var s1 := Apply(s, Read(0, id));
    ReachedNext(c, s, Read(0, id), s1);
    var s2 := Apply(s1, Crash(0, id, true));
    ReachedNext(c, s1, Crash(0, id, true), s2);
    assert s2.jobs == Jobs(ids, failed + {id}) && s2.tasks == map[];
  }

  lemma {:induction false} LoseMany(c: Config, ids: set<MsgId>, failed: set<MsgId>)
    requires c.limit > 0 && failed <= ids && Reached(c, Queue(ids, {}))
    ensures Reached(c, Queue(ids, failed))
    decreases failed
  {
    if failed != {} {
      var id :| id in failed;
      LoseMany(c, ids, failed - {id});
      LoseOne(c, ids, failed - {id}, id);
      assert failed - {id} + {id} == failed;
    }
  }

  lemma {:induction false} SetOfSize(n: nat) returns (ids: set<MsgId>)
    ensures |ids| == n && forall id | id in ids :: id < n
  {
    ids := {};
    if n > 0 {
      ids := SetOfSize(n - 1);
      ids := ids + {n - 1};
    }
  }

  /** Such a state is reachable: the workers of a batch of rows all die, and a second passes. */
  lemma StarvationIsReachable(c: Config)
    requires c.limit > 0
    ensures exists s, head :: Reached(c, s) && Starved(s, head)
  {
    var ids := SetOfSize(BATCH);
    EnqueueMany(c, ids);
    DispatchAll(c, ids);
    LoseMany(c, ids, ids);
    var s := Queue(ids, ids).(clock := 1);
    ReachedNext(c, Queue(ids, ids), Tick(1), s);
    assert Starved(s, ids) by { assert Pending(s) == ids; }
  }
}
