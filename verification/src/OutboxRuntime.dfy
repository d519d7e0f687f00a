/**
 * The two outbox services as they run without interleaving: the dispatcher's tick and one call of the
 * processor. Each is proved to be a run of the events of module Outbox.
 */
module OutboxRuntime {
  import opened Wrappers
  import opened Outbox

  lemma AddOneJob(s: State, a: set<MsgId>, id: MsgId)
    ensures var jobs := AddJobs(s, a);
            AddJobs(s, a + {id}) == if id in jobs then jobs else jobs[id := Job(0, Waiting, None)]
  {
  }

  /** What Read, Lock and the closing update leave behind when nothing comes in between. */
  lemma DeliveryResult(s: State, w: WorkerId, id: MsgId, ok: bool)
    requires s.tasks == map[] && id in s.jobs && s.jobs[id].phase.Waiting?
    ensures var s1 := Apply(s, Read(w, id));
            var gone := s.(jobs := s.jobs - {id});
            if id !in s.msgs || s.msgs[id].processedAt.Some? then w !in s1.tasks && s1 == gone
            else
              && w in s1.tasks
              && var s2 := Apply(s1, Lock(w, id));
                 if LockLive(s, id) then w !in s2.tasks && s2 == gone
                 else
                   && w in s2.tasks
                   && Apply(s2, Succeed(w, id)) ==
                        gone.(locks := s.locks[id := s.clock + LOCK_TTL],
                              msgs := s.msgs[id := s.msgs[id].(processedAt := Some(s.clock))])
                   && Apply(s2, Fail(w, id)) ==
                        s.(locks := s.locks[id := s.clock + LOCK_TTL],
                           msgs := s.msgs[id := s.msgs[id].(retryCount := s.msgs[id].retryCount + 1)],
                           jobs := s.jobs[id := Job(s.jobs[id].made + 1,
                                                    if s.jobs[id].made + 1 >= ATTEMPTS then Failed else Waiting,
                                                    if s.jobs[id].firstAt.Some? then s.jobs[id].firstAt
                                                    else Some(s.clock))])
  {
    var s1 := Apply(s, Read(w, id));
    if id in s.msgs && s.msgs[id].processedAt.None? {
      assert s1.tasks - {w} == map[];
      assert s1.jobs - {id} == s.jobs - {id};
      if !LockLive(s, id) {
        assert Apply(s1, Lock(w, id)).tasks - {w} == map[];
        KeepOthers(s.jobs, s1.jobs, id, Apply(Apply(s1, Lock(w, id)), Fail(w, id)).jobs[id]);
      }
    }
  }

  lemma KeepOthers(a: map<MsgId, Job>, b: map<MsgId, Job>, id: MsgId, j: Job)
    requires a.Keys == b.Keys && forall i | i in a && i != id :: a[i] == b[i]
    ensures a[id := j] == b[id := j]
  {
  }

  class Runtime {
    var clock: nat
    var msgs: map<MsgId, Message>
    var jobs: map<MsgId, Job>
    var locks: map<MsgId, nat>
    var stalls: map<MsgId, nat>

    /** The machine state with no worker at work. */
    ghost function Snapshot(): State
      reads this
    {
      State(clock, msgs, jobs, locks, map[], stalls)
    }

    /** The oldest of a non-empty set of rows. */
    method Oldest(rows: set<MsgId>) returns (a: MsgId)
      requires rows != {} && rows <= msgs.Keys
      ensures a in rows && forall b :: b in rows ==> msgs[a].createdAt <= msgs[b].createdAt
    {
      a :| a in rows;
      var rest := rows - {a};
      while rest != {}
        invariant a in rows && rest <= rows
        invariant forall b :: b in rows && b !in rest ==> msgs[a].createdAt <= msgs[b].createdAt
        decreases rest
      {
        var b :| b in rest;
        rest := rest - {b};
        if msgs[b].createdAt < msgs[a].createdAt {
          a := b;
        }
      }
    }

    /** findMany: unprocessed rows under MAX_RETRY, oldest first, at most BATCH of them. */
    method FindPending() returns (picked: set<MsgId>)
      ensures IsBatch(Snapshot(), picked)
    {
      var rest := set id | id in msgs && Dispatchable(msgs[id]);
      picked := {};
      while rest != {} && |picked| < BATCH
        invariant picked + rest == Pending(Snapshot()) && picked * rest == {}
        invariant |picked| <= BATCH
        invariant forall a, b :: a in picked && b in rest ==> msgs[a].createdAt <= msgs[b].createdAt
        decreases rest
      {
        var a := Oldest(rest);
        picked := picked + {a};
        rest := rest - {a};
      }
    }

    /** queue.add for every picked row; a job id already in the queue is left alone. */
    method AddAll(picked: set<MsgId>)
      modifies this`jobs
      ensures jobs == AddJobs(old(Snapshot()), picked)
    {
      ghost var s := Snapshot();
      var pending := picked;
      while pending != {}
        invariant pending <= picked
        invariant jobs == AddJobs(s, picked - pending)
        decreases pending
      {
        var id :| id in pending;
        AddOneJob(s, picked - pending, id);
        assert picked - pending + {id} == picked - (pending - {id});
        if id !in jobs {
          jobs := jobs[id := Job(0, Waiting, None)];
        }
        pending := pending - {id};
      }
      assert picked - pending == picked;
    }

    /** One cron tick: every batched row gets a job under its own id, and an existing job is kept. */
    method Dispatch() returns (picked: set<MsgId>)
      modifies this`jobs
      ensures IsBatch(old(Snapshot()), picked)
      ensures Snapshot() == Apply(old(Snapshot()), Event.Dispatch(picked))
    {
      picked := FindPending();
      AddAll(picked);
    }

    /**
     * One call of `process`: returns silently when the row is gone, marked or locked; otherwise takes the
     * lock, runs the handler and marks the row or counts the failure and throws.
     */
    method Process(id: MsgId, handlerOk: bool) returns (threw: bool)
      modifies this`msgs, this`locks
      ensures var skip := id !in old(msgs) || old(msgs)[id].processedAt.Some? || LockLive(old(Snapshot()), id);
              if skip then !threw && msgs == old(msgs) && locks == old(locks)
              else
                && threw == !handlerOk
                && locks == old(locks)[id := clock + LOCK_TTL]
                && msgs == old(msgs)[id := if handlerOk then old(msgs)[id].(processedAt := Some(clock))
                                           else old(msgs)[id].(retryCount := old(msgs)[id].retryCount + 1)]
    {
      if id !in msgs || msgs[id].processedAt.Some? {
        return false;
      }
      if id in locks && clock < locks[id] {
        return false;
      }
      locks := locks[id := clock + LOCK_TTL];
      if handlerOk {
        msgs := msgs[id := msgs[id].(processedAt := Some(clock))];
        return false;
      }
      msgs := msgs[id := msgs[id].(retryCount := msgs[id].retryCount + 1)];
      return true;
    }

    /** One delivery by the queue: the call of `process` is Read, Lock, Succeed or Fail back to back. */
    method Deliver(w: WorkerId, id: MsgId, handlerOk: bool)
      requires id in jobs && jobs[id].phase.Waiting?
      modifies this`msgs, this`locks, this`jobs
      ensures var s1 := Apply(old(Snapshot()), Read(w, id));
              var s2 := Apply(s1, Lock(w, id));
              Snapshot() == if w !in s1.tasks then s1 else if w !in s2.tasks then s2
                            else Apply(s2, if handlerOk then Succeed(w, id) else Fail(w, id))
    {
      ghost var s := Snapshot();
      var first := if jobs[id].firstAt.Some? then jobs[id].firstAt else Some(clock);
      var threw := Process(id, handlerOk);
      if threw {
        var made := jobs[id].made + 1;
        jobs := jobs[id := Job(made, if made >= ATTEMPTS then Failed else Waiting, first)];
      } else {
        jobs := jobs - {id};
      }
      DeliveryResult(s, w, id, handlerOk);
    }
  }
}
