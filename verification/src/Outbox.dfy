/**
 * Outbox delivery as an event machine: rows, one queue job per message id, the Redis lock with its
 * expiry, the workers between two awaits, and the clock (in seconds).
 *
 * Every `await` of `ReactionProcessor.process` is a point where other events may come in between:
 * Read (find the row), Lock (SET EX 600 NX), then Succeed or Fail (the closing update).
 */
module Outbox {
  import opened Collections
  import opened Wrappers

  const MAX_RETRY: nat := 10
  const BATCH: nat := 250
  const ATTEMPTS: nat := 5
  const LOCK_TTL: nat := 600

  type MsgId = nat
  type WorkerId = nat

  datatype Message = Message(createdAt: nat, processedAt: Option<nat>, retryCount: nat)

  /** `made` counts failed attempts; `firstAt` is the time of the first delivery of this job. */
  datatype Job = Job(made: nat, phase: JobPhase, firstAt: Option<nat>)
  datatype JobPhase = Waiting | Active | Failed

  /** A worker inside `process`; `owns` is false once the queue gave its job to somebody else. */
  datatype Task = Task(id: MsgId, readAt: nat, handling: bool, owns: bool)

  datatype State = State(
    clock: nat,
    msgs: map<MsgId, Message>,
    jobs: map<MsgId, Job>,
    locks: map<MsgId, nat>,
    tasks: map<WorkerId, Task>,
    stalls: map<MsgId, nat>)

  datatype Event =
    | Enqueue(id: MsgId)
    | Dispatch(picked: set<MsgId>)
    | Read(w: WorkerId, id: MsgId)
    | Lock(w: WorkerId, id: MsgId)
    | Succeed(w: WorkerId, id: MsgId)
    | Fail(w: WorkerId, id: MsgId)
    | Crash(w: WorkerId, id: MsgId, toFailed: bool)
    | Stall(w: WorkerId, id: MsgId)
    | Evict(id: MsgId)
    | Tick(d: nat)

  /**
   * `limit` bounds a worker's time from its read to its final update; `insideTtl` restricts the runs to
   * those in which every lock attempt of a job comes within one lock TTL of its first delivery.
   */
  datatype Config = Config(limit: nat, insideTtl: bool)

  predicate Dispatchable(m: Message) { m.processedAt.None? && m.retryCount < MAX_RETRY }

  predicate Poison(m: Message) { m.processedAt.None? && m.retryCount >= MAX_RETRY }

  ghost function Pending(s: State): set<MsgId> {
    set id | id in s.msgs && Dispatchable(s.msgs[id])
  }

  /** The first BATCH pending rows by creation time; equal times may come in any order. */
  ghost predicate IsBatch(s: State, picked: set<MsgId>) {
    && picked <= Pending(s)
    && (picked == Pending(s) || |picked| == BATCH)
    && |picked| <= BATCH
    && (forall a, b :: a in picked && b in Pending(s) && b !in picked ==> s.msgs[a].createdAt <= s.msgs[b].createdAt)
  }

  predicate LockLive(s: State, id: MsgId) { id in s.locks && s.clock < s.locks[id] }

  predicate Runs(s: State, w: WorkerId, id: MsgId, handling: bool) {
    w in s.tasks && s.tasks[w].id == id && s.tasks[w].handling == handling
  }

  ghost predicate Enabled(c: Config, s: State, e: Event) {
    match e
    case Enqueue(id) => id !in s.msgs
    case Dispatch(picked) => IsBatch(s, picked)
    case Read(w, id) => w !in s.tasks && id in s.jobs && s.jobs[id].phase.Waiting? && 0 < c.limit
    case Lock(w, id) =>
      && Runs(s, w, id, false)
      && (c.insideTtl && s.tasks[w].owns && id in s.jobs && s.jobs[id].firstAt.Some?
          ==> s.clock < s.jobs[id].firstAt.value + LOCK_TTL)
    case Succeed(w, id) => Runs(s, w, id, true) && id in s.msgs
    case Fail(w, id) => Runs(s, w, id, true) && id in s.msgs
    case Crash(w, id, _) => w in s.tasks && s.tasks[w].id == id
    case Stall(w, id) => w in s.tasks && s.tasks[w].id == id && s.tasks[w].owns
    case Evict(id) => id in s.jobs && s.jobs[id].phase.Failed?
    case Tick(d) => forall w :: w in s.tasks ==> s.clock + d < s.tasks[w].readAt + c.limit
  }

  function Stalls(s: State, id: MsgId): nat { if id in s.stalls then s.stalls[id] else 0 }

  /** The job leaves the queue, if the worker still owns it. */
  function Complete(s: State, t: Task): map<MsgId, Job> {
    if t.owns then s.jobs - {t.id} else s.jobs
  }

  /** A thrown attempt: back to waiting, or to the failed set after the last attempt. */
  function Throw(s: State, t: Task): map<MsgId, Job> {
    if t.owns && t.id in s.jobs then
      var made := s.jobs[t.id].made + 1;
      s.jobs[t.id := Job(made, if made >= ATTEMPTS then Failed else Waiting, s.jobs[t.id].firstAt)]
    else s.jobs
  }

  function AddJobs(s: State, picked: set<MsgId>): map<MsgId, Job> {
    map id | id in s.jobs.Keys + picked :: if id in s.jobs then s.jobs[id] else Job(0, Waiting, None)
  }

  function Apply(s: State, e: Event): State {
    match e
    case Enqueue(id) => s.(msgs := s.msgs[id := Message(s.clock, None, 0)])
    case Dispatch(picked) => s.(jobs := AddJobs(s, picked))
    case Read(w, id) =>
      if id !in s.msgs || s.msgs[id].processedAt.Some? || id !in s.jobs then
        s.(jobs := s.jobs - {id})
      else
        s.(jobs := s.jobs[id := Job(s.jobs[id].made, Active,
                                    if s.jobs[id].firstAt.Some? then s.jobs[id].firstAt else Some(s.clock))],
           tasks := s.tasks[w := Task(id, s.clock, false, true)])
    case Lock(w, id) =>
      if w !in s.tasks then s
      else if LockLive(s, id) then
        s.(jobs := Complete(s, s.tasks[w]), tasks := s.tasks - {w})
      else
        s.(locks := s.locks[id := s.clock + LOCK_TTL],
           tasks := s.tasks[w := s.tasks[w].(handling := true)])
    case Succeed(w, id) =>
      if w !in s.tasks || id !in s.msgs then s
      else
        s.(msgs := s.msgs[id := s.msgs[id].(processedAt := Some(s.clock))],
           jobs := Complete(s, s.tasks[w]),
           tasks := s.tasks - {w})
    case Fail(w, id) =>
      if w !in s.tasks || id !in s.msgs then s
      else
        s.(msgs := s.msgs[id := s.msgs[id].(retryCount := s.msgs[id].retryCount + 1)],
           jobs := Throw(s, s.tasks[w]),
           tasks := s.tasks - {w})
    case Crash(w, id, toFailed) =>
      if w !in s.tasks then s
      else if s.tasks[w].owns && id in s.jobs then
        s.(jobs := s.jobs[id := s.jobs[id].(phase := if toFailed then Failed else Waiting)],
           tasks := s.tasks - {w})
      else
        s.(tasks := s.tasks - {w})
    case Stall(w, id) =>
      if w !in s.tasks || id !in s.jobs then s
      else
        s.(jobs := s.jobs[id := s.jobs[id].(phase := Waiting)],
           tasks := s.tasks[w := s.tasks[w].(owns := false)],
           stalls := s.stalls[id := Stalls(s, id) + 1])
    case Evict(id) => s.(jobs := s.jobs - {id})
    case Tick(d) => s.(clock := s.clock + d)
  }

  function Init(): State { State(0, map[], map[], map[], map[], map[]) }

  /** The state after a run, or None when some event of it was not enabled. */
  ghost function Exec(c: Config, run: seq<Event>): Option<State> {
    if run == [] then Some(Init())
    else
      var n := |run| - 1;
      var p := Exec(c, run[..n]);
      if p.Some? && Enabled(c, p.value, run[n]) then Some(Apply(p.value, run[n])) else None
  }

  // ---------------------------------------------------------------- lock safety

  ghost predicate OneHandler(s: State) {
    forall v, w | v in s.tasks && w in s.tasks && v != w ::
      s.tasks[v].handling && s.tasks[w].handling ==> s.tasks[v].id != s.tasks[w].id
  }

  ghost predicate NoHandlerOnProcessed(s: State) {
    forall w | w in s.tasks && s.tasks[w].handling && s.tasks[w].id in s.msgs ::
      s.msgs[s.tasks[w].id].processedAt.None?
  }

  ghost predicate TaskOk(limit: nat, s: State, t: Task) {
    && t.id in s.msgs
    && t.readAt <= s.clock < t.readAt + limit
    && (t.handling ==> t.id in s.locks && t.readAt + LOCK_TTL <= s.locks[t.id])
    && (t.handling ==> s.msgs[t.id].processedAt.None?)
    && (!t.handling && s.msgs[t.id].processedAt.Some? ==>
          t.id in s.locks && t.readAt + limit <= s.locks[t.id])
  }

  ghost predicate LockInv(limit: nat, s: State) {
    && OneHandler(s)
    && (forall w :: w in s.tasks ==> TaskOk(limit, s, s.tasks[w]))
  }

  /** Taking the lock: any other handler, or a completed one, would still hold it. */
  lemma LockStep(c: Config, s: State, v: WorkerId, id: MsgId)
    requires 2 * c.limit <= LOCK_TTL
    requires LockInv(c.limit, s) && Enabled(c, s, Lock(v, id))
    ensures LockInv(c.limit, Apply(s, Lock(v, id)))
  {
    var s' := Apply(s, Lock(v, id));
    assert TaskOk(c.limit, s, s.tasks[v]);
    forall w | w in s'.tasks
      ensures TaskOk(c.limit, s', s'.tasks[w])
      ensures w != v && v in s'.tasks && s'.tasks[w].handling ==> s'.tasks[w].id != id
    {
      assert TaskOk(c.limit, s, s.tasks[w]);
    }
  }

  /** Marking the row: every reader that saw it unprocessed still finds the lock held. */
  lemma SucceedStep(c: Config, s: State, v: WorkerId, id: MsgId)
    requires 2 * c.limit <= LOCK_TTL
    requires LockInv(c.limit, s) && Enabled(c, s, Succeed(v, id))
    ensures LockInv(c.limit, Apply(s, Succeed(v, id)))
  {
    var s' := Apply(s, Succeed(v, id));
    assert TaskOk(c.limit, s, s.tasks[v]);
    forall w | w in s'.tasks
      ensures TaskOk(c.limit, s', s'.tasks[w])
    {
      assert TaskOk(c.limit, s, s.tasks[w]);
    }
  }

  /** The remaining events start no handler and mark no row. */
  lemma OtherStep(c: Config, s: State, e: Event, w: WorkerId)
    requires Enabled(c, s, e) && !e.Lock? && !e.Succeed?
    requires w in Apply(s, e).tasks
    requires w in s.tasks ==> TaskOk(c.limit, s, s.tasks[w])
    ensures TaskOk(c.limit, Apply(s, e), Apply(s, e).tasks[w])
    ensures Apply(s, e).tasks[w].handling ==>
              w in s.tasks && s.tasks[w].handling && s.tasks[w].id == Apply(s, e).tasks[w].id
  {
    match e
    case Enqueue(id) =>
    case Read(v, id) =>
    case Fail(v, id) =>
    case Crash(v, id, _) =>
    case Stall(v, id) =>
    case _ =>
  }

  lemma OtherSteps(c: Config, s: State, e: Event)
    requires LockInv(c.limit, s) && Enabled(c, s, e) && !e.Lock? && !e.Succeed?
    ensures LockInv(c.limit, Apply(s, e))
  {
    var s' := Apply(s, e);
    forall w | w in s'.tasks
      ensures TaskOk(c.limit, s', s'.tasks[w])
      ensures s'.tasks[w].handling ==> w in s.tasks && s.tasks[w].handling && s.tasks[w].id == s'.tasks[w].id
    {
      OtherStep(c, s, e, w);
    }
  }

  lemma LockInvStep(c: Config, s: State, e: Event)
    requires 2 * c.limit <= LOCK_TTL
    requires LockInv(c.limit, s) && Enabled(c, s, e)
    ensures LockInv(c.limit, Apply(s, e))
  {
    match e
    case Lock(v, id) => LockStep(c, s, v, id);
    case Succeed(v, id) => SucceedStep(c, s, v, id);
    case _ => OtherSteps(c, s, e);
  }

  lemma {:induction false} LockInvRun(c: Config, run: seq<Event>)
    requires 2 * c.limit <= LOCK_TTL
    requires Exec(c, run).Some?
    ensures LockInv(c.limit, Exec(c, run).value)
  {
    if run != [] {
      var n := |run| - 1;
      LockInvRun(c, run[..n]);
      LockInvStep(c, Exec(c, run[..n]).value, run[n]);
    }
  }

  /** Duplicate delivery included, no worker handles a row another one handles or has marked. */
  ghost predicate Safe(limit: nat) {
    forall run | Exec(Config(limit, false), run).Some? ::
      var s := Exec(Config(limit, false), run).value;
      OneHandler(s) && NoHandlerOnProcessed(s)
  }

  lemma Then(c: Config, run: seq<Event>, p: State, e: Event, q: State)
    requires Exec(c, run) == Some(p) && Enabled(c, p, e) && Apply(p, e) == q
    ensures Exec(c, run + [e]) == Some(q)
  {
    assert (run + [e])[..|run|] == run;
  }

  /** A fresh row with its first job waiting. */
  lemma FirstDispatch(c: Config) returns (run: seq<Event>)
    ensures Exec(c, run) == Some(State(0, map[0 := Message(0, None, 0)], map[0 := Job(0, Waiting, None)],
                                       map[], map[], map[]))
  {
    var m := map[0 := Message(0, None, 0)];
    var s1 := State(0, m, map[], map[], map[], map[]);
    Then(c, [], Init(), Enqueue(0), s1);
    assert Pending(s1) == {0};
    var s2 := State(0, m, map[0 := Job(0, Waiting, None)], map[], map[], map[]);
    Then(c, [Enqueue(0)], s1, Dispatch({0}), s2);
    run := [Enqueue(0)] + [Dispatch({0})];
  }

  /** Worker 0 reads and locks at time 0 and is still busy at time 300. */
  lemma SlowWorker(c: Config) returns (run: seq<Event>)
    requires c.limit > 300 && !c.insideTtl
    ensures Exec(c, run) == Some(State(300, map[0 := Message(0, None, 0)], map[0 := Job(0, Active, Some(0))],
                                       map[0 := 600], map[0 := Task(0, 0, true, true)], map[]))
  {
    run := FirstDispatch(c);
    var s2 := Exec(c, run).value;
    var j := map[0 := Job(0, Active, Some(0))];
    var s3 := s2.(jobs := j, tasks := map[0 := Task(0, 0, false, true)]);
    Then(c, run, s2, Read(0, 0), s3);
    var s4 := s3.(locks := map[0 := 600], tasks := map[0 := Task(0, 0, true, true)]);
    Then(c, run + [Read(0, 0)], s3, Lock(0, 0), s4);
    Then(c, run + [Read(0, 0)] + [Lock(0, 0)], s4, Tick(300), s4.(clock := 300));
    run := run + [Read(0, 0)] + [Lock(0, 0)] + [Tick(300)];
  }

  /** The job is delivered again at 300, worker 0 marks the row, and worker 1 locks at 600. */
  lemma LateLock(c: Config) returns (run: seq<Event>)
    requires c.limit > 300 && !c.insideTtl
    ensures Exec(c, run).Some? && !NoHandlerOnProcessed(Exec(c, run).value)
  {
    run := SlowWorker(c);
    var s5 := Exec(c, run).value;
    var s6 := s5.(jobs := map[0 := Job(0, Waiting, Some(0))], tasks := map[0 := Task(0, 0, true, false)],
                  stalls := map[0 := 1]);
    Then(c, run, s5, Stall(0, 0), s6);
    var s7 := s6.(jobs := map[0 := Job(0, Active, Some(0))],
                  tasks := map[0 := Task(0, 0, true, false), 1 := Task(0, 300, false, true)]);
    Then(c, run + [Stall(0, 0)], s6, Read(1, 0), s7);
    var s8 := s7.(msgs := map[0 := Message(0, Some(300), 0)], tasks := map[1 := Task(0, 300, false, true)]);
    Then(c, run + [Stall(0, 0)] + [Read(1, 0)], s7, Succeed(0, 0), s8);
    run := run + [Stall(0, 0)] + [Read(1, 0)] + [Succeed(0, 0)];
    Then(c, run, s8, Tick(300), s8.(clock := 600));
    var s10 := s8.(clock := 600, locks := map[0 := 1200], tasks := map[1 := Task(0, 300, true, true)]);
    Then(c, run + [Tick(300)], s8.(clock := 600), Lock(1, 0), s10);
    run := run + [Tick(300)] + [Lock(1, 0)];
    assert 1 in s10.tasks;
  }

  /** Main result: half the lock TTL is the exact bound on a worker's read-to-update time. */
  lemma HalfTtlIsExact(limit: nat)
    ensures Safe(limit) <==> limit <= 300
  {
    if 2 * limit <= LOCK_TTL {
      forall run | Exec(Config(limit, false), run).Some?
        ensures OneHandler(Exec(Config(limit, false), run).value)
        ensures NoHandlerOnProcessed(Exec(Config(limit, false), run).value)
      {
        LockInvRun(Config(limit, false), run);
        var s := Exec(Config(limit, false), run).value;
        assert forall w :: w in s.tasks ==> TaskOk(limit, s, s.tasks[w]);
      }
    } else {
      var run := LateLock(Config(limit, false));
    }
  }

  // ---------------------------------------------------------------- history

  function Fails(run: seq<Event>, id: MsgId): nat {
    if run == [] then 0
    else Fails(run[..|run| - 1], id) + if run[|run| - 1].Fail? && run[|run| - 1].id == id then 1 else 0
  }

  function Successes(run: seq<Event>, id: MsgId): nat {
    if run == [] then 0
    else Successes(run[..|run| - 1], id) + if run[|run| - 1].Succeed? && run[|run| - 1].id == id then 1 else 0
  }

  lemma RowStep(c: Config, s: State, e: Event, id: MsgId)
    requires Enabled(c, s, e)
    ensures var m' := Apply(s, e).msgs;
            if id !in s.msgs then
              && (e.Succeed? || e.Fail? ==> e.id != id)
              && (id in m' ==> e == Enqueue(id) && m'[id] == Message(s.clock, None, 0))
            else
              && id in m'
              && m'[id].retryCount == s.msgs[id].retryCount + (if e.Fail? && e.id == id then 1 else 0)
              && (m'[id].processedAt.Some? <==> s.msgs[id].processedAt.Some? || (e.Succeed? && e.id == id))
              && m'[id].createdAt == s.msgs[id].createdAt
  {
    match e
    case Succeed(w, _) =>
    case Fail(w, _) =>
    case _ =>
  }

  /** retryCount is the number of failed attempts ever made, and a row is marked by a success alone. */
  lemma {:induction false} RowsRecordHistory(c: Config, run: seq<Event>, id: MsgId)
    requires Exec(c, run).Some?
    ensures var s := Exec(c, run).value;
            if id in s.msgs then
              && s.msgs[id].retryCount == Fails(run, id)
              && (s.msgs[id].processedAt.Some? <==> Successes(run, id) > 0)
            else Fails(run, id) == 0 == Successes(run, id)
  {
    if run != [] {
      var n := |run| - 1;
      RowsRecordHistory(c, run[..n], id);
      RowStep(c, Exec(c, run[..n]).value, run[n], id);
    }
  }

  lemma MarkedIsUnhandled(limit: nat, s: State, id: MsgId)
    requires LockInv(limit, s)
    requires id in s.msgs && s.msgs[id].processedAt.Some?
    ensures forall w :: !Runs(s, w, id, true)
  {
    forall w | w in s.tasks ensures s.tasks[w].id == id ==> !s.tasks[w].handling {
      assert TaskOk(limit, s, s.tasks[w]);
    }
  }

  /** With every worker inside half the TTL, each row is handled to completion at most once. */
  lemma {:induction false} CompletedAtMostOnce(c: Config, run: seq<Event>, id: MsgId)
    requires 2 * c.limit <= LOCK_TTL
    requires Exec(c, run).Some?
    ensures Successes(run, id) <= 1
  {
    if run != [] {
      var n := |run| - 1;
      CompletedAtMostOnce(c, run[..n], id);
      LockInvRun(c, run[..n]);
      var s := Exec(c, run[..n]).value;
      if id in s.msgs && s.msgs[id].processedAt.Some? {
        MarkedIsUnhandled(c.limit, s, id);
      }
      RowsRecordHistory(c, run[..n], id);
    }
  }

  /** A marked row never changes again: neither its mark nor its retry count. */
  lemma ProcessedIsFinal(c: Config, run: seq<Event>, e: Event, id: MsgId)
    requires 2 * c.limit <= LOCK_TTL
    requires Exec(c, run).Some? && Enabled(c, Exec(c, run).value, e)
    requires id in Exec(c, run).value.msgs && Exec(c, run).value.msgs[id].processedAt.Some?
    ensures var s' := Apply(Exec(c, run).value, e);
            id in s'.msgs && s'.msgs[id] == Exec(c, run).value.msgs[id]
  {
    var s := Exec(c, run).value;
    LockInvRun(c, run);
    MarkedIsUnhandled(c.limit, s, id);
    match e
    case Succeed(_, _) =>
    case Fail(_, _) =>
    case _ =>
  }

  // ---------------------------------------------------------------- retry bound

  /** The workers still busy with a row although the queue has given its job to somebody else. */
  function Strays(s: State, id: MsgId): set<WorkerId> {
    set w | w in s.tasks && s.tasks[w].id == id && !s.tasks[w].owns
  }

  /** How many attempts of one job can throw. */
  function Throws(c: Config): nat { if c.insideTtl then 1 else ATTEMPTS }

  ghost predicate OwnerOk(c: Config, s: State, w: WorkerId) {
    w in s.tasks ==>
      var t := s.tasks[w];
      && t.id in s.msgs
      && (t.owns ==>
            && t.id in s.jobs && s.jobs[t.id].phase.Active?
            && s.jobs[t.id].firstAt.Some? && s.jobs[t.id].firstAt.value <= s.clock
            && (t.handling ==> s.jobs[t.id].made < Throws(c))
            && (t.handling ==> t.id in s.locks && s.jobs[t.id].firstAt.value + LOCK_TTL <= s.locks[t.id]))
  }

  ghost predicate OneOwner(s: State) {
    forall v, w | v in s.tasks && w in s.tasks && v != w ::
      s.tasks[v].owns && s.tasks[w].owns ==> s.tasks[v].id != s.tasks[w].id
  }

  ghost predicate JobOk(c: Config, s: State, id: MsgId) {
    id in s.jobs ==>
      var j := s.jobs[id];
      && id in s.msgs
      && j.made <= Throws(c)
      && (!j.phase.Failed? ==> j.made < ATTEMPTS)
      && (c.insideTtl && j.made > 0 ==>
            j.firstAt.Some? && id in s.locks && j.firstAt.value + LOCK_TTL <= s.locks[id])
      && (j.firstAt.Some? ==> j.firstAt.value <= s.clock)
  }

  ghost predicate CountOk(c: Config, s: State, id: MsgId) {
    && |Strays(s, id)| <= Stalls(s, id)
    && (id in s.msgs ==>
          && s.msgs[id].retryCount + |Strays(s, id)| <= MAX_RETRY - 1 + Throws(c) + Stalls(s, id)
          && (id in s.jobs && !s.jobs[id].phase.Failed? ==>
                s.msgs[id].retryCount + |Strays(s, id)| <= MAX_RETRY - 1 + s.jobs[id].made + Stalls(s, id)))
  }

  ghost predicate RetryInv(c: Config, s: State) {
    && (forall w :: OwnerOk(c, s, w))
    && OneOwner(s)
    && (forall id :: JobOk(c, s, id))
    && (forall id :: CountOk(c, s, id))
  }

  lemma OwnerLock(c: Config, s: State, v: WorkerId, id: MsgId, w: WorkerId)
    requires RetryInv(c, s) && Enabled(c, s, Lock(v, id))
    ensures OwnerOk(c, Apply(s, Lock(v, id)), w)
  {
    assert OwnerOk(c, s, w) && OwnerOk(c, s, v);
    assert JobOk(c, s, id);
  }

  lemma OwnerEnd(c: Config, s: State, e: Event, w: WorkerId)
    requires RetryInv(c, s) && Enabled(c, s, e)
    requires e.Succeed? || e.Fail? || e.Crash? || e.Stall?
    ensures OwnerOk(c, Apply(s, e), w)
  {
    assert OwnerOk(c, s, w) && OwnerOk(c, s, e.w);
    match e
    case Succeed(_, _) =>
    case Fail(_, _) =>
    case Crash(_, _, _) =>
    case Stall(_, _) =>
  }

  lemma OwnerStep(c: Config, s: State, e: Event, w: WorkerId)
    requires RetryInv(c, s) && Enabled(c, s, e)
    ensures OwnerOk(c, Apply(s, e), w)
  {
    match e
    case Lock(v, id) => OwnerLock(c, s, v, id, w);
    case Read(v, id) => assert OwnerOk(c, s, w) && JobOk(c, s, id);
    case Enqueue(_) => assert OwnerOk(c, s, w);
    case Dispatch(_) => assert OwnerOk(c, s, w);
    case Evict(_) => assert OwnerOk(c, s, w);
    case Tick(_) => assert OwnerOk(c, s, w);
    case _ => OwnerEnd(c, s, e, w);
  }

  lemma OneOwnerStep(c: Config, s: State, e: Event)
    requires RetryInv(c, s) && Enabled(c, s, e)
    ensures OneOwner(Apply(s, e))
  {
    if e.Read? {
      forall w | w in s.tasks ensures s.tasks[w].owns ==> s.tasks[w].id != e.id {
        assert OwnerOk(c, s, w);
      }
    }
  }

  lemma JobFail(c: Config, s: State, w: WorkerId, i: MsgId, id: MsgId)
    requires Enabled(c, s, Fail(w, i)) && JobOk(c, s, id) && OwnerOk(c, s, w)
    ensures JobOk(c, Apply(s, Fail(w, i)), id)
  {
  }

  lemma JobLock(c: Config, s: State, w: WorkerId, i: MsgId, id: MsgId)
    requires Enabled(c, s, Lock(w, i)) && JobOk(c, s, id) && OwnerOk(c, s, w)
    ensures JobOk(c, Apply(s, Lock(w, i)), id)
  {
  }

  lemma JobStep(c: Config, s: State, e: Event, id: MsgId)
    requires RetryInv(c, s) && Enabled(c, s, e)
    ensures JobOk(c, Apply(s, e), id)
  {
    assert JobOk(c, s, id);
    match e
    case Fail(v, i) =>
      assert OwnerOk(c, s, v);
      JobFail(c, s, v, i, id);
    case Lock(v, i) =>
      assert OwnerOk(c, s, v);
      JobLock(c, s, v, i, id);
    case Succeed(v, _) => assert OwnerOk(c, s, v);
    case Crash(v, _, _) => assert OwnerOk(c, s, v);
    case Stall(v, _) => assert OwnerOk(c, s, v);
    case _ =>
  }

  /** Only Stall makes a stray, and only the stray's own last event removes it. */
  lemma StrayStep(c: Config, s: State, e: Event, id: MsgId)
    requires RetryInv(c, s) && Enabled(c, s, e)
    ensures var z := Strays(s, id);
            Strays(Apply(s, e), id) ==
              match e
              case Stall(w, i) => if i == id then z + {w} else z
              case Succeed(w, _) => z - {w}
              case Fail(w, _) => z - {w}
              case Crash(w, _, _) => z - {w}
              case Lock(w, i) => if LockLive(s, i) then z - {w} else z
              case _ => z
  {
    if e.Stall? {
      assert OwnerOk(c, s, e.w);
    }
  }

  lemma CountStep(c: Config, s: State, e: Event, id: MsgId)
    requires RetryInv(c, s) && Enabled(c, s, e)
    ensures CountOk(c, Apply(s, e), id)
  {
    StrayStep(c, s, e, id);
    RowStep(c, s, e, id);
    assert CountOk(c, s, id) && JobOk(c, s, id);
    match e
    case Fail(w, i) =>
      assert OwnerOk(c, s, w);
      if i == id { FailCount(c, s, w, id); } else { OtherFailCount(c, s, w, i, id); }
    case Stall(w, i) =>
      assert OwnerOk(c, s, w);
      StallCount(c, s, w, i, id);
    case Enqueue(i) =>
      forall w | w in s.tasks ensures s.tasks[w].id != i {
        assert OwnerOk(c, s, w);
      }
    case Crash(w, _, _) =>
      assert OwnerOk(c, s, w);
      EndCount(c, s, e, id);
    case Succeed(_, _) => EndCount(c, s, e, id);
    case Lock(_, _) => EndCount(c, s, e, id);
    case _ => QueueCount(c, s, e, id);
  }

  /** Events of the queue and the clock, which leave the row and its strays alone. */
  lemma QueueCount(c: Config, s: State, e: Event, id: MsgId)
    requires Enabled(c, s, e) && (e.Read? || e.Dispatch? || e.Evict? || e.Tick?)
    requires CountOk(c, s, id) && JobOk(c, s, id) && Strays(Apply(s, e), id) == Strays(s, id)
    ensures CountOk(c, Apply(s, e), id)
  {
  }

  /** Events after which a row has the same count and no more strays. */
  lemma EndCount(c: Config, s: State, e: Event, id: MsgId)
    requires Enabled(c, s, e) && (e.Crash? || e.Succeed? || e.Lock?)
    requires CountOk(c, s, id) && JobOk(c, s, id) && (e.Crash? ==> OwnerOk(c, s, e.w))
    requires Strays(Apply(s, e), id) <= Strays(s, id)
    ensures CountOk(c, Apply(s, e), id)
  {
    assert |Strays(s, id)| == |Strays(Apply(s, e), id)| + |Strays(s, id) - Strays(Apply(s, e), id)|;
  }

  lemma OtherFailCount(c: Config, s: State, w: WorkerId, i: MsgId, id: MsgId)
    requires Enabled(c, s, Fail(w, i)) && i != id && CountOk(c, s, id)
    requires Strays(Apply(s, Fail(w, i)), id) == Strays(s, id) - {w}
    ensures CountOk(c, Apply(s, Fail(w, i)), id)
  {
    assert Strays(s, id) - {w} == Strays(s, id);
  }

  lemma StallCount(c: Config, s: State, w: WorkerId, i: MsgId, id: MsgId)
    requires Enabled(c, s, Stall(w, i)) && CountOk(c, s, id) && JobOk(c, s, id) && OwnerOk(c, s, w)
    requires Strays(Apply(s, Stall(w, i)), id) == if i == id then Strays(s, id) + {w} else Strays(s, id)
    ensures CountOk(c, Apply(s, Stall(w, i)), id)
  {
  }

  lemma FailCount(c: Config, s: State, w: WorkerId, id: MsgId)
    requires Enabled(c, s, Fail(w, id))
    requires CountOk(c, s, id) && JobOk(c, s, id) && OwnerOk(c, s, w)
    requires Strays(Apply(s, Fail(w, id)), id) == Strays(s, id) - {w}
    ensures CountOk(c, Apply(s, Fail(w, id)), id)
  {
    if s.tasks[w].owns {
      assert Strays(s, id) - {w} == Strays(s, id);
    } else {
      assert w in Strays(s, id);
    }
  }

  lemma {:induction false} RetryInvRun(c: Config, run: seq<Event>)
    requires Exec(c, run).Some?
    ensures RetryInv(c, Exec(c, run).value)
  {
    if run != [] {
      var n := |run| - 1;
      RetryInvRun(c, run[..n]);
      var s := Exec(c, run[..n]).value;
      forall w ensures OwnerOk(c, Apply(s, run[n]), w) { OwnerStep(c, s, run[n], w); }
      forall id ensures JobOk(c, Apply(s, run[n]), id) { JobStep(c, s, run[n], id); }
      forall id ensures CountOk(c, Apply(s, run[n]), id) { CountStep(c, s, run[n], id); }
      OneOwnerStep(c, s, run[n]);
    }
  }

  /**
   * Main result: in every run retryCount stays within MAX_RETRY - 1 + 5 = 14 plus the number of duplicate
   * deliveries of that row, and within MAX_RETRY plus that number if no job outlives one lock TTL.
   */
  lemma RetryBound(c: Config, run: seq<Event>, id: MsgId)
    requires Exec(c, run).Some? && id in Exec(c, run).value.msgs
    ensures var s := Exec(c, run).value;
            && s.msgs[id].retryCount <= 14 + Stalls(s, id)
            && (c.insideTtl ==> s.msgs[id].retryCount <= 10 + Stalls(s, id))
  {
    RetryInvRun(c, run);
    assert CountOk(c, Exec(c, run).value, id);
  }

  /** One row, one job with k failed attempts, nobody working and the lock expired. */
  ghost predicate Quiet(s: State, r: nat, k: nat) {
    && s.msgs == map[0 := Message(0, None, r)]
    && s.jobs.Keys == {0} && s.jobs[0].phase.Waiting? && s.jobs[0].made == k
    && s.tasks == map[] && s.stalls == map[] && !LockLive(s, 0)
  }

  /** One row with r failures, its job in the failed set, nobody working and the lock expired. */
  ghost predicate GivenUp(s: State, r: nat) {
    && s.msgs == map[0 := Message(0, None, r)]
    && s.jobs.Keys == {0} && s.jobs[0].phase.Failed?
    && s.tasks == map[] && s.stalls == map[] && !LockLive(s, 0)
  }

  ghost predicate AfterFailure(s: State, r: nat, k: nat) {
    if k < ATTEMPTS then Quiet(s, r, k) else GivenUp(s, r)
  }

  /** A failing attempt followed by a full lock TTL. */
  lemma FailOnce(c: Config, run: seq<Event>, s: State, r: nat, k: nat) returns (run': seq<Event>)
    requires c.limit > 0 && !c.insideTtl && Exec(c, run) == Some(s) && Quiet(s, r, k) && k < ATTEMPTS
    ensures Exec(c, run').Some? && AfterFailure(Exec(c, run').value, r + 1, k + 1)
  {
    var s1 := Apply(s, Read(0, 0));
    Then(c, run, s, Read(0, 0), s1);
    var s2 := Apply(s1, Lock(0, 0));
    Then(c, run + [Read(0, 0)], s1, Lock(0, 0), s2);
    run' := run + [Read(0, 0)] + [Lock(0, 0)];
    run' := FailNow(c, run', s2, r, k);
  }

  lemma FailNow(c: Config, run: seq<Event>, s: State, r: nat, k: nat) returns (run': seq<Event>)
    requires Exec(c, run) == Some(s) && k < ATTEMPTS
    requires s.msgs == map[0 := Message(0, None, r)] && s.stalls == map[]
    requires s.jobs.Keys == {0} && s.jobs[0].made == k
    requires s.tasks == map[0 := Task(0, s.clock, true, true)] && 0 in s.locks
    requires s.locks[0] == s.clock + LOCK_TTL
    ensures Exec(c, run').Some? && AfterFailure(Exec(c, run').value, r + 1, k + 1)
  {
    var s1 := Apply(s, Fail(0, 0));
    Then(c, run, s, Fail(0, 0), s1);
    Then(c, run + [Fail(0, 0)], s1, Tick(LOCK_TTL), s1.(clock := s1.clock + LOCK_TTL));
    run' := run + [Fail(0, 0)] + [Tick(LOCK_TTL)];
  }

  /** n failing attempts of one job in a row; the fifth one leaves the job in the failed set. */
  lemma {:induction false} FailTimes(c: Config, run: seq<Event>, s: State, r: nat, k: nat, n: nat)
    returns (run': seq<Event>)
    requires c.limit > 0 && !c.insideTtl && Exec(c, run) == Some(s) && Quiet(s, r, k)
    requires 0 < n && k + n <= ATTEMPTS
    ensures Exec(c, run').Some? && AfterFailure(Exec(c, run').value, r + n, k + n)
    decreases n
  {
    run' := FailOnce(c, run, s, r, k);
    if n > 1 {
      run' := FailTimes(c, run', Exec(c, run').value, r + 1, k + 1, n - 1);
    }
  }

  /** A failed job is dropped and the row, still under MAX_RETRY, is dispatched again. */
  lemma Redispatch(c: Config, run: seq<Event>, s: State, r: nat) returns (run': seq<Event>)
    requires Exec(c, run) == Some(s) && r < MAX_RETRY && GivenUp(s, r)
    ensures Exec(c, run').Some? && Quiet(Exec(c, run').value, r, 0)
  {
    var s1 := s.(jobs := map[]);
    Then(c, run, s, Evict(0), s1);
    assert Pending(s1) == {0};
    Then(c, run + [Evict(0)], s1, Dispatch({0}), s1.(jobs := map[0 := Job(0, Waiting, None)]));
    run' := run + [Evict(0)] + [Dispatch({0})];
  }

  /** The worker dies before it takes the lock and the queue gives the job up. */
  lemma LoseWorker(c: Config, run: seq<Event>, s: State, r: nat, k: nat) returns (run': seq<Event>)
    requires c.limit > 0 && Exec(c, run) == Some(s) && Quiet(s, r, k)
    ensures Exec(c, run').Some? && GivenUp(Exec(c, run').value, r)
  {
    var s1 := Apply(s, Read(0, 0));
    Then(c, run, s, Read(0, 0), s1);
    Then(c, run + [Read(0, 0)], s1, Crash(0, 0, true), Apply(s1, Crash(0, 0, true)));
    run' := run + [Read(0, 0)] + [Crash(0, 0, true)];
  }

  /** The bound 14 is met: five failures, four failures and a lost worker, five failures. */
  lemma FourteenIsReached(limit: nat)
    requires limit > 0
    ensures exists run | Exec(Config(limit, false), run).Some? ::
              var s := Exec(Config(limit, false), run).value;
              0 in s.msgs && s.msgs[0].retryCount == 14 && Stalls(s, 0) == 0
  {
    var c := Config(limit, false);
    var run := FirstDispatch(c);
    run := FailTimes(c, run, Exec(c, run).value, 0, 0, 5);
    run := Redispatch(c, run, Exec(c, run).value, 5);
    run := FailTimes(c, run, Exec(c, run).value, 5, 0, 4);
    run := LoseWorker(c, run, Exec(c, run).value, 9, 4);
    run := Redispatch(c, run, Exec(c, run).value, 9);
    run := FailTimes(c, run, Exec(c, run).value, 9, 0, 5);
    var s := Exec(c, run).value;
    assert GivenUp(s, 14);
  }

  // ---------------------------------------------------------------- dispatch

  /** A row without a mark that has failed fewer than ten times. */
  predicate Due(m: Message) { m.processedAt == None && m.retryCount < 10 }

  /** A batch written out: due rows, the oldest, all of them or 250. */
  lemma BatchIs(s: State, picked: set<MsgId>)
    ensures IsBatch(s, picked) <==>
            && (forall id | id in picked :: id in s.msgs && Due(s.msgs[id]))
            && |picked| <= 250
            && (|picked| < 250 ==> forall id | id in s.msgs && Due(s.msgs[id]) :: id in picked)
            && (forall a, b | a in picked && b in s.msgs && b !in picked && Due(s.msgs[b]) ::
                  s.msgs[a].createdAt <= s.msgs[b].createdAt)
  {
    if (forall id | id in picked :: id in s.msgs && Due(s.msgs[id])) &&
       forall id | id in s.msgs && Due(s.msgs[id]) :: id in picked
    {
      assert picked == Pending(s);
    }
  }

  /** A tick gives every batched row exactly one job and leaves the jobs already there alone. */
  lemma DispatchGivesOneJob(s: State, picked: set<MsgId>)
    requires IsBatch(s, picked)
    ensures var s' := Apply(s, Dispatch(picked));
            && s'.msgs == s.msgs && s'.jobs.Keys == s.jobs.Keys + picked
            && (forall id | id in s.jobs :: s'.jobs[id] == s.jobs[id])
            && (forall id | id in picked && id !in s.jobs :: s'.jobs[id] == Job(0, Waiting, None))
            && (|Pending(s)| <= 250 ==> forall id | id in s.msgs && Due(s.msgs[id]) :: id in s'.jobs)
  {
    if |Pending(s)| <= BATCH && picked != Pending(s) {
      SubsetSize(picked, Pending(s));
      assert false;
    }
  }

  /** A poison row that nobody holds any more is out of reach for every later event. */
  lemma PoisonIsOutOfReach(c: Config, s: State, e: Event, id: MsgId)
    requires Enabled(c, s, e)
    requires id in s.msgs && s.msgs[id].processedAt == None && s.msgs[id].retryCount >= 10 && id !in s.jobs
    requires forall w :: w in s.tasks ==> s.tasks[w].id != id
    ensures var s' := Apply(s, e);
            && id in s'.msgs && s'.msgs[id] == s.msgs[id] && id !in s'.jobs
            && (forall w :: w in s'.tasks ==> s'.tasks[w].id != id)
  {
    match e
    case Dispatch(picked) => assert id !in Pending(s);
    case Fail(w, _) =>
    case _ =>
  }
}
