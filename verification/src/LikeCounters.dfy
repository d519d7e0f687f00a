/**
 * The like handlers: a like row and a denormalised counter, written by two separate statements.
 *
 * A handler between its two statements is one pending write, kept in the multiset `inflight`; a handler
 * that dies or fails there leaves its write in `lost`. A target is a post or a comment: the two handlers
 * are the same code over different tables.
 */
module LikeCounters {
  import opened Wrappers

  type Target = nat
  type UserId = nat

  datatype Like = Like(target: Target, user: UserId)
  datatype Write = Write(target: Target, up: bool)

  /** `used` remembers every id ever given out: ids are fresh. */
  datatype State = State(
    counts: map<Target, int>,
    likes: set<Like>,
    inflight: multiset<Write>,
    lost: multiset<Write>,
    used: set<Target>)

  datatype Event =
    | Create(t: Target)
    | Delete(t: Target)
    | React(t: Target, user: UserId, isLike: bool)
    | Count(write: Write)
    | Lose(write: Write)

  predicate Enabled(s: State, e: Event) {
    match e
    case Create(t) => t !in s.used
    case Delete(t) => t in s.counts
    case React(_, _, _) => true
    case Count(write) => write in s.inflight
    case Lose(write) => write in s.inflight
  }

  function Delta(up: bool): int { if up then 1 else -1 }

  function Apply(s: State, e: Event): State {
    match e
    case Create(t) => s.(counts := s.counts[t := 0], used := s.used + {t})
    case Delete(t) =>
      s.(counts := s.counts - {t}, likes := set l | l in s.likes && l.target != t)
    case React(t, user, isLike) =>
      var l := Like(t, user);
      if isLike then
        // a missing target is a foreign key error, an existing row a unique violation: no second statement
        if t !in s.counts || l in s.likes then s
        else s.(likes := s.likes + {l}, inflight := s.inflight + multiset{Write(t, true)})
      else
        if l !in s.likes then s
        else s.(likes := s.likes - {l}, inflight := s.inflight + multiset{Write(t, false)})
    case Count(write) =>
      var t := write.target;
      s.(counts := if t in s.counts then s.counts[t := s.counts[t] + Delta(write.up)] else s.counts,
         inflight := s.inflight - multiset{write})
    case Lose(write) =>
      s.(inflight := s.inflight - multiset{write}, lost := s.lost + multiset{write})
  }

  function Init(): State { State(map[], {}, multiset{}, multiset{}, {}) }

  function Exec(run: seq<Event>): Option<State> {
    if run == [] then Some(Init())
    else
      var n := |run| - 1;
      var p := Exec(run[..n]);
      if p.Some? && Enabled(p.value, run[n]) then Some(Apply(p.value, run[n])) else None
  }

  function Rows(s: State, t: Target): set<Like> {
    set l | l in s.likes && l.target == t
  }

  /** Increments minus decrements of one target. */
  function Net(m: multiset<Write>, t: Target): int {
    var ups: int, downs: int := m[Write(t, true)], m[Write(t, false)];
    ups - downs
  }

  ghost predicate Closed(s: State) {
    && s.counts.Keys <= s.used
    && (forall l :: l in s.likes ==> l.target in s.counts)
    && (forall w :: w in s.inflight ==> w.target in s.used)
    && (forall w :: w in s.lost ==> w.target in s.used)
  }

  ghost predicate Balanced(s: State, t: Target) {
    t in s.counts ==> s.counts[t] + Net(s.inflight, t) + Net(s.lost, t) == |Rows(s, t)|
  }

  lemma RowsStep(s: State, e: Event, t: Target)
    ensures Rows(Apply(s, e), t) ==
              match e
              case Delete(d) => if d == t then {} else Rows(s, t)
              case React(x, u, true) =>
                if x == t && x in s.counts then Rows(s, t) + {Like(x, u)} else Rows(s, t)
              case React(x, u, false) => Rows(s, t) - {Like(x, u)}
              case _ => Rows(s, t)
  {
    match e
    case React(x, u, isLike) =>
    case _ =>
  }

  lemma BalancedStep(s: State, e: Event, t: Target)
    requires Closed(s) && Balanced(s, t) && Enabled(s, e)
    ensures Balanced(Apply(s, e), t)
  {
    RowsStep(s, e, t);
    match e
    case Create(x) =>
      if x == t {
        assert Rows(s, t) == {};
        assert Write(t, true) !in s.inflight && Write(t, false) !in s.inflight;
        assert Write(t, true) !in s.lost && Write(t, false) !in s.lost;
      }
    case React(x, u, isLike) =>
      assert Like(x, u) in s.likes && x == t <==> Like(x, u) in Rows(s, t);
    case _ =>
  }

  lemma ClosedStep(s: State, e: Event)
    requires Closed(s) && Enabled(s, e)
    ensures Closed(Apply(s, e))
  {
    match e
    case React(x, u, isLike) =>
    case Count(_) =>
    case Lose(_) =>
    case _ =>
  }

  lemma {:induction false} Invariant(run: seq<Event>)
    requires Exec(run).Some?
    ensures Closed(Exec(run).value)
    ensures forall t :: Balanced(Exec(run).value, t)
  {
    if run != [] {
      var n := |run| - 1;
      Invariant(run[..n]);
      ClosedStep(Exec(run[..n]).value, run[n]);
      forall t ensures Balanced(Exec(run).value, t) {
        BalancedStep(Exec(run[..n]).value, run[n], t);
      }
    }
  }

  /**
   * Main result: under any interleaving, duplication and reordering, the counter of a live target plus its
   * pending and lost writes is the number of its like rows.
   */
  lemma CounterBalance(run: seq<Event>, t: Target)
    requires Exec(run).Some? && t in Exec(run).value.counts
    ensures var s := Exec(run).value;
            s.counts[t] + Net(s.inflight, t) + Net(s.lost, t) == |Rows(s, t)|
  {
    Invariant(run);
    assert Balanced(Exec(run).value, t);
  }

  /** With no handler mid-way on it, a counter is right exactly when its lost writes cancel out. */
  lemma CounterExactness(run: seq<Event>, t: Target)
    requires Exec(run).Some? && t in Exec(run).value.counts
    requires forall w :: w in Exec(run).value.inflight ==> w.target != t
    ensures var s := Exec(run).value;
            s.counts[t] == |Rows(s, t)| <==> s.lost[Write(t, true)] == s.lost[Write(t, false)]
  {
    CounterBalance(run, t);
    var s := Exec(run).value;
    assert Write(t, true) !in s.inflight && Write(t, false) !in s.inflight;
  }

  predicate IsLose(e: Event) { e.Lose? }

  lemma {:induction false} NothingLost(run: seq<Event>)
    requires Exec(run).Some? && forall i | 0 <= i < |run| :: !IsLose(run[i])
    ensures Exec(run).value.lost == multiset{}
  {
    if run != [] {
      assert forall i | 0 <= i < |run| - 1 :: run[..|run| - 1][i] == run[i];
      NothingLost(run[..|run| - 1]);
      assert !IsLose(run[|run| - 1]);
    }
  }

  /** Without a failure between the two statements the counter never drifts. */
  lemma NoCrashNoDrift(run: seq<Event>, t: Target)
    requires Exec(run).Some? && t in Exec(run).value.counts
    requires forall i | 0 <= i < |run| :: !IsLose(run[i])
    ensures var s := Exec(run).value; s.counts[t] + Net(s.inflight, t) == |Rows(s, t)|
  {
    CounterBalance(run, t);
    NothingLost(run);
  }

  /** What the last reaction of a user on a target says, counted from the target's creation. */
  function LastReaction(run: seq<Event>, t: Target, u: UserId): bool {
    if run == [] then false
    else
      var n := |run| - 1;
      match run[n]
      case Create(x) => if x == t then false else LastReaction(run[..n], t, u)
      case Delete(x) => if x == t then false else LastReaction(run[..n], t, u)
      case React(x, v, isLike) =>
        if x == t && v == u then isLike && Exec(run[..n]).Some? && t in Exec(run[..n]).value.counts
        else LastReaction(run[..n], t, u)
      case _ => LastReaction(run[..n], t, u)
  }

  /** A like row exists exactly when the user's last reaction on the live target was a like. */
  lemma {:induction false} RowsAreLastReactions(run: seq<Event>, t: Target, u: UserId)
    requires Exec(run).Some?
    ensures Like(t, u) in Exec(run).value.likes <==> LastReaction(run, t, u)
  {
    if run != [] {
      var n := |run| - 1;
      Invariant(run[..n]);
      RowsAreLastReactions(run[..n], t, u);
      var s := Exec(run[..n]).value;
      RowsStep(s, run[n], t);
      assert Like(t, u) in s.likes <==> Like(t, u) in Rows(s, t);
      assert Like(t, u) in Apply(s, run[n]).likes <==> Like(t, u) in Rows(Apply(s, run[n]), t);
    }
  }

  /** The lost write cannot be repaired by a retry: the retried like finds its row and does nothing. */
  lemma RetryDoesNotRepair(s: State, t: Target, u: UserId)
    requires Closed(s) && t in s.counts && Like(t, u) !in s.likes
    ensures var s1 := Apply(s, React(t, u, true));
            var s2 := Apply(s1, Lose(Write(t, true)));
            Enabled(s1, Lose(Write(t, true))) && Apply(s2, React(t, u, true)) == s2
            && s2.counts == s.counts && |Rows(s2, t)| == |Rows(s, t)| + 1
  {
    RowsStep(s, React(t, u, true), t);
    var s1 := Apply(s, React(t, u, true));
    RowsStep(s1, Lose(Write(t, true)), t);
    assert Like(t, u) !in Rows(s, t);
  }

  // ---------------------------------------------------------------- the handlers

  datatype Outcome = Done | Thrown

  /** One reaction with both statements back to back. */
  function Handle(s: State, t: Target, user: UserId, isLike: bool): State {
    var s1 := Apply(s, React(t, user, isLike));
    if Write(t, isLike) in s1.inflight then Apply(s1, Count(Write(t, isLike))) else s1
  }

  /** No handler mid-way, nothing lost, every counter right. */
  ghost predicate Settled(s: State) {
    && Closed(s) && s.inflight == multiset{} && s.lost == multiset{}
    && forall t :: t in s.counts ==> s.counts[t] == |Rows(s, t)|
  }

  /** Both statements together, spelled out. */
  function Settle(s: State, t: Target, user: UserId, isLike: bool): State {
    var l := Like(t, user);
    if isLike then
      if t !in s.counts || l in s.likes then s
      else s.(likes := s.likes + {l}, counts := s.counts[t := s.counts[t] + 1])
    else
      if l !in s.likes || t !in s.counts then s.(likes := s.likes - {l})
      else s.(likes := s.likes - {l}, counts := s.counts[t := s.counts[t] - 1])
  }

  lemma HandleIsSettle(s: State, t: Target, user: UserId, isLike: bool)
    requires s.inflight == multiset{}
    ensures Handle(s, t, user, isLike) == Settle(s, t, user, isLike)
  {
    if !isLike && Like(t, user) !in s.likes {
      assert s.likes - {Like(t, user)} == s.likes;
    }
  }

  /** A handled reaction leaves exactly the row it asks for and nothing pending. */
  lemma HandleRows(s: State, t: Target, user: UserId, isLike: bool)
    requires s.inflight == multiset{}
    ensures var s' := Handle(s, t, user, isLike);
            && s'.inflight == multiset{} && s'.lost == s.lost && s'.counts.Keys == s.counts.Keys
            && s'.likes == if !isLike then s.likes - {Like(t, user)}
                           else if t in s.counts then s.likes + {Like(t, user)} else s.likes
  {
    HandleIsSettle(s, t, user, isLike);
  }

  lemma HandleBalanced(s: State, t: Target, user: UserId, isLike: bool, x: Target)
    requires Closed(s) && Balanced(s, x)
    ensures Closed(Handle(s, t, user, isLike)) && Balanced(Handle(s, t, user, isLike), x)
  {
    var e := React(t, user, isLike);
    var s1 := Apply(s, e);
    ClosedStep(s, e);
    BalancedStep(s, e, x);
    if Write(t, isLike) in s1.inflight {
      ClosedStep(s1, Count(Write(t, isLike)));
      BalancedStep(s1, Count(Write(t, isLike)), x);
    }
  }

  /** A handled reaction keeps the tables settled. */
  lemma HandleSettles(s: State, t: Target, user: UserId, isLike: bool)
    requires Settled(s)
    ensures Settled(Handle(s, t, user, isLike))
  {
    HandleRows(s, t, user, isLike);
    HandleBalanced(s, t, user, isLike, t);
    forall x ensures Balanced(Handle(s, t, user, isLike), x) {
      assert x in s.counts ==> s.counts[x] == |Rows(s, x)|;
      HandleBalanced(s, t, user, isLike, x);
    }
    SettledFromBalance(Handle(s, t, user, isLike));
  }

  lemma SettledFromBalance(s: State)
    requires Closed(s) && s.inflight == multiset{} && s.lost == multiset{}
    requires forall x :: Balanced(s, x)
    ensures Settled(s)
  {
    forall t | t in s.counts ensures s.counts[t] == |Rows(s, t)| {
      assert Balanced(s, t);
    }
  }

  /** Handling the same event again changes nothing: redelivery is harmless. */
  lemma HandleIsIdempotent(s: State, t: Target, user: UserId, isLike: bool)
    requires Settled(s)
    ensures var s' := Handle(s, t, user, isLike); Handle(s', t, user, isLike) == s'
  {
    HandleRows(s, t, user, isLike);
  }

  /** The tables the two reaction handlers write, with nothing else running. */
  class Reactions {
    var counts: map<Target, int>
    var likes: set<Like>
    ghost var used: set<Target>

    ghost function Snapshot(): State
      reads this
    {
      State(counts, likes, multiset{}, multiset{}, used)
    }

    /** handlePostReaction and handleCommentReaction: the row first, then the counter if a row changed. */
    method HandleReaction(t: Target, user: UserId, isLike: bool) returns (r: Outcome)
      requires Settled(Snapshot())
      modifies this`counts, this`likes
      ensures Settled(Snapshot())
      ensures r == Thrown <==> isLike && t !in old(counts)
      ensures Snapshot() == Handle(old(Snapshot()), t, user, isLike)
    {
      ghost var s := Snapshot();
      HandleSettles(s, t, user, isLike);
      HandleIsSettle(s, t, user, isLike);
      var l := Like(t, user);
      assert l in likes ==> t in counts;
      if isLike {
        if t !in counts {
          return Thrown;
        }
        if l !in likes {
          likes := likes + {l};
          counts := counts[t := counts[t] + 1];
        }
      } else {
        var count := if l in likes then 1 else 0;
        likes := likes - {l};
        if count > 0 {
          counts := counts[t := counts[t] - 1];
        }
      }
      assert Snapshot() == Settle(s, t, user, isLike);
      return Done;
    }
  }
}
