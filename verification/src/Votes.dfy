/** Votes on a post: one row per user, two counters moved by deltas, and the percentages shown. */
module Votes {
  import opened Wrappers

  type User = nat
  type Worker = nat

  datatype Choice = Agree | Disagree

  /** A call between its read of the user's vote and its transaction. */
  datatype Pending = Pending(user: User, choice: Choice, seen: Option<Choice>)
  datatype State = State(rows: map<User, Choice>, agree: int, disagree: int, pending: map<Worker, Pending>)

  datatype Event = Read(w: Worker, user: User, choice: Choice) | Commit(w: Worker)

  function VoteOf(rows: map<User, Choice>, user: User): Option<Choice> {
    if user in rows then Some(rows[user]) else None
  }

  function One(vote: Option<Choice>, choice: Choice): int { if vote == Some(choice) then 1 else 0 }

  predicate Enabled(s: State, e: Event) {
    match e
    case Read(w, user, choice) => w !in s.pending
    case Commit(w) => w in s.pending
  }

  /** A call that finds its own choice already there ends at once. */
  function Apply(s: State, e: Event): State {
    match e
    case Read(w, user, choice) =>
      var seen := VoteOf(s.rows, user);
      if seen == Some(choice) then s else s.(pending := s.pending[w := Pending(user, choice, seen)])
    case Commit(w) =>
      if w !in s.pending then s
      else
        var p := s.pending[w];
        State(s.rows[p.user := p.choice],
              s.agree + One(Some(p.choice), Agree) - One(p.seen, Agree),
              s.disagree + One(Some(p.choice), Disagree) - One(p.seen, Disagree),
              s.pending - {w})
  }

  /** A call for the vote that is there already never opens a transaction, and any other call does. */
  lemma SameVoteIsIdle(s: State, w: Worker, user: User, choice: Choice)
    requires Enabled(s, Read(w, user, choice))
    ensures Apply(s, Read(w, user, choice)) == s <==> user in s.rows && s.rows[user] == choice
    ensures w in Apply(s, Read(w, user, choice)).pending <==> !(user in s.rows && s.rows[user] == choice)
  {
  }

  function Exec(run: seq<Event>): Option<State> {
    if run == [] then Some(State(map[], 0, 0, map[]))
    else
      var n := |run| - 1;
      var p := Exec(run[..n]);
      if p.Some? && Enabled(p.value, run[n]) then Some(Apply(p.value, run[n])) else None
  }

  function Voters(rows: map<User, Choice>, choice: Choice): set<User> { set u | u in rows && rows[u] == choice }

  ghost predicate Exact(s: State) { s.agree == |Voters(s.rows, Agree)| && s.disagree == |Voters(s.rows, Disagree)| }

  lemma VotersAfter(rows: map<User, Choice>, user: User, choice: Choice, c: Choice)
    ensures |Voters(rows[user := choice], c)| ==
            |Voters(rows, c)| + One(Some(choice), c) - One(VoteOf(rows, user), c)
  {
    var after := Voters(rows[user := choice], c);
    if choice == c {
      assert after == Voters(rows, c) + {user};
    } else {
      assert after == Voters(rows, c) - {user};
    }
  }

  /** How far the counter moves away from the rows in a commit: the vote overwritten, less the vote that was read. */
  function Slip(s: State, e: Event, c: Choice): int {
    if e.Commit? && e.w in s.pending then
      One(VoteOf(s.rows, s.pending[e.w].user), c) - One(s.pending[e.w].seen, c)
    else 0
  }

  function Slips(run: seq<Event>, c: Choice): int {
    if run == [] then 0
    else
      var n := |run| - 1;
      Slips(run[..n], c) + if Exec(run[..n]).Some? then Slip(Exec(run[..n]).value, run[n], c) else 0
  }

  /** Main result. In every interleaving the counters are the rows plus the slips of commits whose read was stale. */
  lemma {:induction false} CountersAreRowsPlusSlips(run: seq<Event>)
    requires Exec(run).Some?
    ensures Exec(run).value.agree == |Voters(Exec(run).value.rows, Agree)| + Slips(run, Agree)
    ensures Exec(run).value.disagree == |Voters(Exec(run).value.rows, Disagree)| + Slips(run, Disagree)
  {
    if run != [] {
      var n := |run| - 1;
      CountersAreRowsPlusSlips(run[..n]);
      var s := Exec(run[..n]).value;
      if run[n].Commit? {
        var p := s.pending[run[n].w];
        VotersAfter(s.rows, p.user, p.choice, Agree);
        VotersAfter(s.rows, p.user, p.choice, Disagree);
      }
    }
  }

  lemma OnesDecide(a: Option<Choice>, b: Option<Choice>)
    ensures One(a, Agree) == One(b, Agree) && One(a, Disagree) == One(b, Disagree) <==> a == b
  {
    assert a.Some? ==> a.value == Agree || a.value.Disagree?;
    assert b.Some? ==> b.value == Agree || b.value.Disagree?;
  }

  /** A commit keeps exact counters exact if and only if the user's vote is still the one that was read. */
  lemma CommitIsExactIffReadIsFresh(s: State, w: Worker)
    requires Exact(s) && w in s.pending
    ensures Exact(Apply(s, Commit(w))) <==> s.pending[w].seen == VoteOf(s.rows, s.pending[w].user)
  {
    var p := s.pending[w];
    OnesDecide(p.seen, VoteOf(s.rows, p.user));
    VotersAfter(s.rows, p.user, p.choice, Agree);
    VotersAfter(s.rows, p.user, p.choice, Disagree);
  }

  /** Every call commits before the next one reads. */
  ghost predicate OneAtATime(run: seq<Event>) {
    forall i | 0 <= i < |run| && run[i].Commit? :: i > 0 && run[i - 1].Read? && run[i - 1].w == run[i].w
  }

  lemma {:induction false} OneAtATimeIsExact(run: seq<Event>)
    requires Exec(run).Some? && OneAtATime(run)
    ensures Exact(Exec(run).value)
  {
    if run != [] {
      var n := |run| - 1;
      assert forall i | 0 <= i < n :: run[..n][i] == run[i];
      assert OneAtATime(run[..n]);
      OneAtATimeIsExact(run[..n]);
      if run[n].Commit? {
        assert run[..n][..n - 1] == run[..n - 1];
        assert run[..n][n - 1] == run[n - 1];
        CommitIsExactIffReadIsFresh(Exec(run[..n]).value, run[n].w);
      }
    }
  }

  /** A double click: two calls of one user read before either commits, and the second commit counts once more. */
  lemma DoubleClickCountsTwice(s: State, v: Worker, w: Worker, user: User, choice: Choice)
    requires Exact(s) && v != w && v !in s.pending && w !in s.pending && VoteOf(s.rows, user) != Some(choice)
    ensures var read := Apply(Apply(s, Read(v, user, choice)), Read(w, user, choice));
            var after := Apply(Apply(read, Commit(v)), Commit(w));
            && v in read.pending && w in read.pending && Exact(Apply(read, Commit(v)))
            && after.rows == s.rows[user := choice] && !Exact(after)
            && after.agree == |Voters(after.rows, Agree)| + One(Some(choice), Agree) - One(VoteOf(s.rows, user), Agree)
            && after.disagree ==
               |Voters(after.rows, Disagree)| + One(Some(choice), Disagree) - One(VoteOf(s.rows, user), Disagree)
  {
    VotersAfter(s.rows, user, choice, Agree);
    VotersAfter(s.rows, user, choice, Disagree);
    assert s.rows[user := choice][user := choice] == s.rows[user := choice];
    OnesDecide(Some(choice), VoteOf(s.rows, user));
  }

  // ---------------------------------------------------------------- one call, and what is shown

  datatype Status = NotFound | Disabled | Unchanged | Applied

  /** The post as one call sees it, with nobody else between its read and its transaction. */
  class PostVotes {
    var present: bool
    var enabled: bool
    var rows: map<User, Choice>
    var agreeCount: int
    var disagreeCount: int

    ghost predicate Exact()
      reads this
    {
      agreeCount == |Voters(rows, Agree)| && disagreeCount == |Voters(rows, Disagree)|
    }

    method Vote(user: User, choice: Choice) returns (status: Status, agree: int, disagree: int)
      requires Exact()
      modifies this
      ensures Exact() && present == old(present) && enabled == old(enabled)
      ensures status == NotFound <==> !present
      ensures status == Disabled <==> present && !enabled
      ensures present && enabled ==> rows == old(rows)[user := choice]
      ensures !(present && enabled) ==> rows == old(rows)
      ensures status == Unchanged <==> present && enabled && user in old(rows) && old(rows)[user] == choice
      ensures if present then agree == agreeCount && disagree == disagreeCount else agree == 0 == disagree
    {
      if !present {
        return NotFound, 0, 0;
      }
      if !enabled {
        return Disabled, agreeCount, disagreeCount;
      }
      var existing := VoteOf(rows, user);
      if existing == Some(choice) {
        assert rows[user := choice] == rows;
        return Unchanged, agreeCount, disagreeCount;
      }
      var agreeDelta, disagreeDelta := 0, 0;
      if existing.Some? {
        if existing.value == Agree {
          agreeDelta := agreeDelta - 1;
        } else {
          disagreeDelta := disagreeDelta - 1;
        }
      }
      if choice == Agree {
        agreeDelta := agreeDelta + 1;
      } else {
        disagreeDelta := disagreeDelta + 1;
      }
      VotersAfter(rows, user, choice, Agree);
      VotersAfter(rows, user, choice, Disagree);
      status, agree, disagree := Applied, agreeCount + agreeDelta, disagreeCount + disagreeDelta;
      rows := rows[user := choice];
      agreeCount := agreeCount + agreeDelta;
      disagreeCount := disagreeCount + disagreeDelta;
    }
  }

  /** `Math.round(agree * 100 / total)`, halves up. */
  function AgreePercentage(agree: nat, disagree: nat): int {
    if agree + disagree == 0 then 0 else (200 * agree + agree + disagree) / (2 * (agree + disagree))
  }

  function DisagreePercentage(agree: nat, disagree: nat): int {
    if agree + disagree == 0 then 0 else 100 - AgreePercentage(agree, disagree)
  }

  lemma NoVotesNoShares()
    ensures AgreePercentage(0, 0) == 0 == DisagreePercentage(0, 0)
  {
  }

  /** With a vote cast the two add up to 100; each is within half a point of its share, and agreement rounds up. */
  lemma PercentagesAreShares(agree: nat, disagree: nat)
    requires agree + disagree > 0
    ensures AgreePercentage(agree, disagree) + DisagreePercentage(agree, disagree) == 100
    ensures var t := agree + disagree;
            && -t <= 200 * agree - 2 * (AgreePercentage(agree, disagree) * t) < t
            && -t <= 200 * disagree - 2 * (DisagreePercentage(agree, disagree) * t) <= t
    ensures 0 <= AgreePercentage(agree, disagree) <= 100
  {
    var t := agree + disagree;
    var n := 200 * agree + t;
    var q, r := n / (2 * t), n % (2 * t);
    assert n == q * (2 * t) + r && 0 <= r < 2 * t;
    assert q * (2 * t) == 2 * (q * t);
    assert (100 - q) * t == 100 * t - q * t;
    if q > 100 {
      TimesAtLeast(q, 101, t);
    }
  }

  lemma TimesAtLeast(q: int, k: int, t: int)
    requires q >= k && t > 0
    ensures q * t >= k * t
  {
    assert (q - k) * t >= 0;
  }
}
