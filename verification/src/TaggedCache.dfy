/**
 * Cache-aside with tag sets and expiry, as an event machine over Redis keys and a clock in seconds.
 *
 * A cached value is represented by `made`, the number of invalidations begun when its producer read the
 * database. Producing and storing are separate events, and so are the two round trips of an invalidation:
 * Scan is SMEMBERS, Drop is the pipeline of DELs. Redis is up throughout.
 */
module TaggedCache {
  import opened Wrappers

  const TAG_TTL_BUFFER_SECONDS: nat := 60

  type Key = nat
  type Tag = nat
  type Caller = nat

  /** `late` is history: an invalidation of one of the tags was over before the value was stored. */
  datatype Entry = Entry(made: nat, expires: nat, tags: set<Tag>, late: bool)
  datatype TagSet = TagSet(members: set<Key>, expires: nat)
  datatype Produced = Produced(key: Key, ttl: nat, tags: set<Tag>, made: nat)
  datatype Window = Window(tag: Tag, found: set<Key>, stamp: nat)

  datatype State = State(
    clock: nat,
    entries: map<Key, Entry>,
    tagSets: map<Tag, TagSet>,
    begun: nat,
    invalidated: map<Tag, nat>,
    producing: map<Caller, Produced>,
    windows: map<Caller, Window>)

  datatype Event =
    | Produce(c: Caller, key: Key, ttl: nat, tags: set<Tag>)
    | Store(c: Caller)
    | Scan(c: Caller, tag: Tag)
    | Drop(c: Caller)
    | Tick(d: nat)

  /** Every TTL lies in lo..hi; `guarded` keeps stores out of open invalidation windows of their tags. */
  datatype Config = Config(lo: nat, hi: nat, guarded: bool)

  predicate Live(s: State, k: Key) { k in s.entries && s.clock < s.entries[k].expires }

  /** SMEMBERS: an expired set is empty. */
  function Members(s: State, t: Tag): set<Key> {
    if t in s.tagSets && s.clock < s.tagSets[t].expires then s.tagSets[t].members else {}
  }

  function Invalidated(s: State, t: Tag): nat {
    if t in s.invalidated then s.invalidated[t] else 0
  }

  /** A value the last finished invalidation of one of these tags should have removed. */
  ghost predicate Stale(s: State, made: nat, tags: set<Tag>) {
    exists t :: t in tags && made < Invalidated(s, t)
  }

  ghost predicate Enabled(c: Config, s: State, e: Event) {
    match e
    case Produce(w, _, ttl, _) => w !in s.producing && c.lo <= ttl <= c.hi
    case Store(w) =>
      && w in s.producing
      && (c.guarded ==> forall v :: v in s.windows ==> s.windows[v].tag !in s.producing[w].tags)
    case Scan(w, _) => w !in s.windows
    case Drop(w) => w in s.windows
    case Tick(_) => true
  }

  /** SET EX, then SADD and EXPIRE for every tag. */
  function Bind(s: State, key: Key, tags: set<Tag>, expires: nat): map<Tag, TagSet> {
    map t | t in s.tagSets.Keys + tags ::
      if t in tags then TagSet(Members(s, t) + {key}, expires) else s.tagSets[t]
  }

  ghost function Apply(s: State, e: Event): State {
    match e
    case Produce(w, key, ttl, tags) =>
      s.(producing := s.producing[w := Produced(key, ttl, tags, s.begun)])
    case Store(w) =>
      if w !in s.producing then s
      else
        var p := s.producing[w];
        s.(entries := s.entries[p.key := Entry(p.made, s.clock + p.ttl, p.tags, Stale(s, p.made, p.tags))],
           tagSets := Bind(s, p.key, p.tags, s.clock + p.ttl + TAG_TTL_BUFFER_SECONDS),
           producing := s.producing - {w})
    case Scan(w, t) =>
      s.(begun := s.begun + 1, windows := s.windows[w := Window(t, Members(s, t), s.begun + 1)])
    case Drop(w) =>
      if w !in s.windows then s
      else
        var o := s.windows[w];
        s.(entries := s.entries - o.found,
           tagSets := s.tagSets - {o.tag},
           invalidated := s.invalidated[o.tag := if o.stamp < Invalidated(s, o.tag) then Invalidated(s, o.tag)
                                                 else o.stamp],
           windows := s.windows - {w})
    case Tick(d) => s.(clock := s.clock + d)
  }

  function Init(): State { State(0, map[], map[], 0, map[], map[], map[]) }

  ghost function Exec(c: Config, run: seq<Event>): Option<State> {
    if run == [] then Some(Init())
    else
      var n := |run| - 1;
      var p := Exec(c, run[..n]);
      if p.Some? && Enabled(c, p.value, run[n]) then Some(Apply(p.value, run[n])) else None
  }

  /** Every live entry is in each of its tag sets, and each of these sets outlives it. */
  ghost predicate Indexed(s: State) {
    forall k, t | Live(s, k) && t in s.entries[k].tags ::
      && t in s.tagSets && k in s.tagSets[t].members && s.entries[k].expires <= s.tagSets[t].expires
  }

  ghost predicate Bounded(c: Config, s: State) {
    && (forall k | k in s.entries :: s.entries[k].expires <= s.clock + c.hi)
    && (forall w | w in s.producing :: c.lo <= s.producing[w].ttl <= c.hi)
  }

  /** An open window has found every live entry of its tag. */
  ghost predicate WindowsComplete(s: State) {
    forall w, k | w in s.windows && Live(s, k) && s.windows[w].tag in s.entries[k].tags :: k in s.windows[w].found
  }

  ghost predicate LateIsStale(s: State) {
    forall k | Live(s, k) :: s.entries[k].late <==> Stale(s, s.entries[k].made, s.entries[k].tags)
  }

  ghost predicate Inv(c: Config, s: State) {
    Bounded(c, s) && Indexed(s) && WindowsComplete(s) && LateIsStale(s)
  }

  lemma StoreStep(c: Config, s: State, w: Caller)
    requires c.guarded && c.hi <= c.lo + TAG_TTL_BUFFER_SECONDS
    requires Inv(c, s) && Enabled(c, s, Store(w))
    ensures Inv(c, Apply(s, Store(w)))
  {
    var s' := Apply(s, Store(w));
    var p := s.producing[w];
    forall k | Live(s', k)
      ensures k != p.key ==> Live(s, k) && s'.entries[k] == s.entries[k]
      ensures s'.entries[k].late <==> Stale(s', s'.entries[k].made, s'.entries[k].tags)
    {
      assert Stale(s', s'.entries[k].made, s'.entries[k].tags) <==> Stale(s, s'.entries[k].made, s'.entries[k].tags);
    }
  }

  lemma DropStep(c: Config, s: State, w: Caller)
    requires Inv(c, s) && Enabled(c, s, Drop(w))
    ensures Inv(c, Apply(s, Drop(w)))
  {
    var s' := Apply(s, Drop(w));
    var o := s.windows[w];
    forall k | Live(s', k)
      ensures o.tag !in s'.entries[k].tags && Live(s, k) && s'.entries[k] == s.entries[k]
      ensures s'.entries[k].late <==> Stale(s', s'.entries[k].made, s'.entries[k].tags)
    {
      assert forall t | t in s.entries[k].tags :: Invalidated(s', t) == Invalidated(s, t);
    }
  }

  lemma RestStep(c: Config, s: State, e: Event)
    requires Inv(c, s) && Enabled(c, s, e) && !e.Store? && !e.Drop?
    ensures Inv(c, Apply(s, e))
  {
    var s' := Apply(s, e);
    forall k | Live(s', k)
      ensures Live(s, k) && s'.entries[k] == s.entries[k]
      ensures s'.entries[k].late <==> Stale(s', s'.entries[k].made, s'.entries[k].tags)
    {
      assert forall t :: Invalidated(s', t) == Invalidated(s, t);
    }
    if e.Scan? {
      forall k | Live(s', k) && e.tag in s'.entries[k].tags ensures k in Members(s, e.tag) {
        assert Live(s, k);
      }
    }
  }

  lemma {:induction false} InvRun(c: Config, run: seq<Event>)
    requires c.guarded && c.hi <= c.lo + TAG_TTL_BUFFER_SECONDS
    requires Exec(c, run).Some?
    ensures Inv(c, Exec(c, run).value)
  {
    if run != [] {
      var n := |run| - 1;
      InvRun(c, run[..n]);
      var s := Exec(c, run[..n]).value;
      match run[n]
      case Store(w) => StoreStep(c, s, w);
      case Drop(w) => DropStep(c, s, w);
      case _ => RestStep(c, s, run[n]);
    }
  }

  /**
   * Main result: a hit returns a value older than a finished invalidation of one of its tags exactly when
   * such an invalidation ended between the value's production and its storing.
   */
  lemma HitIsFreshExactly(c: Config, run: seq<Event>, k: Key)
    requires c.guarded && c.hi <= c.lo + TAG_TTL_BUFFER_SECONDS
    requires Exec(c, run).Some? && Live(Exec(c, run).value, k)
    ensures var s := Exec(c, run).value;
            Stale(s, s.entries[k].made, s.entries[k].tags) <==> s.entries[k].late
  {
    InvRun(c, run);
  }

  lemma {:induction false} StampsAreBounded(c: Config, run: seq<Event>)
    requires Exec(c, run).Some?
    ensures var s := Exec(c, run).value;
            && (forall t :: Invalidated(s, t) <= s.begun)
            && (forall w | w in s.windows :: s.windows[w].stamp <= s.begun)
  {
    if run != [] {
      var n := |run| - 1;
      StampsAreBounded(c, run[..n]);
      var s, s' := Exec(c, run[..n]).value, Exec(c, run).value;
      forall t ensures Invalidated(s', t) <= s'.begun {
        assert Invalidated(s, t) <= s.begun;
      }
    }
  }

  /** Every Store directly follows its own Produce. */
  ghost predicate Atomic(run: seq<Event>) {
    forall i | 0 <= i < |run| && run[i].Store? ::
      i > 0 && run[i - 1].Produce? && run[i - 1].c == run[i].c
  }

  lemma {:induction false} AtomicIsNeverLate(c: Config, run: seq<Event>)
    requires Exec(c, run).Some? && Atomic(run)
    ensures var s := Exec(c, run).value; forall k | k in s.entries :: !s.entries[k].late
  {
    if run != [] {
      var n := |run| - 1;
      AtomicIsNeverLate(c, run[..n]);
      StampsAreBounded(c, run[..n]);
      if run[n].Store? {
        var r := run[..n];
        assert r[..n - 1] == run[..n - 1] && r[n - 1] == run[n - 1];
      }
    }
  }

  /** With production and storing back to back, no hit ever returns a value older than an invalidation. */
  lemma AtomicGetOrSetIsFresh(c: Config, run: seq<Event>, k: Key)
    requires c.guarded && c.hi <= c.lo + TAG_TTL_BUFFER_SECONDS
    requires Exec(c, run).Some? && Atomic(run) && Live(Exec(c, run).value, k)
    ensures var s := Exec(c, run).value; !Stale(s, s.entries[k].made, s.entries[k].tags)
  {
    AtomicIsNeverLate(c, run);
    HitIsFreshExactly(c, run, k);
  }

  // ---------------------------------------------------------------- what the conditions are for

  lemma Then(c: Config, run: seq<Event>, p: State, e: Event)
    requires Exec(c, run) == Some(p) && Enabled(c, p, e)
    ensures Exec(c, run + [e]) == Some(Apply(p, e))
  {
    assert (run + [e])[..|run|] == run;
  }

  /** One caller produces and stores a key under tag 0. */
  lemma Put(c: Config, run: seq<Event>, s: State, key: Key, ttl: nat) returns (run': seq<Event>)
    requires Exec(c, run) == Some(s) && s.producing == map[] && s.windows == map[]
    requires c.lo <= ttl <= c.hi
    ensures Exec(c, run').Some?
    ensures var s' := Exec(c, run').value;
            && s'.clock == s.clock && s'.producing == map[] && s'.windows == map[]
            && s'.begun == s.begun && s'.invalidated == s.invalidated
            && s'.entries == s.entries[key := Entry(s.begun, s.clock + ttl, {0}, Stale(s, s.begun, {0}))]
            && s'.tagSets == Bind(s, key, {0}, s.clock + ttl + TAG_TTL_BUFFER_SECONDS)
  {
    Then(c, run, s, Produce(0, key, ttl, {0}));
    var s1 := Apply(s, Produce(0, key, ttl, {0}));
    assert forall t :: Invalidated(s1, t) == Invalidated(s, t);
    Then(c, run + [Produce(0, key, ttl, {0})], s1, Store(0));
    assert s1.producing - {0} == map[];
    assert Stale(s1, s.begun, {0}) <==> Stale(s, s.begun, {0});
    run' := run + [Produce(0, key, ttl, {0})] + [Store(0)];
  }

  /** One invalidation of tag 0, both round trips. */
  lemma Invalidate(c: Config, run: seq<Event>, s: State) returns (run': seq<Event>)
    requires Exec(c, run) == Some(s) && s.windows == map[] && Invalidated(s, 0) <= s.begun
    ensures Exec(c, run').Some?
    ensures var s' := Exec(c, run').value;
            && s'.clock == s.clock && s'.entries == s.entries - Members(s, 0)
            && s'.producing == s.producing && s'.windows == map[]
            && Invalidated(s', 0) == s.begun + 1
  {
    Then(c, run, s, Scan(0, 0));
    Then(c, run + [Scan(0, 0)], Apply(s, Scan(0, 0)), Drop(0));
    assert Apply(s, Scan(0, 0)).windows - {0} == map[];
    run' := run + [Scan(0, 0)] + [Drop(0)];
  }

  /** Every guarded run in which TTLs lie in lo..hi keeps the tag index complete. */
  ghost predicate IndexSafe(lo: nat, hi: nat) {
    forall run | Exec(Config(lo, hi, true), run).Some? :: Indexed(Exec(Config(lo, hi, true), run).value)
  }

  /** Main result: the 60-second buffer is exactly the spread of TTLs one tag can carry. */
  lemma TtlSpreadIsExact(lo: nat, hi: nat)
    requires lo <= hi
    ensures IndexSafe(lo, hi) <==> hi <= lo + 60
  {
    var c := Config(lo, hi, true);
    if hi <= lo + TAG_TTL_BUFFER_SECONDS {
      forall run | Exec(c, run).Some? ensures Indexed(Exec(c, run).value) {
        InvRun(c, run);
      }
    } else {
      var run := Put(c, [], Init(), 0, hi);
      run := Put(c, run, Exec(c, run).value, 1, lo);
      var s := Exec(c, run).value;
      assert Live(s, 0) && 0 in s.entries[0].tags && s.tagSets[0].expires == lo + TAG_TTL_BUFFER_SECONDS;
    }
  }

  /** Beyond that spread an invalidation misses a live key and the next hit is stale, though never late. */
  lemma WideSpreadServesStale(lo: nat, hi: nat)
    requires hi > lo + 60
    ensures exists run | Exec(Config(lo, hi, true), run).Some? ::
              var s := Exec(Config(lo, hi, true), run).value;
              Live(s, 0) && !s.entries[0].late && Stale(s, s.entries[0].made, s.entries[0].tags)
  {
    var c := Config(lo, hi, true);
    var run := Put(c, [], Init(), 0, hi);
    run := Put(c, run, Exec(c, run).value, 1, lo);
    var s := Exec(c, run).value;
    var d := lo + TAG_TTL_BUFFER_SECONDS;
    Then(c, run, s, Tick(d));
    assert Members(s.(clock := d), 0) == {};
    run := Invalidate(c, run + [Tick(d)], s.(clock := d));
    s := Exec(c, run).value;
    assert 0 in s.entries[0].tags && s.entries[0].made < Invalidated(s, 0);
  }

  /** The guard and close TTLs do not keep a value out that was read before a whole invalidation and stored after it. */
  lemma LateStoreServesStale(lo: nat, hi: nat)
    requires 0 < lo <= hi
    ensures exists run | Exec(Config(lo, hi, true), run).Some? ::
              var s := Exec(Config(lo, hi, true), run).value;
              Live(s, 0) && s.entries[0].late && Stale(s, s.entries[0].made, s.entries[0].tags)
  {
    var c, p := Config(lo, hi, true), Produce(0, 0, lo, {0});
    Then(c, [], Init(), p);
    var run := Invalidate(c, [] + [p], Apply(Init(), p));
    var s := Exec(c, run).value;
    assert s.windows == map[] && s.producing == Apply(Init(), p).producing && s.producing[0].made < Invalidated(s, 0);
    assert Stale(s, 0, {0});
    Then(c, run, s, Store(0));
    var s' := Apply(s, Store(0));
    assert s'.entries[0].tags == {0} && s'.invalidated == s.invalidated && Invalidated(s', 0) == Invalidated(s, 0);
    assert Exec(c, run + [Store(0)]).Some?;
  }

  /** A store between SMEMBERS and DEL loses its tag, and the following invalidation misses the key. */
  lemma StoreInWindowIsLost(lo: nat, hi: nat)
    requires 0 < lo <= hi
    ensures exists run | Exec(Config(lo, hi, false), run).Some? ::
              var s := Exec(Config(lo, hi, false), run).value;
              Live(s, 0) && !s.entries[0].late && Stale(s, s.entries[0].made, s.entries[0].tags)
  {
    var c := Config(lo, hi, false);
    Then(c, [], Init(), Scan(7, 0));
    var s1 := Apply(Init(), Scan(7, 0));
    Then(c, [Scan(7, 0)], s1, Produce(0, 0, lo, {0}));
    var s2 := Apply(s1, Produce(0, 0, lo, {0}));
    Then(c, [Scan(7, 0)] + [Produce(0, 0, lo, {0})], s2, Store(0));
    var s3 := Apply(s2, Store(0));
    var run := [Scan(7, 0)] + [Produce(0, 0, lo, {0})] + [Store(0)];
    Then(c, run, s3, Drop(7));
    var s4 := Apply(s3, Drop(7));
    assert s4.windows == map[] && Live(s4, 0) && Members(s4, 0) == {};
    run := Invalidate(c, run + [Drop(7)], s4);
    var s := Exec(c, run).value;
    assert 0 in s.entries[0].tags && s.entries[0].made < Invalidated(s, 0);
  }
}
