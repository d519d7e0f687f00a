/** When a cached value is stale, read off the events of the run alone. */
module CacheHistory {
  import opened TaggedCache

  function Scans(run: seq<Event>): nat {
    if run == [] then 0 else Scans(run[..|run| - 1]) + if run[|run| - 1].Scan? then 1 else 0
  }

  /** The place of a caller's last Produce; the length of the run when there is none. */
  function LastProduce(run: seq<Event>, w: Caller): (i: nat)
    ensures i < |run| ==> run[i].Produce? && run[i].c == w
  {
    if run == [] then 0
    else
      var n := |run| - 1;
      var i := LastProduce(run[..n], w);
      if run[n].Produce? && run[n].c == w then n else if i < n then i else |run|
  }

  /** The place of a caller's last Scan; the length of the run when there is none. */
  function LastScan(run: seq<Event>, v: Caller): (i: nat)
    ensures i < |run| ==> run[i].Scan? && run[i].c == v
  {
    if run == [] then 0
    else
      var n := |run| - 1;
      var i := LastScan(run[..n], v);
      if run[n].Scan? && run[n].c == v then n else if i < n then i else |run|
  }

  /** The event at j stores a value of key k, which its caller has produced before. */
  predicate Stores(run: seq<Event>, j: nat, k: Key) {
    && j < |run| && run[j].Store?
    && var p := LastProduce(run[..j], run[j].c); p < j && run[p].key == k
  }

  /** The place of the last store of a key; the length of the run when there is none. */
  function LastStore(run: seq<Event>, k: Key): (i: nat)
    ensures i < |run| ==> Stores(run, i, k)
  {
    if run == [] then 0
    else
      var n := |run| - 1;
      var i := LastStore(run[..n], k);
      assert i < n ==> run[..n][..i] == run[..i];
      if Stores(run, n, k) then n else if i < n then i else |run|
  }

  /** The event at j ends an invalidation of tag t that began at p or later. */
  predicate Ends(run: seq<Event>, j: nat, p: nat, t: Tag) {
    && j < |run| && run[j].Drop?
    && var i := LastScan(run[..j], run[j].c); p <= i < j && run[i].tag == t
  }

  /** A whole invalidation of tag t, Scan and Drop, at p or later. */
  ghost predicate InvalidatedSince(run: seq<Event>, p: nat, t: Tag) { exists j :: Ends(run, j, p, t) }

  // ---------------------------------------------------------------- the state tells the same

  lemma {:induction false} ScansGrow(run: seq<Event>, p: nat, q: nat)
    requires p <= q <= |run|
    ensures Scans(run[..p]) <= Scans(run[..q])
    ensures p < q && run[p].Scan? ==> Scans(run[..p]) < Scans(run[..q])
  {
    if p < q {
      assert run[..q][..q - 1] == run[..q - 1];
      ScansGrow(run, p, q - 1);
    }
  }

  ghost predicate ProducingOk(s: State, run: seq<Event>, w: Caller) {
    w in s.producing ==>
      var p := LastProduce(run, w);
      && p < |run| && s.producing[w].made == Scans(run[..p])
      && run[p].key == s.producing[w].key && run[p].tags == s.producing[w].tags
  }

  ghost predicate WindowOk(s: State, run: seq<Event>, v: Caller) {
    v in s.windows ==>
      var i := LastScan(run, v);
      i < |run| && s.windows[v].stamp == Scans(run[..i]) + 1 && run[i].tag == s.windows[v].tag
  }

  ghost predicate InvalidatedOk(s: State, run: seq<Event>, p: nat, t: Tag) {
    p <= |run| ==> (Scans(run[..p]) < Invalidated(s, t) <==> InvalidatedSince(run, p, t))
  }

  /** The production and the store that a cached value comes from. */
  ghost predicate EntryOk(s: State, run: seq<Event>, k: Key) {
    k in s.entries ==>
      var j := LastStore(run, k);
      && j < |run|
      && var p := LastProduce(run[..j], run[j].c);
         && s.entries[k].made == Scans(run[..p]) && s.entries[k].tags == run[p].tags
         && (s.entries[k].late <==> exists t :: t in run[p].tags && InvalidatedSince(run[..j], p, t))
  }

  ghost predicate Told(s: State, run: seq<Event>) {
    && s.begun == Scans(run)
    && (forall w :: ProducingOk(s, run, w))
    && (forall v :: WindowOk(s, run, v))
    && (forall p, t :: InvalidatedOk(s, run, p, t))
    && (forall k :: EntryOk(s, run, k))
  }

  lemma EndsStays(run: seq<Event>, e: Event, p: nat, t: Tag)
    ensures InvalidatedSince(run + [e], p, t) <==> InvalidatedSince(run, p, t) || Ends(run + [e], |run|, p, t)
  {
    forall j | 0 <= j < |run| ensures Ends(run + [e], j, p, t) <==> Ends(run, j, p, t) {
      assert (run + [e])[..j] == run[..j];
    }
  }

  lemma ProducingStep(c: Config, s: State, run: seq<Event>, e: Event, w: Caller)
    requires Told(s, run) && Enabled(c, s, e)
    ensures ProducingOk(Apply(s, e), run + [e], w)
  {
    assert (run + [e])[..|run|] == run;
    assert ProducingOk(s, run, w);
    var p := LastProduce(run, w);
    if p < |run| { assert (run + [e])[..p] == run[..p]; }
  }

  lemma WindowStep(c: Config, s: State, run: seq<Event>, e: Event, v: Caller)
    requires Told(s, run) && Enabled(c, s, e)
    ensures WindowOk(Apply(s, e), run + [e], v)
  {
    assert (run + [e])[..|run|] == run;
    assert WindowOk(s, run, v);
    var i := LastScan(run, v);
    if i < |run| { assert (run + [e])[..i] == run[..i]; }
  }

  lemma InvalidatedStep(c: Config, s: State, run: seq<Event>, e: Event, p: nat, t: Tag)
    requires Told(s, run) && Enabled(c, s, e)
    ensures InvalidatedOk(Apply(s, e), run + [e], p, t)
  {
    var run', s' := run + [e], Apply(s, e);
    assert run'[..|run|] == run;
    EndsStays(run, e, p, t);
    if p <= |run| {
      assert run'[..p] == run[..p] && InvalidatedOk(s, run, p, t);
      if e.Drop? && s.windows[e.c].tag == t {
        assert WindowOk(s, run, e.c);
        var i := LastScan(run, e.c);
        if p <= i { ScansGrow(run, p, i); } else { ScansGrow(run, i, p); }
      } else {
        assert Invalidated(s', t) == Invalidated(s, t);
        if e.Drop? { assert WindowOk(s, run, e.c); }
      }
    } else if p == |run'| {
      assert run'[..p] == run';
      ScansGrow(run', |run|, p);
      NothingAfter(c, s, run, e, t);
    }
  }

  /** No invalidation has a stamp beyond the scans of the run. */
  lemma NothingAfter(c: Config, s: State, run: seq<Event>, e: Event, t: Tag)
    requires Told(s, run) && Enabled(c, s, e)
    ensures Invalidated(Apply(s, e), t) <= Scans(run) && !InvalidatedSince(run + [e], |run| + 1, t)
  {
    assert run[..|run|] == run && InvalidatedOk(s, run, |run|, t);
    if e.Drop? {
      assert WindowOk(s, run, e.c);
      var i := LastScan(run, e.c);
      ScansGrow(run, i, |run|);
    }
  }

  lemma EntryStep(c: Config, s: State, run: seq<Event>, e: Event, k: Key)
    requires Told(s, run) && Enabled(c, s, e)
    ensures EntryOk(Apply(s, e), run + [e], k)
  {
    var run' := run + [e];
    assert run'[..|run|] == run;
    assert EntryOk(s, run, k);
    if e.Store? && s.producing[e.c].key == k {
      assert ProducingOk(s, run, e.c);
      var p := LastProduce(run, e.c);
      assert run'[..p] == run[..p];
      forall t ensures s.producing[e.c].made < Invalidated(s, t) <==> InvalidatedSince(run, p, t) {
        assert InvalidatedOk(s, run, p, t);
      }
    } else {
      if e.Store? { assert ProducingOk(s, run, e.c); }
      var j := LastStore(run, k);
      if j < |run| {
        assert run'[..j] == run[..j];
        var p := LastProduce(run[..j], run[j].c);
        assert run'[..p] == run[..p];
      }
    }
  }

  lemma {:induction false} ToldRun(c: Config, run: seq<Event>)
    requires Exec(c, run).Some?
    ensures Told(Exec(c, run).value, run)
  {
    if run == [] {
      assert forall p, t :: !InvalidatedSince(run, p, t);
    } else {
      var n := |run| - 1;
      var s, e := Exec(c, run[..n]).value, run[n];
      ToldRun(c, run[..n]);
      assert run[..n] + [e] == run;
      forall w ensures ProducingOk(Apply(s, e), run, w) { ProducingStep(c, s, run[..n], e, w); }
      forall v ensures WindowOk(Apply(s, e), run, v) { WindowStep(c, s, run[..n], e, v); }
      forall p, t ensures InvalidatedOk(Apply(s, e), run, p, t) { InvalidatedStep(c, s, run[..n], e, p, t); }
      forall k ensures EntryOk(Apply(s, e), run, k) { EntryStep(c, s, run[..n], e, k); }
    }
  }

  /**
   * Main result. In a guarded run whose TTLs differ by at most the buffer, the value a hit returns is older than a
   * finished invalidation of one of its tags exactly when a whole invalidation of one of its tags, SMEMBERS and
   * DEL, lies between the event that produced this value and the one that stored it.
   */
  lemma HitIsStaleIff(c: Config, run: seq<Event>, k: Key)
    requires c.guarded && c.hi <= c.lo + TAG_TTL_BUFFER_SECONDS
    requires Exec(c, run).Some? && Live(Exec(c, run).value, k)
    ensures var s, j := Exec(c, run).value, LastStore(run, k);
            && Stores(run, j, k)
            && var p := LastProduce(run[..j], run[j].c);
               && s.entries[k].tags == run[p].tags
               && (Stale(s, s.entries[k].made, s.entries[k].tags) <==>
                   exists t :: t in run[p].tags && InvalidatedSince(run[..j], p, t))
  {
    HitIsFreshExactly(c, run, k);
    ToldRun(c, run);
    assert EntryOk(Exec(c, run).value, run, k);
  }
}
