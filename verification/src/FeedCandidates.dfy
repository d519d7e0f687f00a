/** Candidates of the "for you" feed: what the sources return, the merge of duplicates, and the four filters. */
module FeedCandidates {
  import opened Collections

  type Id = nat

  datatype Origin = Favourite | Follow | Discovery

  /** `content` is the text after lower-casing. */
  datatype Post = Post(id: Id, owner: Id, content: string, hot: real, created: int)
  datatype Candidate = Candidate(post: Post, score: real, origins: set<Origin>)
  datatype Fetch = Fulfilled(found: seq<Candidate>) | Rejected

  predicate DistinctIds(cs: seq<Candidate>) {
    forall i, j | 0 <= i < j < |cs| :: cs[i].post.id != cs[j].post.id
  }

  // ---------------------------------------------------------------- sources

  /** A source that fails only loses its own candidates. */
  function Collected(results: seq<Fetch>): seq<Candidate> {
    if results == [] then []
    else
      var n := |results| - 1;
      Collected(results[..n]) + if results[n].Fulfilled? then results[n].found else []
  }

  lemma {:induction false} CollectedIsTheUnion(results: seq<Fetch>, c: Candidate)
    ensures c in Collected(results) <==> exists f :: f in results && f.Fulfilled? && c in f.found
  {
    if results != [] {
      var n := |results| - 1;
      CollectedIsTheUnion(results[..n], c);
      assert results == results[..n] + [results[n]];
    }
  }

  method Collect(results: seq<Fetch>) returns (all: seq<Candidate>)
    ensures all == Collected(results)
  {
    all := [];
    for i := 0 to |results|
      invariant all == Collected(results[..i])
    {
      assert results[..i + 1][..i] == results[..i];
      match results[i]
      case Fulfilled(found) => all := all + found;
      case Rejected =>
    }
    assert results[..|results|] == results;
  }

  // ---------------------------------------------------------------- one candidate per post

  /** The post ids in order of first mention. */
  function Ids(all: seq<Candidate>): seq<Id> {
    if all == [] then []
    else
      var n := |all| - 1;
      var ids := Ids(all[..n]);
      if all[n].post.id in ids then ids else ids + [all[n].post.id]
  }

  function First(all: seq<Candidate>, id: Id): Candidate
    requires id in Ids(all)
  {
    var n := |all| - 1;
    if id in Ids(all[..n]) then First(all[..n], id) else all[n]
  }

  function Origins(all: seq<Candidate>, id: Id): set<Origin> {
    set c, o | c in all && c.post.id == id && o in c.origins :: o
  }

  /** A post keeps the record that was mentioned first and gathers the origins of every mention. */
  function Merged(all: seq<Candidate>, id: Id): Candidate
    requires id in Ids(all)
  {
    Candidate(First(all, id).post, First(all, id).score, Origins(all, id))
  }

  function Dedup(all: seq<Candidate>): seq<Candidate> {
    var ids := Ids(all);
    seq(|ids|, i requires 0 <= i < |ids| => Merged(all, ids[i]))
  }

  lemma {:induction false} IdsAreTheMentions(all: seq<Candidate>)
    ensures forall id :: id in Ids(all) <==> exists c :: c in all && c.post.id == id
    ensures forall i, j | 0 <= i < j < |Ids(all)| :: Ids(all)[i] != Ids(all)[j]
  {
    if all != [] {
      var n := |all| - 1;
      IdsAreTheMentions(all[..n]);
      assert all == all[..n] + [all[n]];
      forall id ensures id in Ids(all) <==> exists c :: c in all && c.post.id == id {
        if id == all[n].post.id {
          assert all[n] in all;
        } else if id in Ids(all[..n]) {
          var c :| c in all[..n] && c.post.id == id;
          assert c in all;
        }
      }
    }
  }

  /** No mention of the post comes before the one that is kept. */
  lemma {:induction false} FirstIsFirst(all: seq<Candidate>, id: Id) returns (i: nat)
    requires id in Ids(all)
    ensures i < |all| && all[i] == First(all, id) && all[i].post.id == id
    ensures forall j | 0 <= j < i :: all[j].post.id != id
  {
    var n := |all| - 1;
    if id in Ids(all[..n]) {
      i := FirstIsFirst(all[..n], id);
    } else {
      i := n;
      IdsAreTheMentions(all[..n]);
      forall j | 0 <= j < n ensures all[j].post.id != id { assert all[..n][j] in all[..n]; }
    }
  }

  lemma {:induction false} FirstIsMentioned(all: seq<Candidate>, id: Id)
    requires id in Ids(all)
    ensures First(all, id) in all && First(all, id).post.id == id
  {
    var n := |all| - 1;
    if id in Ids(all[..n]) {
      FirstIsMentioned(all[..n], id);
    }
    assert all == all[..n] + [all[n]];
  }

  lemma DedupIsDistinct(all: seq<Candidate>)
    ensures DistinctIds(Dedup(all))
    ensures forall c | c in Dedup(all) :: c.post.id in Ids(all) && c == Merged(all, c.post.id)
    ensures forall id | id in Ids(all) :: Merged(all, id) in Dedup(all)
  {
    IdsAreTheMentions(all);
    forall id | id in Ids(all) ensures Merged(all, id).post.id == id {
      FirstIsMentioned(all, id);
    }
    forall id | id in Ids(all) ensures Merged(all, id) in Dedup(all) {
      var i :| 0 <= i < |Ids(all)| && Ids(all)[i] == id;
      assert Dedup(all)[i] == Merged(all, id);
    }
  }

  /** What one more candidate does to the merge, in the two cases of the loop. */
  lemma MergeOne(all: seq<Candidate>, n: nat, id: Id)
    requires n < |all| && id in Ids(all[..n + 1])
    ensures id in Ids(all[..n]) ==>
              First(all[..n + 1], id) == First(all[..n], id)
    ensures id !in Ids(all[..n]) ==> id == all[n].post.id && First(all[..n + 1], id) == all[n]
    ensures Origins(all[..n + 1], id) ==
            Origins(all[..n], id) + if all[n].post.id == id then all[n].origins else {}
  {
    assert all[..n + 1][..n] == all[..n];
    OriginsOfAppend(all[..n], all[n], id);
    assert all[..n + 1] == all[..n] + [all[n]];
  }

  lemma OriginsOfAppend(all: seq<Candidate>, x: Candidate, id: Id)
    ensures Origins(all + [x], id) == Origins(all, id) + if x.post.id == id then x.origins else {}
  {
    var more := all + [x];
    forall o ensures o in Origins(more, id) <==>
                     o in Origins(all, id) + if x.post.id == id then x.origins else {}
    {
      if o in Origins(all, id) {
        var c :| c in all && c.post.id == id && o in c.origins;
        assert c in more;
      }
      assert x in more;
    }
  }

  lemma NotMentionedNoOrigins(all: seq<Candidate>, id: Id)
    requires id !in Ids(all)
    ensures Origins(all, id) == {}
  {
    IdsAreTheMentions(all);
  }

  method MergeDuplicates(all: seq<Candidate>) returns (r: seq<Candidate>)
    ensures r == Dedup(all)
  {
    var order: seq<Id> := [];
    var byId: map<Id, Candidate> := map[];
    for i := 0 to |all|
      invariant order == Ids(all[..i])
      invariant forall id :: id in byId <==> id in order
      invariant forall id | id in byId :: byId[id] == Merged(all[..i], id)
    {
      var c := all[i];
      ghost var was := byId;
      assert all[..i + 1][..i] == all[..i];
      if c.post.id in byId {
        var existing := byId[c.post.id];
        byId := byId[c.post.id := existing.(origins := existing.origins + c.origins)];
      } else {
        NotMentionedNoOrigins(all[..i], c.post.id);
        order := order + [c.post.id];
        byId := byId[c.post.id := Candidate(c.post, c.score, c.origins)];
      }
      forall id | id in byId ensures byId[id] == Merged(all[..i + 1], id) {
        MergeOne(all, i, id);
      }
    }
    assert all[..|all|] == all;
    r := seq(|order|, k requires 0 <= k < |order| => byId[order[k]]);
  }

  // ---------------------------------------------------------------- filters

  datatype Query = Query(user: Id, suppressed: set<Id>, muted: seq<string>, seen: set<Id>)
  datatype Filter = SelfPost | BlockedAuthor | MutedKeyword | SeenServed

  predicate StandsAt(word: string, text: string, i: nat) {
    i + |word| <= |text| && text[i..i + |word|] == word
  }

  predicate Includes(text: string, word: string) { exists i | 0 <= i <= |text| :: StandsAt(word, text, i) }

  predicate Drops(f: Filter, q: Query, c: Candidate) {
    match f
    case SelfPost => c.post.owner == q.user
    case BlockedAuthor => c.post.owner in q.suppressed
    case MutedKeyword => exists k | 0 <= k < |q.muted| :: Includes(c.post.content, q.muted[k])
    case SeenServed => c.post.id in q.seen
  }

  predicate Survives(fs: set<Filter>, q: Query, c: Candidate) { forall f | f in fs :: !Drops(f, q, c) }

  /** The candidates that no filter of the set drops, in their order. */
  function Survivors(fs: set<Filter>, q: Query, cs: seq<Candidate>): seq<Candidate> {
    if cs == [] then []
    else
      var n := |cs| - 1;
      Survivors(fs, q, cs[..n]) + if Survives(fs, q, cs[n]) then [cs[n]] else []
  }

  lemma {:induction false} SurvivorsAre(fs: set<Filter>, q: Query, cs: seq<Candidate>)
    ensures forall c :: c in Survivors(fs, q, cs) <==> c in cs && Survives(fs, q, c)
    ensures DistinctIds(cs) ==> DistinctIds(Survivors(fs, q, cs))
  {
    if cs != [] {
      var n := |cs| - 1;
      SurvivorsAre(fs, q, cs[..n]);
      assert cs == cs[..n] + [cs[n]];
      var before := Survivors(fs, q, cs[..n]);
      if DistinctIds(cs) {
        forall i | 0 <= i < |before| ensures before[i].post.id != cs[n].post.id {
          assert before[i] in cs[..n];
        }
      }
    }
  }

  /** Three of the filters return their input at once when there is nothing to look for. */
  predicate Idle(f: Filter, q: Query) {
    match f
    case SelfPost => false
    case BlockedAuthor => q.suppressed == {}
    case MutedKeyword => q.muted == []
    case SeenServed => q.seen == {}
  }

  lemma OneFilter(f: Filter, q: Query, c: Candidate)
    ensures Survives({f}, q, c) <==> !Drops(f, q, c)
    ensures Idle(f, q) ==> !Drops(f, q, c)
  {
    assert f in {f};
  }

  /** The candidates that one filter drops, in their order. */
  function Casualties(f: Filter, q: Query, cs: seq<Candidate>): seq<Candidate> {
    if cs == [] then []
    else
      var n := |cs| - 1;
      Casualties(f, q, cs[..n]) + if Drops(f, q, cs[n]) then [cs[n]] else []
  }

  method ApplyFilter(f: Filter, q: Query, cs: seq<Candidate>) returns (kept: seq<Candidate>, removed: seq<Candidate>)
    ensures kept == Survivors({f}, q, cs)
    ensures removed == Casualties(f, q, cs)
  {
    if Idle(f, q) {
      IdleFilterKeepsAll(f, q, cs);
      return cs, [];
    }
    kept, removed := [], [];
    for i := 0 to |cs|
      invariant kept == Survivors({f}, q, cs[..i])
      invariant removed == Casualties(f, q, cs[..i])
    {
      assert cs[..i + 1][..i] == cs[..i];
      OneFilter(f, q, cs[i]);
      if Drops(f, q, cs[i]) {
        removed := removed + [cs[i]];
      } else {
        kept := kept + [cs[i]];
      }
    }
    assert cs[..|cs|] == cs;
  }

  lemma SplitGrows<T>(kept: seq<T>, removed: seq<T>, cs: seq<T>, x: T)
    requires multiset(kept) + multiset(removed) == multiset(cs)
    ensures multiset(kept + [x]) + multiset(removed) == multiset(cs + [x])
    ensures multiset(kept) + multiset(removed + [x]) == multiset(cs + [x])
    ensures kept + [] == kept && removed + [] == removed
  {
  }

  /** One filter loses nothing: kept and removed together are the input. */
  lemma {:induction false} FilterLosesNothing(f: Filter, q: Query, cs: seq<Candidate>)
    ensures multiset(Survivors({f}, q, cs)) + multiset(Casualties(f, q, cs)) == multiset(cs)
  {
    if cs != [] {
      var n := |cs| - 1;
      FilterLosesNothing(f, q, cs[..n]);
      assert cs == cs[..n] + [cs[n]];
      OneFilter(f, q, cs[n]);
      SplitGrows(Survivors({f}, q, cs[..n]), Casualties(f, q, cs[..n]), cs[..n], cs[n]);
    }
  }

  lemma {:induction false} IdleFilterKeepsAll(f: Filter, q: Query, cs: seq<Candidate>)
    requires Idle(f, q)
    ensures Survivors({f}, q, cs) == cs && Casualties(f, q, cs) == []
  {
    if cs != [] {
      IdleFilterKeepsAll(f, q, cs[..|cs| - 1]);
      OneFilter(f, q, cs[|cs| - 1]);
      assert cs == cs[..|cs| - 1] + [cs[|cs| - 1]];
    }
  }

  lemma SurvivesBoth(a: set<Filter>, b: set<Filter>, q: Query, c: Candidate)
    ensures Survives(a + b, q, c) <==> Survives(a, q, c) && Survives(b, q, c)
  {
    if Survives(a + b, q, c) {
      forall f | f in a ensures !Drops(f, q, c) { assert f in a + b; }
      forall f | f in b ensures !Drops(f, q, c) { assert f in a + b; }
    }
  }

  lemma {:induction false} FiltersCompose(a: set<Filter>, b: set<Filter>, q: Query, cs: seq<Candidate>)
    ensures Survivors(a, q, Survivors(b, q, cs)) == Survivors(a + b, q, cs)
  {
    if cs != [] {
      var n := |cs| - 1;
      FiltersCompose(a, b, q, cs[..n]);
      var before := Survivors(b, q, cs[..n]);
      SurvivesBoth(a, b, q, cs[n]);
      if Survives(b, q, cs[n]) {
        assert (before + [cs[n]])[..|before|] == before;
      } else {
        assert Survivors(b, q, cs) == before;
      }
    }
  }


  /** The filters one after the other. */
  function Sifted(fs: seq<Filter>, q: Query, cs: seq<Candidate>): seq<Candidate> {
    if fs == [] then cs
    else
      var n := |fs| - 1;
      Survivors({fs[n]}, q, Sifted(fs[..n], q, cs))
  }

  lemma {:induction false} NoFilterKeepsAll(q: Query, cs: seq<Candidate>)
    ensures Survivors({}, q, cs) == cs
  {
    if cs != [] {
      NoFilterKeepsAll(q, cs[..|cs| - 1]);
      assert cs == cs[..|cs| - 1] + [cs[|cs| - 1]];
    }
  }

  /** Only the set of filters matters: neither their order nor a repetition changes the outcome. */
  lemma {:induction false} FilterOrderIsIrrelevant(fs: seq<Filter>, q: Query, cs: seq<Candidate>)
    ensures Sifted(fs, q, cs) == Survivors(SetOf(fs), q, cs)
  {
    if fs == [] {
      NoFilterKeepsAll(q, cs);
      assert SetOf(fs) == {};
    } else {
      var n := |fs| - 1;
      FilterOrderIsIrrelevant(fs[..n], q, cs);
      FiltersCompose({fs[n]}, SetOf(fs[..n]), q, cs);
      assert fs == fs[..n] + [fs[n]];
      assert SetOf(fs) == {fs[n]} + SetOf(fs[..n]);
    }
  }

  method ApplyFilters(fs: seq<Filter>, q: Query, all: seq<Candidate>) returns (cs: seq<Candidate>)
    ensures cs == Survivors(SetOf(fs), q, all)
  {
    cs := all;
    for i := 0 to |fs|
      invariant cs == Sifted(fs[..i], q, all)
    {
      assert fs[..i + 1][..i] == fs[..i];
      var kept, removed := ApplyFilter(fs[i], q, cs);
      cs := kept;
    }
    assert fs[..|fs|] == fs;
    FilterOrderIsIrrelevant(fs, q, all);
  }
}
