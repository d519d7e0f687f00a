/** The candidate pipeline: sources, merge, filters, scorers, selection. */
module FeedPipeline {
  import opened Collections
  import opened FeedCandidates
  import opened FeedRanking

  const FILTERS: seq<Filter> := [SelfPost, BlockedAuthor, MutedKeyword, SeenServed]

  /** The posts that pass all four filters, one candidate each. */
  function Eligible(q: Query, results: seq<Fetch>): seq<Candidate> {
    Survivors(SetOf(FILTERS), q, Dedup(Collected(results)))
  }

  function Scored(cfg: Config, q: Query, results: seq<Fetch>): seq<Candidate> {
    Prescored(cfg, Eligible(q, results))
  }

  function Pipeline(cfg: Config, q: Query, results: seq<Fetch>): seq<Candidate> {
    TopK(cfg.maxResults, Diversified(cfg, Scored(cfg, q, results)))
  }

  method Run(cfg: Config, q: Query, results: seq<Fetch>) returns (selected: seq<Candidate>)
    ensures selected == Pipeline(cfg, q, results)
  {
    var all := Collect(results);
    var candidates := MergeDuplicates(all);
    candidates := ApplyFilters(FILTERS, q, candidates);
    var scorers := [Weighted, Affinity, Oon];
    candidates := ScoreAll(scorers, cfg, candidates);
    candidates := DiversifyAuthors(cfg, candidates);
    selected := TopK(cfg.maxResults, candidates);
  }

  function ScoredBy(scorers: seq<Scorer>, cfg: Config, cs: seq<Candidate>): seq<Candidate> {
    if scorers == [] then cs else ScoredBy(scorers[1..], cfg, ScorePass(scorers[0], cfg, cs))
  }

  method ScoreAll(scorers: seq<Scorer>, cfg: Config, all: seq<Candidate>) returns (cs: seq<Candidate>)
    ensures cs == ScoredBy(scorers, cfg, all)
    ensures scorers == [Weighted, Affinity, Oon] ==> cs == Prescored(cfg, all)
  {
    cs := all;
    for i := 0 to |scorers|
      invariant ScoredBy(scorers[i..], cfg, cs) == ScoredBy(scorers, cfg, all)
    {
      cs := ScorePass(scorers[i], cfg, cs);
    }
    ThreePasses(cfg, all);
  }

  lemma ThreePasses(cfg: Config, cs: seq<Candidate>)
    ensures ScoredBy([Weighted, Affinity, Oon], cfg, cs) == Prescored(cfg, cs)
  {
    var weighted := ScorePass(Weighted, cfg, cs);
    var affine := ScorePass(Affinity, cfg, weighted);
    assert [Weighted, Affinity, Oon][1..] == [Affinity, Oon];
    assert [Affinity, Oon][1..] == [Oon];
    assert ScoredBy([Affinity, Oon], cfg, weighted) == ScoredBy([Oon], cfg, affine);
    assert ScoredBy([Oon], cfg, affine) == ScorePass(Oon, cfg, affine);
  }

  // ---------------------------------------------------------------- what the stages leave alone

  /** Same posts with the same origins in the same places. */
  ghost predicate SamePosts(a: seq<Candidate>, b: seq<Candidate>) {
    |a| == |b| && forall i | 0 <= i < |a| :: a[i].post == b[i].post && a[i].origins == b[i].origins
  }

  lemma ScoringKeepsPosts(cfg: Config, cs: seq<Candidate>)
    ensures SamePosts(Diversified(cfg, Prescored(cfg, cs)), cs)
  {
    PrescoredIsAProduct(cfg, cs);
  }

  lemma SamePostsSameIds(a: seq<Candidate>, b: seq<Candidate>)
    requires SamePosts(a, b) && DistinctIds(b)
    ensures DistinctIds(a)
  {
  }

  lemma PostDecides(fs: set<Filter>, q: Query, c: Candidate, d: Candidate)
    requires c.post == d.post
    ensures Survives(fs, q, c) <==> Survives(fs, q, d)
  {
    assert forall f | f in fs :: Drops(f, q, c) <==> Drops(f, q, d);
  }

  lemma EligibleIsDistinct(q: Query, results: seq<Fetch>)
    ensures DistinctIds(Eligible(q, results))
  {
    DedupIsDistinct(Collected(results));
    SurvivorsAre(SetOf(FILTERS), q, Dedup(Collected(results)));
  }

  // ---------------------------------------------------------------- main results

  /** A candidate of the result: mentioned by a source that succeeded, with every origin that mentioned it. */
  ghost predicate Legitimate(q: Query, results: seq<Fetch>, c: Candidate) {
    && (exists f, x :: f in results && f.Fulfilled? && x in f.found && x.post == c.post)
    && c.origins == Origins(Collected(results), c.post.id)
    && Survives(SetOf(FILTERS), q, c)
  }

  lemma EligibleIsLegitimate(q: Query, results: seq<Fetch>, c: Candidate)
    requires c in Eligible(q, results)
    ensures Legitimate(q, results, c)
  {
    var all := Collected(results);
    SurvivorsAre(SetOf(FILTERS), q, Dedup(all));
    DedupIsDistinct(all);
    FirstIsMentioned(all, c.post.id);
    CollectedIsTheUnion(results, First(all, c.post.id));
  }

  lemma SamePostIsLegitimate(q: Query, results: seq<Fetch>, c: Candidate, d: Candidate)
    requires Legitimate(q, results, c) && c.post == d.post && c.origins == d.origins
    ensures Legitimate(q, results, d)
  {
    PostDecides(SetOf(FILTERS), q, c, d);
  }

  /** The result has one candidate per post, ranked by score and date, each of them legitimate. */
  lemma PipelineIsSound(cfg: Config, q: Query, results: seq<Fetch>)
    ensures DistinctIds(Pipeline(cfg, q, results))
    ensures Ranked(true, Pipeline(cfg, q, results))
    ensures forall c | c in Pipeline(cfg, q, results) :: Legitimate(q, results, c)
  {
    var eligible := Eligible(q, results);
    var scored := Diversified(cfg, Prescored(cfg, eligible));
    EligibleIsDistinct(q, results);
    ScoringKeepsPosts(cfg, eligible);
    SamePostsSameIds(scored, eligible);
    SortKeepsDistinct(true, scored);
    TopKKeepsTheBest(cfg.maxResults, scored);
    forall c | c in Pipeline(cfg, q, results) ensures Legitimate(q, results, c) {
      assert c in Sort(true, scored);
      var i :| 0 <= i < |scored| && scored[i] == c;
      EligibleIsLegitimate(q, results, eligible[i]);
      SamePostIsLegitimate(q, results, eligible[i], c);
    }
  }

  /** Every mentioned post that no filter drops is either in the result or outranked by all of it. */
  lemma PipelineIsComplete(cfg: Config, q: Query, results: seq<Fetch>)
    ensures var scored := Diversified(cfg, Scored(cfg, q, results));
            && SamePosts(scored, Eligible(q, results))
            && |Pipeline(cfg, q, results)| == (if |scored| <= cfg.maxResults then |scored| else cfg.maxResults)
            && (forall d | d in scored && d !in Pipeline(cfg, q, results) ::
                  forall a | a in Pipeline(cfg, q, results) :: MayPrecede(true, a, d))
  {
    var scored := Diversified(cfg, Scored(cfg, q, results));
    ScoringKeepsPosts(cfg, Eligible(q, results));
    TopKKeepsTheBest(cfg.maxResults, scored);
    forall d | d in scored && d !in Pipeline(cfg, q, results) ensures d in CutOff(cfg.maxResults, scored) {
      assert d in multiset(scored);
      assert d !in multiset(Pipeline(cfg, q, results));
    }
  }

  lemma EligibleHasEverySurvivor(q: Query, results: seq<Fetch>, id: Id)
    requires id in Ids(Collected(results))
    ensures Merged(Collected(results), id) in Eligible(q, results) <==>
            Survives(SetOf(FILTERS), q, Merged(Collected(results), id))
  {
    DedupIsDistinct(Collected(results));
    SurvivorsAre(SetOf(FILTERS), q, Dedup(Collected(results)));
  }

  // ---------------------------------------------------------------- what the filters let through

  /** The word stands nowhere in the text. */
  ghost predicate Nowhere(word: string, text: string) {
    forall before, after :: text != before + word + after
  }

  /** Somebody else's post, by an author not suppressed, not seen, and without a muted word. */
  ghost predicate Shown(q: Query, p: Post) {
    && p.owner != q.user
    && p.owner !in q.suppressed
    && p.id !in q.seen
    && forall word | word in q.muted :: Nowhere(word, p.content)
  }

  lemma IncludesSomewhere(text: string, word: string)
    ensures Includes(text, word) <==> !Nowhere(word, text)
  {
    if Includes(text, word) {
      var i :| 0 <= i <= |text| && StandsAt(word, text, i);
      assert text == text[..i] + word + text[i + |word|..];
    }
    if before, after :| text == before + word + after {
      assert text[|before|..|before| + |word|] == word;
      assert StandsAt(word, text, |before|);
    }
  }

  /** The four filters together. */
  lemma ShownIff(q: Query, c: Candidate)
    ensures Survives(SetOf(FILTERS), q, c) <==> Shown(q, c.post)
  {
    assert SetOf(FILTERS) == {SelfPost, BlockedAuthor, MutedKeyword, SeenServed};
    MutedIff(q, c);
    assert Drops(SelfPost, q, c) <==> c.post.owner == q.user;
    assert Drops(BlockedAuthor, q, c) <==> c.post.owner in q.suppressed;
    assert Drops(SeenServed, q, c) <==> c.post.id in q.seen;
  }

  lemma MutedIff(q: Query, c: Candidate)
    ensures Drops(MutedKeyword, q, c) <==> exists word | word in q.muted :: !Nowhere(word, c.post.content)
  {
    forall word ensures Includes(c.post.content, word) <==> !Nowhere(word, c.post.content) {
      IncludesSomewhere(c.post.content, word);
    }
    if Drops(MutedKeyword, q, c) {
      var k :| 0 <= k < |q.muted| && Includes(c.post.content, q.muted[k]);
      assert q.muted[k] in q.muted;
    }
  }

  /** Main result: nothing is shown that the viewer wrote, suppressed, muted or has seen. */
  lemma ResultIsShown(cfg: Config, q: Query, results: seq<Fetch>, c: Candidate)
    requires c in Pipeline(cfg, q, results)
    ensures c.post.owner != q.user && c.post.owner !in q.suppressed && c.post.id !in q.seen
    ensures forall word, before, after | word in q.muted :: c.post.content != before + word + after
  {
    PipelineIsSound(cfg, q, results);
    ShownIff(q, c);
    assert forall word | word in q.muted :: Nowhere(word, c.post.content);
  }

  /** Better by score, and at equal scores not older. */
  predicate Before(a: Candidate, b: Candidate) {
    a.score > b.score || (a.score == b.score && a.post.created >= b.post.created)
  }

  /** Main result: the result runs from the best down, and what is cut off is nowhere better than what is kept. */
  lemma ResultIsInOrder(cfg: Config, q: Query, results: seq<Fetch>, i: nat, j: nat)
    requires i < j < |Pipeline(cfg, q, results)|
    ensures Before(Pipeline(cfg, q, results)[i], Pipeline(cfg, q, results)[j])
    ensures forall a, d | a in Pipeline(cfg, q, results) && d in Diversified(cfg, Scored(cfg, q, results))
                          && d !in Pipeline(cfg, q, results) :: Before(a, d)
  {
    PipelineIsSound(cfg, q, results);
    PipelineIsComplete(cfg, q, results);
    assert MayPrecede(true, Pipeline(cfg, q, results)[i], Pipeline(cfg, q, results)[j]);
  }

  /** Main result: a mentioned post is eligible exactly when none of the four reasons keeps it out. */
  lemma EligibleIffShown(q: Query, results: seq<Fetch>, id: Id)
    requires id in Ids(Collected(results))
    ensures var p := First(Collected(results), id).post;
            && p.id == id
            && ((exists c :: c in Eligible(q, results) && c.post == p) <==> Shown(q, p))
            && (forall c | c in Eligible(q, results) && c.post.id == id :: c.post == p)
  {
    var all := Collected(results);
    var m := Merged(all, id);
    FirstIsMentioned(all, id);
    DedupIsDistinct(all);
    SurvivorsAre(SetOf(FILTERS), q, Dedup(all));
    ShownIff(q, m);
    forall c | c in Eligible(q, results) && c.post.id == id ensures c == m {
      assert c in Dedup(all);
    }
  }

  // ---------------------------------------------------------------- source order

  /** All mentions of a post carry the same record of it. */
  ghost predicate OneRecordPerPost(all: seq<Candidate>) {
    forall c, d | c in all && d in all && c.post.id == d.post.id :: c.post == d.post
  }

  ghost predicate SameElements<T(!new)>(a: seq<T>, b: seq<T>) { forall x :: x in a <==> x in b }

  lemma SameSourcesSameMentions(r1: seq<Fetch>, r2: seq<Fetch>)
    requires SameElements(r1, r2)
    ensures SameElements(Collected(r1), Collected(r2))
  {
    forall c ensures c in Collected(r1) <==> c in Collected(r2) {
      CollectedIsTheUnion(r1, c);
      CollectedIsTheUnion(r2, c);
    }
  }

  lemma MergedAlike(a: seq<Candidate>, b: seq<Candidate>, id: Id)
    requires SameElements(a, b) && OneRecordPerPost(a) && id in Ids(a)
    ensures id in Ids(b) && Merged(a, id).post == Merged(b, id).post && Merged(a, id).origins == Merged(b, id).origins
  {
    IdsAreTheMentions(a);
    IdsAreTheMentions(b);
    FirstIsMentioned(a, id);
    FirstIsMentioned(b, id);
    OriginsDependOnElements(a, b, id);
  }

  lemma OriginsDependOnElements(a: seq<Candidate>, b: seq<Candidate>, id: Id)
    requires SameElements(a, b)
    ensures Origins(a, id) == Origins(b, id)
  {
  }

  /**
   * The order of the sources changes no post, origin set or score before diversity, as long as the sources agree
   * on the record of each post.
   */
  lemma SourceOrderIsIrrelevant(cfg: Config, q: Query, r1: seq<Fetch>, r2: seq<Fetch>, c: Candidate)
    requires SameElements(r1, r2) && OneRecordPerPost(Collected(r1))
    requires c in Scored(cfg, q, r1)
    ensures c in Scored(cfg, q, r2)
  {
    PrescoredIsAProduct(cfg, Eligible(q, r1));
    var i :| 0 <= i < |Scored(cfg, q, r1)| && Scored(cfg, q, r1)[i] == c;
    var now := EligibleInBoth(q, r1, r2, Eligible(q, r1)[i]);
    var j :| 0 <= j < |Eligible(q, r2)| && Eligible(q, r2)[j] == now;
    PrescoredIsAProduct(cfg, Eligible(q, r2));
    assert Scored(cfg, q, r2)[j] == c;
  }

  lemma EligibleInBoth(q: Query, r1: seq<Fetch>, r2: seq<Fetch>, was: Candidate) returns (now: Candidate)
    requires SameElements(r1, r2) && OneRecordPerPost(Collected(r1))
    requires was in Eligible(q, r1)
    ensures now in Eligible(q, r2) && now.post == was.post && now.origins == was.origins
  {
    SameSourcesSameMentions(r1, r2);
    var a, b := Collected(r1), Collected(r2);
    DedupIsDistinct(a);
    SurvivorsAre(SetOf(FILTERS), q, Dedup(a));
    MergedAlike(a, b, was.post.id);
    now := Merged(b, was.post.id);
    PostDecides(SetOf(FILTERS), q, was, now);
    EligibleHasEverySurvivor(q, r2, was.post.id);
  }

  /**
   * Without that agreement the first source decides: a stale copy of a post (the discovery source keeps one for a
   * minute) scores the post by its old hot score or by the new one, depending on which source is listed first.
   */
  lemma StaleCopyDependsOnOrder(cfg: Config, q: Query, c: Candidate, d: Candidate) returns (s: real, t: real)
    requires ValidConfig(cfg) && c.post.id == d.post.id
    requires Survives(SetOf(FILTERS), q, c) && Survives(SetOf(FILTERS), q, d)
    ensures Scored(cfg, q, [Fulfilled([c]), Fulfilled([d])]) == [Candidate(c.post, s, c.origins + d.origins)]
    ensures Scored(cfg, q, [Fulfilled([d]), Fulfilled([c])]) == [Candidate(d.post, t, c.origins + d.origins)]
    ensures s == t <==> c.post.hot == d.post.hot
  {
    assert c.origins + d.origins == d.origins + c.origins;
    var m := PositiveFactor(cfg, c.origins + d.origins);
    s := ScoreOfPair(cfg, q, c, d, c.origins + d.origins, m);
    t := ScoreOfPair(cfg, q, d, c, c.origins + d.origins, m);
    SameProduct(c.post.hot, d.post.hot, m, s, t);
  }

  lemma PositiveFactor(cfg: Config, origins: set<Origin>) returns (m: real)
    requires ValidConfig(cfg)
    ensures m == OriginFactor(cfg, origins) > 0.0
  {
    m := OriginFactor(cfg, origins);
  }

  lemma ScoreOfPair(cfg: Config, q: Query, c: Candidate, d: Candidate, both: set<Origin>, m: real) returns (s: real)
    requires c.post.id == d.post.id && Survives(SetOf(FILTERS), q, c)
    requires both == c.origins + d.origins && m == OriginFactor(cfg, both)
    ensures Scored(cfg, q, [Fulfilled([c]), Fulfilled([d])]) == [Candidate(c.post, s, both)]
    ensures s == c.post.hot * m
  {
    OneOfTwo(cfg, q, c, d);
    var scored := Prescored(cfg, [c.(origins := both)]);
    PrescoredIsAProduct(cfg, [c.(origins := both)]);
    s := scored[0].score;
    assert scored == [scored[0]];
  }

  lemma SameProduct(x: real, y: real, m: real, xm: real, ym: real)
    requires m > 0.0 && xm == x * m && ym == y * m
    ensures xm == ym <==> x == y
  {
    if x < y { StrictProduct(x, y, m, xm, ym); }
    if y < x { StrictProduct(y, x, m, ym, xm); }
  }

  lemma StrictProduct(x: real, y: real, m: real, xm: real, ym: real)
    requires x < y && m > 0.0 && xm == x * m && ym == y * m
    ensures xm < ym
  {
    var d := y - x;
    NotNegative(d, m);
    assert d * m == ym - xm;
  }

  lemma OneOfTwo(cfg: Config, q: Query, c: Candidate, d: Candidate)
    requires c.post.id == d.post.id && Survives(SetOf(FILTERS), q, c)
    ensures Scored(cfg, q, [Fulfilled([c]), Fulfilled([d])]) == Prescored(cfg, [c.(origins := c.origins + d.origins)])
  {
    CollectedOfTwo(c, d);
    DedupOfTwo(c, d);
    SurvivorOfOne(SetOf(FILTERS), q, c.(origins := c.origins + d.origins), c);
  }

  lemma SurvivorOfOne(fs: set<Filter>, q: Query, x: Candidate, c: Candidate)
    requires x.post == c.post && Survives(fs, q, c)
    ensures Survivors(fs, q, [x]) == [x]
  {
    PostDecides(fs, q, c, x);
    assert [x][..0] == [];
  }

  lemma DedupOfTwo(c: Candidate, d: Candidate)
    requires c.post.id == d.post.id
    ensures Dedup([c, d]) == [c.(origins := c.origins + d.origins)]
  {
    var all, id := [c, d], c.post.id;
    assert all[..1] == [c] && [c][..0] == [];
    assert Ids([c]) == [id] && Ids(all) == [id];
    assert First(all, id) == First([c], id) == c;
    OriginsOfAppend([c], d, id);
    OriginsOfAppend([], c, id);
    assert [] + [c] == [c] && [c] + [d] == all;
    assert Origins([], id) == {};
    assert Merged(all, id) == c.(origins := c.origins + d.origins);
  }

  lemma CollectedOfTwo(c: Candidate, d: Candidate)
    ensures Collected([Fulfilled([c]), Fulfilled([d])]) == [c, d]
  {
    var results := [Fulfilled([c]), Fulfilled([d])];
    assert results[..1] == [Fulfilled([c])] && [Fulfilled([c])][..0] == [];
    assert Collected([Fulfilled([c])]) == [c];
  }
}
