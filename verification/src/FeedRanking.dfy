/** Scoring and selection: the three per-candidate scorers, author diversity, and the top-K cut. */
module FeedRanking {
  import opened Wrappers
  import opened FeedCandidates

  datatype Config = Config(
    affinityFavourite: real,
    affinityFollow: real,
    oonAttenuation: real,
    decay: real,
    floor: real,
    maxResults: nat)

  /** The ranges the environment validation allows. */
  ghost predicate ValidConfig(cfg: Config) {
    && cfg.affinityFavourite > 0.0 && cfg.affinityFollow > 0.0 && cfg.oonAttenuation > 0.0
    && 0.0 <= cfg.decay <= 1.0 && 0.0 <= cfg.floor <= 1.0 && cfg.maxResults > 0
  }

  // ---------------------------------------------------------------- per-candidate scorers

  datatype Scorer = Weighted | Affinity | Oon

  function Rescored(s: Scorer, cfg: Config, c: Candidate): Candidate {
    match s
    case Weighted => c.(score := c.post.hot)
    case Affinity =>
      c.(score := c.score * if Follow in c.origins then cfg.affinityFollow
                            else if Favourite in c.origins then cfg.affinityFavourite
                            else 1.0)
    case Oon =>
      if Discovery in c.origins && Favourite !in c.origins && Follow !in c.origins
      then c.(score := c.score * cfg.oonAttenuation)
      else c
  }

  function ScorePass(s: Scorer, cfg: Config, cs: seq<Candidate>): seq<Candidate> {
    seq(|cs|, i requires 0 <= i < |cs| => Rescored(s, cfg, cs[i]))
  }

  /** The three passes of the runner, in their order. */
  function Prescored(cfg: Config, cs: seq<Candidate>): seq<Candidate> {
    ScorePass(Oon, cfg, ScorePass(Affinity, cfg, ScorePass(Weighted, cfg, cs)))
  }

  /** What the origins of a post are worth. */
  function OriginFactor(cfg: Config, origins: set<Origin>): real {
    if Follow in origins then cfg.affinityFollow
    else if Favourite in origins then cfg.affinityFavourite
    else if Discovery in origins then cfg.oonAttenuation
    else 1.0
  }

  /** The passes together: the score depends on the post's hot score and its set of origins only. */
  lemma PrescoredIsAProduct(cfg: Config, cs: seq<Candidate>)
    ensures |Prescored(cfg, cs)| == |cs|
    ensures forall i | 0 <= i < |cs| ::
              Prescored(cfg, cs)[i] == cs[i].(score := cs[i].post.hot * OriginFactor(cfg, cs[i].origins))
    ensures forall i | 0 <= i < |cs| ::
              var c := cs[i];
              Prescored(cfg, cs)[i].score ==
                c.post.hot * if Follow in c.origins then cfg.affinityFollow
                             else if Favourite in c.origins then cfg.affinityFavourite
                             else if Discovery in c.origins then cfg.oonAttenuation
                             else 1.0
  {
    var weighted := ScorePass(Weighted, cfg, cs);
    var affine := ScorePass(Affinity, cfg, weighted);
    forall i | 0 <= i < |cs|
      ensures Prescored(cfg, cs)[i] == cs[i].(score := cs[i].post.hot * OriginFactor(cfg, cs[i].origins))
    {
      assert weighted[i] == Rescored(Weighted, cfg, cs[i]);
      assert affine[i] == Rescored(Affinity, cfg, weighted[i]);
      assert Prescored(cfg, cs)[i] == Rescored(Oon, cfg, affine[i]);
    }
  }

  // ---------------------------------------------------------------- sorting

  /** Whether the comparator lets a stand before b. */
  predicate MayPrecede(byDate: bool, a: Candidate, b: Candidate) {
    a.score > b.score || (a.score == b.score && (!byDate || a.post.created >= b.post.created))
  }

  predicate Ranked(byDate: bool, cs: seq<Candidate>) {
    forall i, j | 0 <= i < j < |cs| :: MayPrecede(byDate, cs[i], cs[j])
  }

  function Insert(byDate: bool, cs: seq<Candidate>, x: Candidate): seq<Candidate> {
    var n := |cs| - 1;
    if cs == [] || MayPrecede(byDate, cs[n], x) then cs + [x] else Insert(byDate, cs[..n], x) + [cs[n]]
  }

  /** The engine's stable sort. */
  function Sort(byDate: bool, cs: seq<Candidate>): seq<Candidate> {
    if cs == [] then [] else Insert(byDate, Sort(byDate, cs[..|cs| - 1]), cs[|cs| - 1])
  }

  lemma {:induction false} InsertKeepsAll(byDate: bool, cs: seq<Candidate>, x: Candidate)
    ensures multiset(Insert(byDate, cs, x)) == multiset(cs) + multiset{x}
  {
    var n := |cs| - 1;
    if cs != [] && !MayPrecede(byDate, cs[n], x) {
      InsertKeepsAll(byDate, cs[..n], x);
      assert cs == cs[..n] + [cs[n]];
    }
  }

  lemma {:induction false} InsertIsRanked(byDate: bool, cs: seq<Candidate>, x: Candidate)
    requires Ranked(byDate, cs)
    ensures Ranked(byDate, Insert(byDate, cs, x))
    ensures forall c :: c in Insert(byDate, cs, x) <==> c in cs || c == x
  {
    var n := |cs| - 1;
    if cs != [] && !MayPrecede(byDate, cs[n], x) {
      assert cs == cs[..n] + [cs[n]];
      InsertIsRanked(byDate, cs[..n], x);
      RankedThen(byDate, Insert(byDate, cs[..n], x), cs[n]);
    }
  }

  lemma RankedThen(byDate: bool, front: seq<Candidate>, last: Candidate)
    requires Ranked(byDate, front) && forall c | c in front :: MayPrecede(byDate, c, last)
    ensures Ranked(byDate, front + [last])
  {
  }

  lemma {:induction false} SortIsRanked(byDate: bool, cs: seq<Candidate>)
    ensures Ranked(byDate, Sort(byDate, cs))
    ensures multiset(Sort(byDate, cs)) == multiset(cs) && |Sort(byDate, cs)| == |cs|
  {
    if cs != [] {
      var n := |cs| - 1;
      SortIsRanked(byDate, cs[..n]);
      InsertKeepsAll(byDate, Sort(byDate, cs[..n]), cs[n]);
      InsertIsRanked(byDate, Sort(byDate, cs[..n]), cs[n]);
      assert cs == cs[..n] + [cs[n]];
      assert |multiset(Sort(byDate, cs))| == |multiset(cs)|;
    }
  }

  lemma SortKeepsMembers(byDate: bool, cs: seq<Candidate>)
    ensures forall c :: c in Sort(byDate, cs) <==> c in cs
  {
    SortIsRanked(byDate, cs);
    forall c ensures c in Sort(byDate, cs) <==> c in cs {
      assert c in Sort(byDate, cs) <==> c in multiset(Sort(byDate, cs));
      assert c in cs <==> c in multiset(cs);
    }
  }

  lemma {:induction false} InsertKeepsDistinct(byDate: bool, cs: seq<Candidate>, x: Candidate)
    requires DistinctIds(cs) && forall c | c in cs :: c.post.id != x.post.id
    ensures DistinctIds(Insert(byDate, cs, x))
    ensures forall c :: c in Insert(byDate, cs, x) <==> c in cs || c == x
  {
    var n := |cs| - 1;
    if cs != [] && !MayPrecede(byDate, cs[n], x) {
      assert cs == cs[..n] + [cs[n]];
      InsertKeepsDistinct(byDate, cs[..n], x);
      var front := Insert(byDate, cs[..n], x);
      forall i | 0 <= i < |front| ensures front[i].post.id != cs[n].post.id {
        assert front[i] in front;
      }
    }
  }

  lemma {:induction false} SortKeepsDistinct(byDate: bool, cs: seq<Candidate>)
    requires DistinctIds(cs)
    ensures DistinctIds(Sort(byDate, cs))
    ensures forall c :: c in Sort(byDate, cs) <==> c in cs
  {
    if cs != [] {
      var n := |cs| - 1;
      assert cs == cs[..n] + [cs[n]];
      SortKeepsDistinct(byDate, cs[..n]);
      InsertKeepsDistinct(byDate, Sort(byDate, cs[..n]), cs[n]);
    }
  }

  // ---------------------------------------------------------------- top K

  /** `[..].sort(..).slice(0, maxResults)` */
  function TopK(k: nat, cs: seq<Candidate>): seq<Candidate> {
    var sorted := Sort(true, cs);
    if |sorted| <= k then sorted else sorted[..k]
  }

  function CutOff(k: nat, cs: seq<Candidate>): seq<Candidate> {
    var sorted := Sort(true, cs);
    if |sorted| <= k then [] else sorted[k..]
  }

  /** The selection is ranked, loses nothing else than the cut-off part, and that part outranks no selected post. */
  lemma TopKKeepsTheBest(k: nat, cs: seq<Candidate>)
    ensures Ranked(true, TopK(k, cs))
    ensures |TopK(k, cs)| == if |cs| <= k then |cs| else k
    ensures multiset(TopK(k, cs)) + multiset(CutOff(k, cs)) == multiset(cs)
    ensures forall a, b | a in TopK(k, cs) && b in CutOff(k, cs) :: MayPrecede(true, a, b)
  {
    SortIsRanked(true, cs);
    assert Sort(true, cs) == TopK(k, cs) + CutOff(k, cs);
    HalvesAreRanked(TopK(k, cs), CutOff(k, cs));
  }

  lemma HalvesAreRanked(front: seq<Candidate>, back: seq<Candidate>)
    requires Ranked(true, front + back)
    ensures Ranked(true, front)
    ensures forall a, b | a in front && b in back :: MayPrecede(true, a, b)
  {
    var both := front + back;
    assert forall i | 0 <= i < |front| :: both[i] == front[i];
    forall a, b | a in front && b in back ensures MayPrecede(true, a, b) {
      var i :| 0 <= i < |front| && front[i] == a;
      var j :| 0 <= j < |back| && back[j] == b;
      assert both[i] == a && both[|front| + j] == b;
    }
  }

  // ---------------------------------------------------------------- author diversity

  function Pow(base: real, n: nat): real { if n == 0 then 1.0 else base * Pow(base, n - 1) }

  /** The multiplier of an author's post that has n better ones before it. */
  function Multiplier(cfg: Config, n: nat): real { (1.0 - cfg.floor) * Pow(cfg.decay, n) + cfg.floor }

  /** The multiplier starts at 1, and with every better post its distance to the floor shrinks by the decay. */
  lemma MultiplierDecays(cfg: Config, n: nat)
    ensures Multiplier(cfg, 0) == 1.0
    ensures Multiplier(cfg, n + 1) - cfg.floor == cfg.decay * (Multiplier(cfg, n) - cfg.floor)
  {
    assert (1.0 - cfg.floor) * (cfg.decay * Pow(cfg.decay, n)) == cfg.decay * ((1.0 - cfg.floor) * Pow(cfg.decay, n));
  }

  function PostsBy(owner: Id, cs: seq<Candidate>): nat {
    if cs == [] then 0
    else
      var n := |cs| - 1;
      PostsBy(owner, cs[..n]) + if cs[n].post.owner == owner then 1 else 0
  }

  /** A score and how many posts of the same author come before it. */
  datatype Damping = Damping(score: real, before: nat)

  function Value(cfg: Config, d: Damping): real { d.score * Multiplier(cfg, d.before) }

  /** What is recorded for an id while the ordered candidates are walked; a later entry wins. */
  function DampingOf(ordered: seq<Candidate>, id: Id): Option<Damping> {
    if ordered == [] then None
    else
      var n := |ordered| - 1;
      if ordered[n].post.id == id
      then Some(Damping(ordered[n].score, PostsBy(ordered[n].post.owner, ordered[..n])))
      else DampingOf(ordered[..n], id)
  }

  function Damped(cfg: Config, d: Option<Damping>, c: Candidate): Candidate {
    if d.Some? then c.(score := Value(cfg, d.value)) else c
  }

  function Diversified(cfg: Config, cs: seq<Candidate>): seq<Candidate> {
    var ordered := Sort(false, cs);
    seq(|cs|, i requires 0 <= i < |cs| => Damped(cfg, DampingOf(ordered, cs[i].post.id), cs[i]))
  }

  method DiversifyAuthors(cfg: Config, cs: seq<Candidate>) returns (r: seq<Candidate>)
    ensures r == Diversified(cfg, cs)
  {
    var ordered := Sort(false, cs);
    var authorCount: map<Id, nat> := map[];
    var adjustedById: map<Id, real> := map[];
    for i := 0 to |ordered|
      invariant forall a :: PostsBy(a, ordered[..i]) == if a in authorCount then authorCount[a] else 0
      invariant forall id :: id in adjustedById <==> DampingOf(ordered[..i], id).Some?
      invariant forall id | id in adjustedById ::
                  adjustedById[id] == Value(cfg, DampingOf(ordered[..i], id).value)
    {
      var c := ordered[i];
      assert ordered[..i + 1][..i] == ordered[..i];
      var n := if c.post.owner in authorCount then authorCount[c.post.owner] else 0;
      assert DampingOf(ordered[..i + 1], c.post.id) == Some(Damping(c.score, n));
      adjustedById := adjustedById[c.post.id := c.score * Multiplier(cfg, n)];
      authorCount := authorCount[c.post.owner := n + 1];
    }
    assert ordered[..|ordered|] == ordered;
    r := seq(|cs|, i requires 0 <= i < |cs| =>
      if cs[i].post.id in adjustedById then cs[i].(score := adjustedById[cs[i].post.id]) else cs[i]);
  }

  lemma NotNegative(x: real, y: real)
    requires x >= 0.0 && y >= 0.0
    ensures x * y >= 0.0 && (x > 0.0 && y > 0.0 ==> x * y > 0.0)
  {
  }

  lemma MulBounds(x: real, y: real)
    requires 0.0 <= x <= 1.0 && 0.0 <= y <= 1.0
    ensures 0.0 <= x * y <= y
  {
  }

  lemma {:induction false} PowIsUnit(base: real, n: nat)
    requires 0.0 <= base <= 1.0
    ensures 0.0 <= Pow(base, n) <= 1.0
  {
    if n > 0 {
      PowIsUnit(base, n - 1);
      MulBounds(base, Pow(base, n - 1));
    }
  }

  lemma PowStep(base: real, n: nat)
    requires 0.0 <= base <= 1.0
    ensures Pow(base, n + 1) <= Pow(base, n)
  {
    PowIsUnit(base, n);
    MulBounds(base, Pow(base, n));
  }

  lemma {:induction false} PowFalls(base: real, m: nat, n: nat)
    requires 0.0 <= base <= 1.0 && m <= n
    ensures Pow(base, n) <= Pow(base, m)
  {
    if m < n {
      PowFalls(base, m, n - 1);
      PowStep(base, n - 1);
    }
  }

  lemma MultiplierFalls(cfg: Config, m: nat, n: nat)
    requires 0.0 <= cfg.decay <= 1.0 && 0.0 <= cfg.floor <= 1.0 && m <= n
    ensures cfg.floor <= Multiplier(cfg, n) <= Multiplier(cfg, m) <= 1.0 && Multiplier(cfg, 0) == 1.0
  {
    PowFalls(cfg.decay, m, n);
    PowIsUnit(cfg.decay, m);
    PowIsUnit(cfg.decay, n);
    Mix(cfg.floor, Pow(cfg.decay, n), Pow(cfg.decay, m));
  }

  lemma Mix(floor: real, x: real, y: real)
    requires 0.0 <= floor <= 1.0 && 0.0 <= x <= y <= 1.0
    ensures floor <= (1.0 - floor) * x + floor <= (1.0 - floor) * y + floor <= 1.0
  {
    NotNegative(1.0 - floor, x);
    NotNegative(1.0 - floor, y - x);
    NotNegative(1.0 - floor, 1.0 - y);
  }

  lemma {:induction false} MorePostsLater(owner: Id, cs: seq<Candidate>, i: nat, j: nat)
    requires i <= j <= |cs|
    ensures PostsBy(owner, cs[..i]) <= PostsBy(owner, cs[..j])
    ensures i < j && cs[i].post.owner == owner ==> PostsBy(owner, cs[..i]) < PostsBy(owner, cs[..j])
    decreases j
  {
    if i < j {
      MorePostsLater(owner, cs, i, j - 1);
      assert cs[..j][..j - 1] == cs[..j - 1];
    }
  }

  lemma {:induction false} DampingAt(ordered: seq<Candidate>, i: nat)
    requires DistinctIds(ordered) && i < |ordered|
    ensures DampingOf(ordered, ordered[i].post.id) ==
            Some(Damping(ordered[i].score, PostsBy(ordered[i].post.owner, ordered[..i])))
  {
    var n := |ordered| - 1;
    if i < n {
      assert ordered[..n][i] == ordered[i] && ordered[i].post.id != ordered[n].post.id;
      DampingAt(ordered[..n], i);
      assert ordered[..n][..i] == ordered[..i];
    }
  }

  /** Where a candidate stands in the diversity order. */
  lemma Position(cs: seq<Candidate>, i: nat) returns (p: nat)
    requires DistinctIds(cs) && i < |cs|
    ensures p < |Sort(false, cs)| && Sort(false, cs)[p] == cs[i]
    ensures DampingOf(Sort(false, cs), cs[i].post.id) ==
            Some(Damping(cs[i].score, PostsBy(cs[i].post.owner, Sort(false, cs)[..p])))
  {
    SortKeepsDistinct(false, cs);
    assert cs[i] in Sort(false, cs);
    p :| 0 <= p < |Sort(false, cs)| && Sort(false, cs)[p] == cs[i];
    DampingAt(Sort(false, cs), p);
  }

  /** Every new score lies between floor times the old one and the old one; only the score changes. */
  lemma DiversityIsBounded(cfg: Config, cs: seq<Candidate>, i: nat)
    requires ValidConfig(cfg) && DistinctIds(cs) && i < |cs|
    ensures Diversified(cfg, cs)[i] == cs[i].(score := Diversified(cfg, cs)[i].score)
    ensures cs[i].score >= 0.0 ==> cs[i].score * cfg.floor <= Diversified(cfg, cs)[i].score <= cs[i].score
    ensures cs[i].score <= 0.0 ==> cs[i].score <= Diversified(cfg, cs)[i].score <= cs[i].score * cfg.floor
  {
    var p := Position(cs, i);
    var n := PostsBy(cs[i].post.owner, Sort(false, cs)[..p]);
    ValueIsBounded(cfg, cs[i].score, n);
  }

  lemma ValueIsBounded(cfg: Config, s: real, n: nat)
    requires ValidConfig(cfg)
    ensures s >= 0.0 ==> s * cfg.floor <= Value(cfg, Damping(s, n)) <= s
    ensures s <= 0.0 ==> s <= Value(cfg, Damping(s, n)) <= s * cfg.floor
  {
    MultiplierFalls(cfg, 0, n);
    Scaling(s, cfg.floor, Multiplier(cfg, n));
    Scaling(s, Multiplier(cfg, n), 1.0);
  }

  lemma FirstIsUndamped(cfg: Config, s: real)
    ensures Value(cfg, Damping(s, 0)) == s
  {
    assert Multiplier(cfg, 0) == 1.0;
  }

  lemma Scaling(s: real, lo: real, hi: real)
    requires lo <= hi
    ensures s >= 0.0 ==> s * lo <= s * hi
    ensures s <= 0.0 ==> s * hi <= s * lo
  {
    assert s >= 0.0 ==> s * (hi - lo) >= 0.0;
    assert s <= 0.0 ==> (-s) * (hi - lo) >= 0.0;
  }

  /** Damping never lifts an author's weaker post over a stronger one whose score is not negative. */
  lemma DiversityKeepsOwnOrder(cfg: Config, cs: seq<Candidate>, i: nat, j: nat)
    requires ValidConfig(cfg) && DistinctIds(cs) && i < |cs| && j < |cs|
    requires cs[i].post.owner == cs[j].post.owner && cs[i].score > cs[j].score && cs[i].score >= 0.0
    ensures Diversified(cfg, cs)[i].score >= Diversified(cfg, cs)[j].score
    ensures cfg.floor > 0.0 ==> Diversified(cfg, cs)[i].score > Diversified(cfg, cs)[j].score
  {
    var a, b := DampingOfTwo(cs, i, j);
    ValueDominates(cfg, cs[i].score, cs[j].score, a, b);
  }

  /** The stronger of two posts of one author is counted first. */
  lemma DampingOfTwo(cs: seq<Candidate>, i: nat, j: nat) returns (a: nat, b: nat)
    requires DistinctIds(cs) && i < |cs| && j < |cs|
    requires cs[i].post.owner == cs[j].post.owner && cs[i].score > cs[j].score
    ensures a < b
    ensures DampingOf(Sort(false, cs), cs[i].post.id) == Some(Damping(cs[i].score, a))
    ensures DampingOf(Sort(false, cs), cs[j].post.id) == Some(Damping(cs[j].score, b))
  {
    var p := Position(cs, i);
    var q := Position(cs, j);
    var ordered := Sort(false, cs);
    SortIsRanked(false, cs);
    assert p == q || p < q || MayPrecede(false, ordered[q], ordered[p]);
    a, b := PostsBy(cs[i].post.owner, ordered[..p]), PostsBy(cs[i].post.owner, ordered[..q]);
    MorePostsLater(cs[i].post.owner, ordered, p, q);
  }

  lemma ValueDominates(cfg: Config, s: real, t: real, a: nat, b: nat)
    requires ValidConfig(cfg) && s > t && s >= 0.0 && a <= b
    ensures Value(cfg, Damping(s, a)) >= Value(cfg, Damping(t, b))
    ensures cfg.floor > 0.0 ==> Value(cfg, Damping(s, a)) > Value(cfg, Damping(t, b))
  {
    MultiplierFalls(cfg, a, b);
    Dominates(s, t, Multiplier(cfg, a), Multiplier(cfg, b), cfg.floor);
  }

  lemma Dominates(s: real, t: real, m: real, k: real, floor: real)
    requires s > t && s >= 0.0 && 0.0 <= floor <= k <= m
    ensures s * m >= t * k
    ensures floor > 0.0 ==> s * m > t * k
  {
    GrowsWith(s, k, m, s * k, s * m);
    GrowsWith(k, t, s, t * k, s * k);
  }

  lemma GrowsWith(f: real, x: real, y: real, fx: real, fy: real)
    requires f >= 0.0 && x <= y && fx == f * x && fy == f * y
    ensures fx <= fy
    ensures f > 0.0 && x < y ==> fx < fy
  {
    var d := y - x;
    NotNegative(f, d);
    assert f * d == fy - fx;
  }

  /** Some best post of every author keeps its score, whatever the signs. */
  lemma DiversityKeepsTheBest(cfg: Config, cs: seq<Candidate>, k: nat) returns (i: nat)
    requires DistinctIds(cs) && k < |cs|
    ensures i < |cs| && cs[i].post.owner == cs[k].post.owner
    ensures forall j | 0 <= j < |cs| && cs[j].post.owner == cs[k].post.owner :: cs[j].score <= cs[i].score
    ensures Diversified(cfg, cs)[i] == cs[i]
  {
    i := FirstOfAuthor(cs, k);
    FirstIsUndamped(cfg, cs[i].score);
  }

  lemma FirstOfAuthor(cs: seq<Candidate>, k: nat) returns (i: nat)
    requires DistinctIds(cs) && k < |cs|
    ensures i < |cs| && cs[i].post.owner == cs[k].post.owner
    ensures forall j | 0 <= j < |cs| && cs[j].post.owner == cs[k].post.owner :: cs[j].score <= cs[i].score
    ensures DampingOf(Sort(false, cs), cs[i].post.id) == Some(Damping(cs[i].score, 0))
  {
    var ordered := Sort(false, cs);
    var owner := cs[k].post.owner;
    SortKeepsDistinct(false, cs);
    SortIsRanked(false, cs);
    var at := Position(cs, k);
    var p := FirstBy(owner, ordered, at);
    assert ordered[p] in cs;
    i :| 0 <= i < |cs| && cs[i] == ordered[p];
    DampingAt(ordered, p);
    forall j | 0 <= j < |cs| && cs[j].post.owner == owner ensures cs[j].score <= cs[i].score {
      var q := Position(cs, j);
      NoneBefore(owner, ordered, p, q);
      assert p == q || MayPrecede(false, ordered[p], ordered[q]);
    }
  }

  lemma NoneBefore(owner: Id, cs: seq<Candidate>, p: nat, q: nat)
    requires p < |cs| && q < |cs| && PostsBy(owner, cs[..p]) == 0 && cs[q].post.owner == owner
    ensures p <= q
  {
    MorePostsLater(owner, cs, if q < p then q else p, p);
  }

  lemma {:induction false} FirstBy(owner: Id, cs: seq<Candidate>, at: nat) returns (p: nat)
    requires at < |cs| && cs[at].post.owner == owner
    ensures p <= at && cs[p].post.owner == owner && PostsBy(owner, cs[..p]) == 0
  {
    if PostsBy(owner, cs[..at]) == 0 {
      p := at;
    } else {
      var q := SomeBy(owner, cs[..at]);
      p := FirstBy(owner, cs, q);
    }
  }

  lemma {:induction false} SomeBy(owner: Id, cs: seq<Candidate>) returns (q: nat)
    requires PostsBy(owner, cs) > 0
    ensures q < |cs| && cs[q].post.owner == owner
  {
    q := |cs| - 1;
    if cs[q].post.owner != owner {
      q := SomeBy(owner, cs[..q]);
    }
  }

  /** Two posts of one author, the better one first: their order survives exactly when this inequality holds. */
  lemma OwnOrderOfTwo(cfg: Config, a: Candidate, b: Candidate)
    requires a.post.id != b.post.id && a.post.owner == b.post.owner && a.score > b.score
    ensures var d := Diversified(cfg, [a, b]);
            && d[0] == a
            && d[1] == b.(score := b.score * Multiplier(cfg, 1))
            && (d[0].score >= d[1].score <==> b.score * Multiplier(cfg, 1) <= a.score)
  {
    var cs := [a, b];
    assert cs[..1] == [a];
    assert Sort(false, [a]) == [a];
    var ordered := Sort(false, cs);
    assert ordered == [a, b];
    DampingAt(ordered, 0);
    DampingAt(ordered, 1);
    assert ordered[..1] == [a];
    assert PostsBy(a.post.owner, [a]) == 1;
    assert Multiplier(cfg, 0) == 1.0;
  }

  /**
   * With a negative better score the order can always flip: reports push a hot score below zero, and damping a
   * negative score raises it.
   */
  lemma NegativeScoresCanSwap(cfg: Config, a: Candidate, b: Candidate) returns (t: real)
    requires ValidConfig(cfg) && cfg.decay < 1.0 && cfg.floor < 1.0
    requires a.post.id != b.post.id && a.post.owner == b.post.owner && a.score < 0.0
    ensures t < a.score
    ensures Diversified(cfg, [a, b.(score := t)])[1].score > Diversified(cfg, [a, b.(score := t)])[0].score
  {
    SecondIsDamped(cfg);
    t := Overtaken(a.score, Multiplier(cfg, 1));
    OwnOrderOfTwo(cfg, a, b.(score := t));
  }

  lemma SecondIsDamped(cfg: Config)
    requires ValidConfig(cfg) && cfg.decay < 1.0 && cfg.floor < 1.0
    ensures 0.0 <= Multiplier(cfg, 1) < 1.0
  {
    MultiplierFalls(cfg, 0, 1);
    PowOne(cfg.decay);
    var w := 1.0 - cfg.floor;
    BelowOne(cfg.floor, Pow(cfg.decay, 1), w, w * Pow(cfg.decay, 1));
  }

  lemma PowOne(base: real)
    ensures Pow(base, 1) == base
  {
    assert Pow(base, 0) == 1.0;
  }

  lemma BelowOne(floor: real, x: real, w: real, wx: real)
    requires floor < 1.0 && x < 1.0 && w == 1.0 - floor && wx == w * x
    ensures wx + floor < 1.0
  {
    Shrinks(w, x, wx);
  }

  lemma Shrinks(w: real, x: real, wx: real)
    requires w > 0.0 && x < 1.0 && wx == w * x
    ensures wx < w
  {
    NotNegative(w, 1.0 - x);
  }

  lemma Overtaken(s: real, m: real) returns (t: real)
    requires s < 0.0 && 0.0 <= m < 1.0
    ensures t < s && t * m > s
  {
    t := s * (2.0 - m);
    NotNegative(-s, 1.0 - m);
    NotNegative((-s) * (1.0 - m), 1.0 - m);
    assert t - s == -((-s) * (1.0 - m));
    assert t * m - s == (-s) * (1.0 - m) * (1.0 - m);
  }
}
