/** The "for you" endpoint: pipeline, page slice, and the set of served posts carried from call to call. */
module FeedService {
  import opened Collections
  import opened Wrappers
  import opened FeedCandidates
  import opened FeedRanking
  import opened FeedPipeline

  /** One Redis set of served post ids; it is gone once its time is over. */
  datatype Entry = Entry(ids: set<Id>, expiresAt: int)

  function Live(e: Option<Entry>, now: int): set<Id> {
    if e.Some? && now < e.value.expiresAt then e.value.ids else {}
  }

  /** SADD and EXPIRE; nothing at all for an empty page, so the time is not renewed then. */
  function Marked(e: Option<Entry>, ids: seq<Id>, now: int, ttl: nat): Option<Entry> {
    if ids == [] then e else Some(Entry(Live(e, now) + SetOf(ids), now + ttl))
  }

  /** A page adds its posts to the set while that lives, and the set then lives for its whole time again. */
  lemma MarkedIs(e: Option<Entry>, ids: seq<Id>, now: int, ttl: nat, id: Id)
    ensures ids == [] ==> Marked(e, ids, now, ttl) == e
    ensures ids != [] ==>
              var after := Marked(e, ids, now, ttl);
              && after.Some? && after.value.expiresAt == now + ttl
              && (id in after.value.ids <==>
                    id in ids || (e.Some? && now < e.value.expiresAt && id in e.value.ids))
  {
  }

  function EntryOf(keys: map<Id, Entry>, user: Id): Option<Entry> {
    if user in keys then Some(keys[user]) else None
  }

  class FeedServedStore {
    const ttl: nat
    var keys: map<Id, Entry>

    constructor (ttl: nat)
      ensures this.ttl == ttl && keys == map[]
    {
      this.ttl := ttl;
      keys := map[];
    }

    method GetServed(user: Id, now: int) returns (ids: set<Id>)
      ensures ids == Live(EntryOf(keys, user), now)
      ensures ids == if user in keys && now < keys[user].expiresAt then keys[user].ids else {}
    {
      ids := if user in keys && now < keys[user].expiresAt then keys[user].ids else {};
    }

    method MarkServed(user: Id, postIds: seq<Id>, now: int)
      modifies this
      ensures EntryOf(keys, user) == Marked(old(EntryOf(keys, user)), postIds, now, ttl)
      ensures forall u | u != user :: EntryOf(keys, u) == old(EntryOf(keys, u))
    {
      if postIds == [] {
        return;
      }
      var before := if user in keys && now < keys[user].expiresAt then keys[user].ids else {};
      keys := keys[user := Entry(before + SetOf(postIds), now + ttl)];
    }
  }

  function PostIds(cs: seq<Candidate>): seq<Id> { seq(|cs|, i requires 0 <= i < |cs| => cs[i].post.id) }

  type Page = p: nat | p >= 1 witness 1

  /** `ranked.slice(skip, skip + take)` with `skip = (page - 1) * pageSize` */
  function PageOf<T>(ranked: seq<T>, page: Page, pageSize: nat): seq<T> {
    var skip := (page - 1) * pageSize;
    ranked[Min(skip, |ranked|)..Min(skip + pageSize, |ranked|)]
  }

  class Endpoint {
    const cfg: Config
    const store: FeedServedStore

    constructor (cfg: Config, store: FeedServedStore)
      ensures this.cfg == cfg && this.store == store
    {
      this.cfg := cfg;
      this.store := store;
    }

    /** `results` is what the three sources return for this user; `readAt` and `markAt` are the two Redis times. */
    method ForYou(user: Id, page: Page, pageSize: nat, clientSeen: seq<Id>, suppressed: set<Id>, muted: seq<string>,
                  results: seq<Fetch>, readAt: int, markAt: int)
      returns (items: seq<Candidate>, total: nat)
      modifies store
      ensures var e := old(EntryOf(store.keys, user));
              var q := Query(user, suppressed, muted, Live(e, readAt) + SetOf(clientSeen));
              && items == PageOf(Pipeline(cfg, q, results), page, pageSize)
              && total == |Pipeline(cfg, q, results)|
              && EntryOf(store.keys, user) == Marked(e, PostIds(items), markAt, store.ttl)
              && (forall c | c in items :: c.post.id !in Live(e, readAt))
      ensures forall c | c in items ::
                && c.post.owner != user && c.post.owner !in suppressed && c.post.id !in clientSeen
                && forall word | word in muted :: Nowhere(word, c.post.content)
      ensures forall u | u != user :: EntryOf(store.keys, u) == old(EntryOf(store.keys, u))
    {
      var seenIds := store.GetServed(user, readAt);
      ghost var served := seenIds;
      for i := 0 to |clientSeen|
        invariant seenIds == served + SetOf(clientSeen[..i])
        invariant store.keys == old(store.keys)
      {
        seenIds := seenIds + {clientSeen[i]};
      }
      assert clientSeen[..|clientSeen|] == clientSeen;
      var ranked := Run(cfg, Query(user, suppressed, muted, seenIds), results);
      total := |ranked|;
      var skip := (page - 1) * pageSize;
      items := ranked[Min(skip, |ranked|)..Min(skip + pageSize, |ranked|)];
      PageIsShown(cfg, Query(user, suppressed, muted, seenIds), results, page, pageSize);
      store.MarkServed(user, PostIds(items), markAt);
    }
  }

  lemma PageIsShown(cfg: Config, q: Query, results: seq<Fetch>, page: Page, pageSize: nat)
    ensures forall c | c in PageOf(Pipeline(cfg, q, results), page, pageSize) ::
              && c.post.owner != q.user && c.post.owner !in q.suppressed && c.post.id !in q.seen
              && forall word | word in q.muted :: Nowhere(word, c.post.content)
  {
    var ranked := Pipeline(cfg, q, results);
    forall c | c in PageOf(ranked, page, pageSize) ensures c in ranked && Shown(q, c.post) {
      ResultIsShown(cfg, q, results, c);
    }
  }

  // ---------------------------------------------------------------- what served posts do to the next call

  function EligibleIds(q: Query, results: seq<Fetch>): set<Id> { SetOf(PostIds(Eligible(q, results))) }

  function Seeing(q: Query, more: set<Id>): Query { q.(seen := q.seen + more) }

  lemma SeenOnlyMatters(q: Query, more: set<Id>, c: Candidate)
    ensures Survives(SetOf(FILTERS), Seeing(q, more), c) <==>
            Survives(SetOf(FILTERS), q, c) && c.post.id !in more
  {
    var q' := Seeing(q, more);
    assert SetOf(FILTERS) == {SelfPost, BlockedAuthor, MutedKeyword, SeenServed};
    assert Drops(SelfPost, q', c) <==> Drops(SelfPost, q, c);
    assert Drops(BlockedAuthor, q', c) <==> Drops(BlockedAuthor, q, c);
    assert Drops(MutedKeyword, q', c) <==> Drops(MutedKeyword, q, c);
    assert Drops(SeenServed, q', c) <==> Drops(SeenServed, q, c) || c.post.id in more;
  }

  /** Served posts leave the eligible ones, and nothing else does. */
  lemma ServedLeave(q: Query, more: set<Id>, results: seq<Fetch>)
    ensures EligibleIds(Seeing(q, more), results) == EligibleIds(q, results) - more
  {
    var all := Dedup(Collected(results));
    var before, after := Eligible(q, results), Eligible(Seeing(q, more), results);
    SurvivorsAre(SetOf(FILTERS), q, all);
    SurvivorsAre(SetOf(FILTERS), Seeing(q, more), all);
    forall id ensures id in EligibleIds(Seeing(q, more), results) <==> id in EligibleIds(q, results) - more {
      if id in EligibleIds(Seeing(q, more), results) {
        var c := WithId(after, id);
        SeenOnlyMatters(q, more, c);
        IdOf(before, c);
      }
      if id in EligibleIds(q, results) - more {
        var c := WithId(before, id);
        SeenOnlyMatters(q, more, c);
        IdOf(after, c);
      }
    }
  }

  lemma WithId(cs: seq<Candidate>, id: Id) returns (c: Candidate)
    requires id in SetOf(PostIds(cs))
    ensures c in cs && c.post.id == id
  {
    var i :| 0 <= i < |PostIds(cs)| && PostIds(cs)[i] == id;
    c := cs[i];
  }

  lemma IdOf(cs: seq<Candidate>, c: Candidate)
    requires c in cs
    ensures c.post.id in SetOf(PostIds(cs))
  {
    var i :| 0 <= i < |cs| && cs[i] == c;
    assert PostIds(cs)[i] == c.post.id;
  }

  /** An eligible id is one that a source mentions, for a post that nothing keeps out. */
  lemma EligibleIdsAre(q: Query, results: seq<Fetch>, id: Id)
    ensures id in EligibleIds(q, results) <==>
            id in Ids(Collected(results)) && Shown(q, First(Collected(results), id).post)
  {
    DedupIsDistinct(Collected(results));
    SurvivorsAre(SetOf(FILTERS), q, Dedup(Collected(results)));
    if id in Ids(Collected(results)) { EligibleIffShown(q, results, id); }
    if id in EligibleIds(q, results) {
      var c := WithId(Eligible(q, results), id);
    }
    if id in Ids(Collected(results)) && Shown(q, First(Collected(results), id).post) {
      var c :| c in Eligible(q, results) && c.post == First(Collected(results), id).post;
      IdOf(Eligible(q, results), c);
    }
  }

  lemma {:induction false} DistinctCount(ids: seq<Id>)
    requires Distinct(ids)
    ensures |SetOf(ids)| == |ids|
  {
    if ids != [] {
      var n := |ids| - 1;
      DistinctCount(ids[..n]);
      assert ids == ids[..n] + [ids[n]];
      assert SetOf(ids) == SetOf(ids[..n]) + {ids[n]};
    }
  }

  lemma PipelineIsEligible(cfg: Config, q: Query, results: seq<Fetch>, c: Candidate)
    requires c in Pipeline(cfg, q, results)
    ensures c.post.id in EligibleIds(q, results)
  {
    var scored := Diversified(cfg, Scored(cfg, q, results));
    PipelineIsComplete(cfg, q, results);
    SortKeepsMembers(true, scored);
    assert c in Sort(true, scored);
    var i :| 0 <= i < |scored| && scored[i] == c;
    IdOf(Eligible(q, results), Eligible(q, results)[i]);
  }

  /** The ranked ids as a function of the posts already served. */
  function RankedIds(cfg: Config, q: Query, results: seq<Fetch>): set<Id> -> seq<Id> {
    (served: set<Id>) => PostIds(Pipeline(cfg, Seeing(q, served), results))
  }

  /** A ranking lists distinct posts among the eligible ones not yet served, as many as there are up to a maximum. */
  ghost predicate RanksTheRest(rank: set<Id> -> seq<Id>, eligible: set<Id>, max: nat) {
    forall served :: Lists(rank(served), eligible - served, max)
  }

  ghost predicate Lists(ids: seq<Id>, left: set<Id>, max: nat) {
    Distinct(ids) && SetOf(ids) <= left && |ids| == Min(|left|, max)
  }

  lemma PipelineRanksTheRest(cfg: Config, q: Query, results: seq<Fetch>)
    ensures RanksTheRest(RankedIds(cfg, q, results), EligibleIds(q, results), cfg.maxResults)
  {
    forall served: set<Id>
      ensures Lists(RankedIds(cfg, q, results)(served), EligibleIds(q, results) - served, cfg.maxResults)
    {
      ServedLeave(q, served, results);
      PipelineIds(cfg, Seeing(q, served), results);
    }
  }

  lemma PipelineIds(cfg: Config, q: Query, results: seq<Fetch>)
    ensures Lists(PostIds(Pipeline(cfg, q, results)), EligibleIds(q, results), cfg.maxResults)
  {
    PipelineIsSound(cfg, q, results);
    PipelineIsComplete(cfg, q, results);
    EligibleIsDistinct(q, results);
    DistinctCount(PostIds(Eligible(q, results)));
    forall id | id in SetOf(PostIds(Pipeline(cfg, q, results))) ensures id in EligibleIds(q, results) {
      var c := WithId(Pipeline(cfg, q, results), id);
      PipelineIsEligible(cfg, q, results, c);
    }
  }

  // ---------------------------------------------------------------- repeated calls

  datatype Call = Call(page: Page, readAt: int, markAt: int)
  datatype Session = Session(entry: Option<Entry>, pages: seq<seq<Id>>)

  function CallPage(rank: set<Id> -> seq<Id>, pageSize: nat, e: Option<Entry>, call: Call): seq<Id> {
    PageOf(rank(Live(e, call.readAt)), call.page, pageSize)
  }

  /** What the endpoint returns and marks is one such call, with the client's own seen ids in the query. */
  lemma ForYouIsACall(cfg: Config, q: Query, results: seq<Fetch>, pageSize: nat, e: Option<Entry>, call: Call)
    ensures PostIds(PageOf(Pipeline(cfg, q.(seen := Live(e, call.readAt) + q.seen), results), call.page, pageSize)) ==
            CallPage(RankedIds(cfg, q, results), pageSize, e, call)
  {
    var served := Live(e, call.readAt);
    assert served + q.seen == q.seen + served;
    assert q.(seen := served + q.seen) == Seeing(q, served);
    IdsOfPage(Pipeline(cfg, Seeing(q, served), results), call.page, pageSize);
  }

  lemma IdsOfPage(cs: seq<Candidate>, page: Page, pageSize: nat)
    ensures PostIds(PageOf(cs, page, pageSize)) == PageOf(PostIds(cs), page, pageSize)
  {
  }

  /** Calls of one user while sources, blocks and hot scores stay as they are. */
  function Play(rank: set<Id> -> seq<Id>, pageSize: nat, ttl: nat, start: Option<Entry>, calls: seq<Call>): (s: Session)
    ensures |s.pages| == |calls|
  {
    if calls == [] then Session(start, [])
    else
      var n := |calls| - 1;
      var s := Play(rank, pageSize, ttl, start, calls[..n]);
      var ids := CallPage(rank, pageSize, s.entry, calls[n]);
      Session(Marked(s.entry, ids, calls[n].markAt, ttl), s.pages + [ids])
  }

  ghost predicate LiveAt(e: Option<Entry>, call: Call) {
    e.Some? ==> call.readAt < e.value.expiresAt && call.markAt < e.value.expiresAt
  }

  /** No call finds the served set expired. */
  ghost predicate StaysLive(rank: set<Id> -> seq<Id>, pageSize: nat, ttl: nat, start: Option<Entry>, calls: seq<Call>) {
    calls != [] ==>
      var n := |calls| - 1;
      && StaysLive(rank, pageSize, ttl, start, calls[..n])
      && LiveAt(Play(rank, pageSize, ttl, start, calls[..n]).entry, calls[n])
  }

  function Flat(pages: seq<seq<Id>>): seq<Id> {
    if pages == [] then [] else Flat(pages[..|pages| - 1]) + pages[|pages| - 1]
  }

  lemma FlatAppend(pages: seq<seq<Id>>, ids: seq<Id>)
    ensures Flat(pages + [ids]) == Flat(pages) + ids
    ensures SetOf(Flat(pages) + ids) == SetOf(Flat(pages)) + SetOf(ids)
  {
    assert (pages + [ids])[..|pages|] == pages;
  }

  function ServedIn(e: Option<Entry>): set<Id> { if e.Some? then e.value.ids else {} }

  /** The served set is what it was at the start and everything returned since. */
  lemma {:induction false} ServedAccumulates(rank: set<Id> -> seq<Id>, pageSize: nat, ttl: nat, start: Option<Entry>,
                                             calls: seq<Call>)
    requires StaysLive(rank, pageSize, ttl, start, calls)
    ensures var s := Play(rank, pageSize, ttl, start, calls);
            ServedIn(s.entry) == ServedIn(start) + SetOf(Flat(s.pages))
  {
    if calls != [] {
      var n := |calls| - 1;
      ServedAccumulates(rank, pageSize, ttl, start, calls[..n]);
      var s := Play(rank, pageSize, ttl, start, calls[..n]);
      FlatAppend(s.pages, CallPage(rank, pageSize, s.entry, calls[n]));
    }
  }

  lemma SetOfAppend(a: seq<Id>, b: seq<Id>)
    ensures SetOf(a + b) == SetOf(a) + SetOf(b)
  {
  }

  lemma AppendDistinct(a: seq<Id>, b: seq<Id>, within: set<Id>)
    requires Distinct(a) && Distinct(b) && SetOf(a) <= within && SetOf(b) <= within - SetOf(a)
    ensures Distinct(a + b) && SetOf(a + b) <= within && |within - SetOf(a)| == |within| - |a|
  {
    DistinctCount(a);
    SetOfAppend(a, b);
    forall i, j | 0 <= i < |a| && 0 <= j < |b| ensures a[i] != b[j] {
      assert a[i] in SetOf(a) && b[j] in SetOf(b);
    }
  }

  ghost predicate FirstPages(calls: seq<Call>) { forall i | 0 <= i < |calls| :: calls[i].page == 1 }

  /** The posts to be served: eligible, and not served before the session. */
  function Unserved(eligible: set<Id>, start: Option<Entry>): set<Id> { eligible - ServedIn(start) }

  lemma FirstPageOf(ids: seq<Id>, pageSize: nat)
    requires Distinct(ids)
    ensures Distinct(PageOf(ids, 1, pageSize)) && SetOf(PageOf(ids, 1, pageSize)) <= SetOf(ids)
    ensures |PageOf(ids, 1, pageSize)| == Min(pageSize, |ids|)
  {
    var items := PageOf(ids, 1, pageSize);
    assert items == ids[..Min(pageSize, |ids|)];
    forall id | id in SetOf(items) ensures id in SetOf(ids) { assert id in items; }
  }

  /** Distinct posts, all of them to be served, and as many as were asked for. */
  ghost predicate Progress(served: seq<Id>, unserved: set<Id>, asked: int) {
    Distinct(served) && SetOf(served) <= unserved && |served| == Min(|unserved|, asked)
  }

  lemma ProgressByPage(before: seq<Id>, ids: seq<Id>, unserved: set<Id>, asked: int, pageSize: nat)
    requires Progress(before, unserved, asked)
    requires Distinct(ids) && SetOf(ids) <= unserved - SetOf(before)
    requires |ids| == Min(pageSize, |unserved - SetOf(before)|)
    ensures Progress(before + ids, unserved, asked + pageSize)
  {
    AppendDistinct(before, ids, unserved);
  }

  function Asked(calls: nat, pageSize: nat): nat { if calls == 0 then 0 else Asked(calls - 1, pageSize) + pageSize }

  lemma {:induction false} AskedIsProduct(calls: nat, pageSize: nat)
    ensures Asked(calls, pageSize) == calls * pageSize
  {
    if calls > 0 { AskedIsProduct(calls - 1, pageSize); }
  }

  lemma NothingYet(served: seq<Id>, unserved: set<Id>)
    requires served == []
    ensures Progress(served, unserved, 0)
  {
  }

  lemma {:induction false} NothingTwice(rank: set<Id> -> seq<Id>, eligible: set<Id>, max: nat, pageSize: nat, ttl: nat,
                                        start: Option<Entry>, calls: seq<Call>)
    requires RanksTheRest(rank, eligible, max) && 0 < pageSize <= max && FirstPages(calls)
    requires StaysLive(rank, pageSize, ttl, start, calls)
    ensures Progress(Flat(Play(rank, pageSize, ttl, start, calls).pages), Unserved(eligible, start),
                     Asked(|calls|, pageSize))
  {
    if calls != [] {
      var n := |calls| - 1;
      NothingTwice(rank, eligible, max, pageSize, ttl, start, calls[..n]);
      OneMoreCall(rank, eligible, max, pageSize, ttl, start, calls, Asked(n, pageSize));
    } else {
      NothingYet(Flat(Play(rank, pageSize, ttl, start, calls).pages), Unserved(eligible, start));
    }
  }

  lemma OneMoreCall(rank: set<Id> -> seq<Id>, eligible: set<Id>, max: nat, pageSize: nat, ttl: nat,
                    start: Option<Entry>, calls: seq<Call>, asked: int)
    requires RanksTheRest(rank, eligible, max) && 0 < pageSize <= max
    requires calls != [] && calls[|calls| - 1].page == 1 && StaysLive(rank, pageSize, ttl, start, calls)
    requires Progress(Flat(Play(rank, pageSize, ttl, start, calls[..|calls| - 1]).pages), Unserved(eligible, start),
                      asked)
    ensures Progress(Flat(Play(rank, pageSize, ttl, start, calls).pages), Unserved(eligible, start), asked + pageSize)
  {
    var n := |calls| - 1;
    ServedAccumulates(rank, pageSize, ttl, start, calls[..n]);
    var s, ids := LastCall(rank, pageSize, ttl, start, calls);
    NextPage(rank, eligible, max, pageSize, start, s.entry, calls[n], Flat(s.pages));
    ProgressByPage(Flat(s.pages), ids, Unserved(eligible, start), asked, pageSize);
  }

  lemma LastCall(rank: set<Id> -> seq<Id>, pageSize: nat, ttl: nat, start: Option<Entry>, calls: seq<Call>)
    returns (s: Session, ids: seq<Id>)
    requires calls != [] && StaysLive(rank, pageSize, ttl, start, calls)
    ensures s == Play(rank, pageSize, ttl, start, calls[..|calls| - 1])
    ensures ids == CallPage(rank, pageSize, s.entry, calls[|calls| - 1]) && LiveAt(s.entry, calls[|calls| - 1])
    ensures Flat(Play(rank, pageSize, ttl, start, calls).pages) == Flat(s.pages) + ids
  {
    s := Play(rank, pageSize, ttl, start, calls[..|calls| - 1]);
    ids := CallPage(rank, pageSize, s.entry, calls[|calls| - 1]);
    FlatAppend(s.pages, ids);
  }

  /** The first page of a live call is cut from the eligible posts that were not served so far. */
  lemma NextPage(rank: set<Id> -> seq<Id>, eligible: set<Id>, max: nat, pageSize: nat,
                 start: Option<Entry>, e: Option<Entry>, call: Call, before: seq<Id>)
    requires RanksTheRest(rank, eligible, max) && pageSize <= max
    requires LiveAt(e, call) && call.page == 1
    requires ServedIn(e) == ServedIn(start) + SetOf(before)
    ensures var ids := CallPage(rank, pageSize, e, call);
            var left := Unserved(eligible, start) - SetOf(before);
            Distinct(ids) && SetOf(ids) <= left && |ids| == Min(pageSize, |left|)
  {
    assert Live(e, call.readAt) == ServedIn(e);
    assert eligible - ServedIn(e) == Unserved(eligible, start) - SetOf(before);
    assert Lists(rank(ServedIn(e)), eligible - ServedIn(e), max);
    FirstPageOf(rank(ServedIn(e)), pageSize);
  }

  /**
   * Main result. Asking for page 1 again and again while the served set lives returns every eligible post exactly
   * once: k calls return min(n, k * pageSize) different ones, so the n posts take ceil(n / pageSize) calls and
   * every later call is empty, although scores are computed anew each time.
   */
  lemma EachPostServedOnce(cfg: Config, q: Query, results: seq<Fetch>, pageSize: nat, ttl: nat, start: Option<Entry>,
                           calls: seq<Call>)
    requires 0 < pageSize <= cfg.maxResults && FirstPages(calls)
    requires StaysLive(RankedIds(cfg, q, results), pageSize, ttl, start, calls)
    ensures var served := Flat(Play(RankedIds(cfg, q, results), pageSize, ttl, start, calls).pages);
            var unserved := Unserved(EligibleIds(q, results), start);
            && Progress(served, unserved, |calls| * pageSize)
            && (|calls| * pageSize >= |unserved| ==> SetOf(served) == unserved)
  {
    PipelineRanksTheRest(cfg, q, results);
    NothingTwice(RankedIds(cfg, q, results), EligibleIds(q, results), cfg.maxResults, pageSize, ttl, start, calls);
    var served := Flat(Play(RankedIds(cfg, q, results), pageSize, ttl, start, calls).pages);
    AskedIsProduct(|calls|, pageSize);
    DistinctCount(served);
    if |calls| * pageSize >= |Unserved(EligibleIds(q, results), start)| {
      SubsetOfSameSize(SetOf(served), Unserved(EligibleIds(q, results), start));
    }
  }

  lemma SubsetOfSameSize(a: set<Id>, b: set<Id>)
    requires a <= b && |a| == |b|
    ensures a == b
  {
    assert |b - a| == 0;
  }

  /** The posts between two pages: to be served, ranked before the later page, and on neither. */
  ghost predicate Skipped(skipped: seq<Id>, unserved: set<Id>, later: seq<Id>) {
    Distinct(skipped) && SetOf(skipped) <= unserved && SetOf(skipped) !! SetOf(later)
  }

  /** The first page and the second page of what remains. */
  ghost predicate TwoPages(one: seq<Id>, two: seq<Id>, rest: seq<Id>, eligible: set<Id>, pageSize: nat) {
    var n := |eligible|;
    && |one| == Min(pageSize, n)
    && two == PageOf(rest, 2, pageSize)
    && |two| == Min(3 * pageSize, n) - Min(2 * pageSize, n)
    && Skipped(PageOf(rest, 1, pageSize), eligible - SetOf(one), two)
    && |PageOf(rest, 1, pageSize)| == Min(pageSize, n - |one|)
  }

  /**
   * Turning the page skips posts: the posts of page 1 are filtered out before page 2 is cut, so page 2 is the second
   * page of the remaining posts, and the first pageSize of these are on neither page. Page 2 is empty exactly when
   * at most two pages of posts were eligible.
   */
  lemma PageTwoSkipsAPage(cfg: Config, q: Query, results: seq<Fetch>, pageSize: nat, ttl: nat, one: Call, two: Call)
    requires 0 < pageSize && 2 * pageSize <= cfg.maxResults && one.page == 1 && two.page == 2
    requires StaysLive(RankedIds(cfg, q, results), pageSize, ttl, None, [one, two])
    ensures var pages := Play(RankedIds(cfg, q, results), pageSize, ttl, None, [one, two]).pages;
            var n := |EligibleIds(q, results)|;
            var rest := RankedIds(cfg, q, results)(SetOf(pages[0]));
            && TwoPages(pages[0], pages[1], rest, EligibleIds(q, results), pageSize)
            && (pages[1] == [] <==> n <= 2 * pageSize)
  {
    PipelineRanksTheRest(cfg, q, results);
    SecondPage(RankedIds(cfg, q, results), EligibleIds(q, results), cfg.maxResults, pageSize, ttl, one, two);
  }

  lemma SecondPage(rank: set<Id> -> seq<Id>, eligible: set<Id>, max: nat, pageSize: nat, ttl: nat, one: Call, two: Call)
    requires RanksTheRest(rank, eligible, max)
    requires 0 < pageSize && 2 * pageSize <= max && one.page == 1 && two.page == 2
    requires StaysLive(rank, pageSize, ttl, None, [one, two])
    ensures var pages := Play(rank, pageSize, ttl, None, [one, two]).pages;
            TwoPages(pages[0], pages[1], rank(SetOf(pages[0])), eligible, pageSize)
  {
    var pages := Play(rank, pageSize, ttl, None, [one, two]).pages;
    PlayTwo(rank, pageSize, ttl, one, two);
    assert eligible - {} == eligible;
    assert Lists(rank({}), eligible, max) && Lists(rank(SetOf(pages[0])), eligible - SetOf(pages[0]), max);
    CutPages(rank({}), rank(SetOf(pages[0])), eligible, max, pageSize);
  }

  lemma PlayTwo(rank: set<Id> -> seq<Id>, pageSize: nat, ttl: nat, one: Call, two: Call)
    requires one.page == 1 && two.page == 2 && StaysLive(rank, pageSize, ttl, None, [one, two])
    ensures var pages := Play(rank, pageSize, ttl, None, [one, two]).pages;
            && pages[0] == PageOf(rank({}), 1, pageSize)
            && pages[1] == PageOf(rank(SetOf(pages[0])), 2, pageSize)
  {
    assert [one, two][..1] == [one] && [one][..0] == [];
    var s := Play(rank, pageSize, ttl, None, [one]);
    assert s.pages == [PageOf(rank({}), 1, pageSize)];
    assert Live(s.entry, two.readAt) == SetOf(s.pages[0]);
  }

  /** The posts left after the first page, and their first two pages. */
  lemma CutPages(ids: seq<Id>, rest: seq<Id>, eligible: set<Id>, max: nat, pageSize: nat)
    requires 0 < pageSize && 2 * pageSize <= max && Lists(ids, eligible, max)
    requires Lists(rest, eligible - SetOf(PageOf(ids, 1, pageSize)), max)
    ensures TwoPages(PageOf(ids, 1, pageSize), PageOf(rest, 2, pageSize), rest, eligible, pageSize)
  {
    FirstPageLeaves(ids, eligible, pageSize);
    CutTwo(rest, pageSize);
    FirstPageOf(rest, pageSize);
  }

  lemma FirstPageLeaves(ids: seq<Id>, eligible: set<Id>, pageSize: nat)
    requires Distinct(ids) && SetOf(ids) <= eligible
    ensures |PageOf(ids, 1, pageSize)| == Min(pageSize, |ids|)
    ensures |eligible - SetOf(PageOf(ids, 1, pageSize))| == |eligible| - |PageOf(ids, 1, pageSize)|
  {
    FirstPageOf(ids, pageSize);
    var page := PageOf(ids, 1, pageSize);
    DistinctCount(page);
    assert |eligible - SetOf(page)| == |eligible| - |SetOf(page)|;
  }

  lemma CutTwo(ids: seq<Id>, pageSize: nat)
    requires Distinct(ids)
    ensures |PageOf(ids, 2, pageSize)| == Min(2 * pageSize, |ids|) - Min(pageSize, |ids|)
    ensures SetOf(PageOf(ids, 1, pageSize)) !! SetOf(PageOf(ids, 2, pageSize))
  {
    assert (2 - 1) * pageSize == pageSize;
    var cut := Min(pageSize, |ids|);
    assert PageOf(ids, 1, pageSize) == ids[..cut] && PageOf(ids, 2, pageSize) == ids[cut..Min(2 * pageSize, |ids|)];
  }
}
