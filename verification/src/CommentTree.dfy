/**
 * The two-level comment tree. The root walk is a loop over parent pointers with no bound of its own: it ends
 * because the comment table keeps every parent older than its replies.
 */
module CommentTree {
  import opened Collections
  import opened Wrappers

  type Id = nat

  datatype Comment = Comment(id: Id, parent: Option<Id>, post: nat)

  // ---------------------------------------------------------------- the table

  /** `born` numbers the rows in the order of their inserts. */
  datatype Table = Table(rows: map<Id, Comment>, born: map<Id, nat>, next: nat)

  /** An insert needs its parent row (foreign key); a delete takes all replies along (cascade). */
  datatype Event =
    | Insert(c: Comment)
    | Delete(gone: set<Id>)

  ghost predicate Enabled(t: Table, e: Event) {
    match e
    case Insert(c) => c.id !in t.born && (c.parent.Some? ==> c.parent.value in t.rows)
    case Delete(gone) =>
      forall c | c in t.rows && t.rows[c].parent.Some? && t.rows[c].parent.value in gone :: c in gone
  }

  function Apply(t: Table, e: Event): Table {
    match e
    case Insert(c) => Table(t.rows[c.id := c], t.born[c.id := t.next], t.next + 1)
    case Delete(gone) => t.(rows := t.rows - gone)
  }

  ghost function Exec(run: seq<Event>): Option<Table> {
    if run == [] then Some(Table(map[], map[], 0))
    else
      var n := |run| - 1;
      var p := Exec(run[..n]);
      if p.Some? && Enabled(p.value, run[n]) then Some(Apply(p.value, run[n])) else None
  }

  /** Every present parent has a smaller rank. */
  ghost predicate Ranked(rows: map<Id, Comment>, rank: map<Id, nat>) {
    && (forall id | id in rows :: rows[id].id == id && id in rank)
    && (forall id, p | id in rows && p in rows && rows[id].parent == Some(p) :: rank[p] < rank[id])
  }

  /** In every reachable table each parent is present and was inserted before its replies. */
  lemma {:induction false} ReachableIsRanked(run: seq<Event>)
    requires Exec(run).Some?
    ensures var t := Exec(run).value;
            && Ranked(t.rows, t.born)
            && (forall id | id in t.rows && t.rows[id].parent.Some? :: t.rows[id].parent.value in t.rows)
            && (forall id | id in t.born :: t.born[id] < t.next)
  {
    if run != [] {
      ReachableIsRanked(run[..|run| - 1]);
    }
  }

  /** A delete takes exactly its comments away, and no reply is left without its parent. */
  lemma DeleteLeavesNoOrphan(run: seq<Event>, gone: set<Id>)
    requires Exec(run).Some? && Enabled(Exec(run).value, Delete(gone))
    ensures var t, after := Exec(run).value, Apply(Exec(run).value, Delete(gone));
            && (forall id :: id in after.rows <==> id in t.rows && id !in gone)
            && (forall id | id in after.rows ::
                  && after.rows[id] == t.rows[id]
                  && (after.rows[id].parent.Some? ==> after.rows[id].parent.value in after.rows))
  {
    ReachableIsRanked(run);
  }

  // ---------------------------------------------------------------- roots

  ghost predicate HasParent(rows: map<Id, Comment>, id: Id)
    requires id in rows
  {
    rows[id].parent.Some? && rows[id].parent.value in rows
  }

  /** Where the walk over present parents ends. */
  ghost function Root(rows: map<Id, Comment>, rank: map<Id, nat>, id: Id): (r: Id)
    requires Ranked(rows, rank) && id in rows
    ensures r in rows && !HasParent(rows, r)
    decreases rank[id]
  {
    if HasParent(rows, id) then Root(rows, rank, rows[id].parent.value) else id
  }

  /** A chain of present parents from the first id to the last. */
  ghost predicate Chain(rows: map<Id, Comment>, path: seq<Id>) {
    && path != []
    && (forall i | 0 <= i < |path| :: path[i] in rows)
    && (forall i | 0 <= i < |path| - 1 :: rows[path[i]].parent == Some(path[i + 1]))
  }

  /** The root is the topmost present ancestor: every chain from a comment ends below or at it. */
  lemma {:induction false} RootIsTopmost(rows: map<Id, Comment>, rank: map<Id, nat>, path: seq<Id>)
    requires Ranked(rows, rank) && Chain(rows, path)
    ensures Root(rows, rank, path[|path| - 1]) == Root(rows, rank, path[0])
    ensures !HasParent(rows, path[|path| - 1]) ==> path[|path| - 1] == Root(rows, rank, path[0])
    decreases |path|
  {
    if |path| > 1 {
      assert rows[path[0]].parent == Some(path[1]);
      RootIsTopmost(rows, rank, path[1..]);
    }
  }

  /** The chain that the walk follows. */
  lemma {:induction false} RootIsReached(rows: map<Id, Comment>, rank: map<Id, nat>, id: Id) returns (path: seq<Id>)
    requires Ranked(rows, rank) && id in rows
    ensures Chain(rows, path) && path[0] == id && path[|path| - 1] == Root(rows, rank, id)
    decreases rank[id]
  {
    if HasParent(rows, id) {
      var rest := RootIsReached(rows, rank, rows[id].parent.value);
      path := [id] + rest;
    } else {
      path := [id];
    }
  }

  /** The walk after n steps, or None once it has ended. */
  ghost function Walk(rows: map<Id, Comment>, id: Id, n: nat): Option<Id>
    requires id in rows
    ensures Walk(rows, id, n).Some? ==> Walk(rows, id, n).value in rows
    decreases n
  {
    if n == 0 then Some(id)
    else if HasParent(rows, id) then Walk(rows, rows[id].parent.value, n - 1)
    else None
  }

  ghost predicate Ends(rows: map<Id, Comment>, id: Id)
    requires id in rows
  {
    exists n: nat :: Walk(rows, id, n).None?
  }

  lemma {:induction false} RankedWalkEnds(rows: map<Id, Comment>, rank: map<Id, nat>, id: Id)
    requires Ranked(rows, rank) && id in rows
    ensures Walk(rows, id, rank[id] + 1).None?
    decreases rank[id]
  {
    if HasParent(rows, id) {
      var p := rows[id].parent.value;
      RankedWalkEnds(rows, rank, p);
      WalkStaysEnded(rows, p, rank[p] + 1, rank[id]);
    }
  }

  lemma {:induction false} WalkStaysEnded(rows: map<Id, Comment>, id: Id, n: nat, m: nat)
    requires id in rows && n <= m && Walk(rows, id, n).None?
    ensures Walk(rows, id, m).None?
    decreases n
  {
    if n > 0 && HasParent(rows, id) {
      WalkStaysEnded(rows, rows[id].parent.value, n - 1, m - 1);
    }
  }

  /** The number of steps after which the walk has ended. */
  ghost function Length(rows: map<Id, Comment>, id: Id, n: nat): (l: nat)
    requires id in rows && Walk(rows, id, n).None?
    ensures 0 < l <= n && Walk(rows, id, l).None? && Walk(rows, id, l - 1).Some?
    decreases n
  {
    if Walk(rows, id, n - 1).None? then Length(rows, id, n - 1) else n
  }

  ghost function Bound(rows: map<Id, Comment>, id: Id): (n: nat)
    requires id in rows && Ends(rows, id)
    ensures Walk(rows, id, n).None?
  {
    var n: nat :| Walk(rows, id, n).None?; n
  }

  ghost predicate AllEnd(rows: map<Id, Comment>) { forall id {:trigger Ends(rows, id)} | id in rows :: Ends(rows, id) }

  /** A parent's walk is shorter. */
  lemma LengthFalls(rows: map<Id, Comment>, id: Id, n: nat, m: nat)
    requires id in rows && HasParent(rows, id)
    requires Walk(rows, id, n).None? && Walk(rows, rows[id].parent.value, m).None?
    ensures Length(rows, rows[id].parent.value, m) < Length(rows, id, n)
  {
    var p, l := rows[id].parent.value, Length(rows, id, n);
    var k := Length(rows, p, m);
    if k >= l {
      assert Walk(rows, p, l - 1).None?;
      WalkStaysEnded(rows, p, l - 1, k - 1);
    }
  }

  /** The number of steps of an ending walk. */
  ghost function Steps(rows: map<Id, Comment>, id: Id): nat {
    if id in rows && Ends(rows, id) then Length(rows, id, Bound(rows, id)) else 0
  }

  lemma StepsFall(rows: map<Id, Comment>, id: Id, p: Id)
    requires id in rows && p in rows && rows[id].parent == Some(p) && Ends(rows, id) && Ends(rows, p)
    ensures Steps(rows, p) < Steps(rows, id)
  {
    LengthFalls(rows, id, Bound(rows, id), Bound(rows, p));
  }

  /** A measure that falls from child to parent ranks the rows. */
  lemma MeasureRanks(rows: map<Id, Comment>, measure: Id -> nat)
    requires forall id | id in rows :: rows[id].id == id
    requires forall id, p | id in rows && p in rows && rows[id].parent == Some(p) :: measure(p) < measure(id)
    ensures exists rank :: Ranked(rows, rank)
  {
    var rank := map id | id in rows :: measure(id);
    assert Ranked(rows, rank);
  }

  lemma EndingWalksRank(rows: map<Id, Comment>)
    requires AllEnd(rows) && forall id | id in rows :: rows[id].id == id
    ensures exists rank :: Ranked(rows, rank)
  {
    var measure: Id -> nat := (id: Id) => Steps(rows, id);
    forall id, p | id in rows && p in rows && rows[id].parent == Some(p) ensures measure(p) < measure(id) {
      assert Ends(rows, id) && Ends(rows, p);
      StepsFall(rows, id, p);
    }
    MeasureRanks(rows, measure);
  }

  lemma RankedWalksEnd(rows: map<Id, Comment>, rank: map<Id, nat>)
    requires Ranked(rows, rank)
    ensures AllEnd(rows)
  {
    forall id | id in rows ensures Ends(rows, id) {
      RankedWalkEnds(rows, rank, id);
    }
  }

  /** Main result: the root walks of a table all end exactly when its rows can be ranked. */
  lemma WalksEndIffRanked(rows: map<Id, Comment>)
    requires forall id | id in rows :: rows[id].id == id
    ensures AllEnd(rows) <==> exists rank :: Ranked(rows, rank)
  {
    if rank :| Ranked(rows, rank) {
      RankedWalksEnd(rows, rank);
    }
    if AllEnd(rows) {
      EndingWalksRank(rows);
    }
  }

  // ---------------------------------------------------------------- the tree

  ghost predicate DistinctIds(cs: seq<Comment>) {
    forall i, j | 0 <= i < j < |cs| :: cs[i].id != cs[j].id
  }

  /** The `byId` map. */
  function ById(cs: seq<Comment>): map<Id, Comment> {
    if cs == [] then map[] else ById(cs[..|cs| - 1])[cs[|cs| - 1].id := cs[|cs| - 1]]
  }

  lemma ByIdFinds(cs: seq<Comment>)
    requires DistinctIds(cs)
    ensures forall id :: id in ById(cs) <==> exists i | 0 <= i < |cs| :: cs[i].id == id
    ensures forall i | 0 <= i < |cs| :: ById(cs)[cs[i].id] == cs[i]
    ensures forall id | id in ById(cs) :: ById(cs)[id].id == id
  {
    if cs != [] {
      ByIdFinds(cs[..|cs| - 1]);
      assert cs == cs[..|cs| - 1] + [cs[|cs| - 1]];
    }
  }

  /** A post's comments as any query returns them: distinct rows of the table, in any order. */
  ghost predicate Listing(t: Table, cs: seq<Comment>) {
    DistinctIds(cs) && forall i | 0 <= i < |cs| :: cs[i].id in t.rows && t.rows[cs[i].id] == cs[i]
  }

  lemma ListingIsRanked(run: seq<Event>, cs: seq<Comment>)
    requires Exec(run).Some? && Listing(Exec(run).value, cs)
    ensures Ranked(ById(cs), Exec(run).value.born)
  {
    ReachableIsRanked(run);
    ByIdFinds(cs);
  }

  function CommentIds(cs: seq<Comment>): seq<Id> {
    seq(|cs|, i requires 0 <= i < |cs| => cs[i].id)
  }

  lemma NextId(cs: seq<Comment>, i: nat)
    requires i < |cs|
    ensures CommentIds(cs)[..i + 1] == CommentIds(cs)[..i] + [cs[i].id]
  {
  }

  /** Every comment with its root. */
  ghost function Roots(rows: map<Id, Comment>, rank: map<Id, nat>): (root: map<Id, Id>)
    requires Ranked(rows, rank)
    ensures root.Keys == rows.Keys && Settled(root)
    ensures forall id | id in rows :: root[id] == id <==> !HasParent(rows, id)
  {
    map id | id in rows :: Root(rows, rank, id)
  }

  /** A root is its own root. */
  ghost predicate Settled(root: map<Id, Id>) {
    forall id | id in root :: root[id] in root && Of(root, root[id]) == root[id]
  }

  function Of(root: map<Id, Id>, id: Id): Id { if id in root then root[id] else id }

  /** The ids whose root lies in `roots`, in input order. */
  function Under(root: map<Id, Id>, ids: seq<Id>, roots: set<Id>): seq<Id> {
    if ids == [] then []
    else
      var n := |ids| - 1;
      Under(root, ids[..n], roots) + if Of(root, ids[n]) in roots then [ids[n]] else []
  }

  function TopIds(root: map<Id, Id>, ids: seq<Id>): seq<Id> {
    if ids == [] then []
    else
      var n := |ids| - 1;
      TopIds(root, ids[..n]) + if Of(root, ids[n]) == ids[n] then [ids[n]] else []
  }

  function ReplyIds(root: map<Id, Id>, ids: seq<Id>, top: Id): seq<Id> {
    if ids == [] then []
    else
      var n := |ids| - 1;
      ReplyIds(root, ids[..n], top) + if Of(root, ids[n]) == top != ids[n] then [ids[n]] else []
  }

  /** The tree read off top by top. */
  function Flatten(root: map<Id, Id>, ids: seq<Id>, tops: seq<Id>): seq<Id> {
    if tops == [] then []
    else
      var n := |tops| - 1;
      Flatten(root, ids, tops[..n]) + [tops[n]] + ReplyIds(root, ids, tops[n])
  }

  lemma {:induction false} UnderSplits(root: map<Id, Id>, ids: seq<Id>, a: set<Id>, b: set<Id>)
    requires a !! b
    ensures multiset(Under(root, ids, a + b)) == multiset(Under(root, ids, a)) + multiset(Under(root, ids, b))
  {
    if ids != [] {
      UnderSplits(root, ids[..|ids| - 1], a, b);
    }
  }

  /** The occurrences of one id. */
  function Only(ids: seq<Id>, id: Id): seq<Id> {
    if ids == [] then [] else Only(ids[..|ids| - 1], id) + if ids[|ids| - 1] == id then [id] else []
  }

  lemma {:induction false} OnlyOnce(ids: seq<Id>, id: Id)
    requires Distinct(ids)
    ensures Only(ids, id) == if id in ids then [id] else []
  {
    if ids != [] {
      var n := |ids| - 1;
      OnlyOnce(ids[..n], id);
      assert ids[n] !in ids[..n];
      assert id in ids <==> id in ids[..n] || id == ids[n];
    }
  }

  /** A top's own group is the top itself and its replies. */
  lemma {:induction false} UnderOne(root: map<Id, Id>, ids: seq<Id>, top: Id)
    requires Of(root, top) == top
    ensures multiset(Under(root, ids, {top})) == multiset(ReplyIds(root, ids, top)) + multiset(Only(ids, top))
  {
    if ids != [] {
      UnderOne(root, ids[..|ids| - 1], top);
    }
  }

  lemma {:induction false} UnderNone(root: map<Id, Id>, ids: seq<Id>)
    ensures Under(root, ids, {}) == []
  {
    if ids != [] {
      UnderNone(root, ids[..|ids| - 1]);
    }
  }

  lemma {:induction false} UnderAll(root: map<Id, Id>, ids: seq<Id>, roots: set<Id>)
    requires forall id | id in ids :: Of(root, id) in roots
    ensures Under(root, ids, roots) == ids
  {
    if ids != [] {
      UnderAll(root, ids[..|ids| - 1], roots);
    }
  }

  lemma LastIsNew(ids: seq<Id>)
    requires ids != [] && Distinct(ids)
    ensures var before := ids[..|ids| - 1];
            && Distinct(before) && ids[|ids| - 1] !in before && ids[|ids| - 1] in ids
            && forall id | id in before :: id in ids
  {
  }

  lemma {:induction false} FlattenIsUnder(root: map<Id, Id>, ids: seq<Id>, tops: seq<Id>)
    requires Distinct(ids) && Distinct(tops)
    requires forall t | t in tops :: t in ids && Of(root, t) == t
    ensures multiset(Flatten(root, ids, tops)) == multiset(Under(root, ids, SetOf(tops)))
  {
    if tops == [] {
      UnderNone(root, ids);
      assert SetOf(tops) == {};
    } else {
      var before, t := tops[..|tops| - 1], tops[|tops| - 1];
      LastIsNew(tops);
      FlattenIsUnder(root, ids, before);
      OneMoreTop(root, ids, before, t);
      assert tops == before + [t];
    }
  }

  lemma OneMoreTop(root: map<Id, Id>, ids: seq<Id>, tops: seq<Id>, t: Id)
    requires Distinct(ids) && t in ids && Of(root, t) == t && t !in tops
    ensures var more := tops + [t];
            && multiset(Flatten(root, ids, more)) ==
                 multiset(Flatten(root, ids, tops)) + multiset{t} + multiset(ReplyIds(root, ids, t))
            && multiset(Under(root, ids, SetOf(more))) ==
                 multiset(Under(root, ids, SetOf(tops))) + multiset{t} + multiset(ReplyIds(root, ids, t))
  {
    assert (tops + [t])[..|tops|] == tops;
    assert SetOf(tops + [t]) == SetOf(tops) + {t};
    UnderSplits(root, ids, SetOf(tops), {t});
    UnderOne(root, ids, t);
    OnlyOnce(ids, t);
  }

  /** The tops are exactly the listed comments that are their own root, each once. */
  lemma {:induction false} TopIdsAreRoots(root: map<Id, Id>, ids: seq<Id>)
    requires Distinct(ids)
    ensures Distinct(TopIds(root, ids))
    ensures forall t :: t in TopIds(root, ids) <==> t in ids && Of(root, t) == t
  {
    if ids != [] {
      var n := |ids| - 1;
      TopIdsAreRoots(root, ids[..n]);
      assert ids == ids[..n] + [ids[n]];
      assert ids[n] !in ids[..n];
    }
  }

  /** Main result: read top by top, the tree holds every comment of the list exactly once. */
  lemma EveryCommentPlacedOnce(root: map<Id, Id>, ids: seq<Id>)
    requires Settled(root) && Distinct(ids) && SetOf(ids) == root.Keys
    ensures multiset(Flatten(root, ids, TopIds(root, ids))) == multiset(ids)
  {
    var tops := TopIds(root, ids);
    TopIdsAreRoots(root, ids);
    FlattenIsUnder(root, ids, tops);
    forall id | id in ids ensures Of(root, id) in SetOf(tops) {
      assert id in SetOf(ids) && Of(root, id) in SetOf(ids);
    }
    UnderAll(root, ids, SetOf(tops));
  }

  /** A reply list holds exactly the other comments with that root. */
  lemma {:induction false} ReplyIdsShareRoot(root: map<Id, Id>, ids: seq<Id>, top: Id)
    ensures forall r :: r in ReplyIds(root, ids, top) <==> r in ids && r != top && Of(root, r) == top
  {
    if ids != [] {
      var n := |ids| - 1;
      ReplyIdsShareRoot(root, ids[..n], top);
      assert ids == ids[..n] + [ids[n]];
    }
  }

  /** `a` is what is left of `b` after dropping some elements. */
  ghost predicate Subsequence(a: seq<Id>, b: seq<Id>)
    decreases |b|
  {
    if a == [] then true
    else if b == [] then false
    else
      || Subsequence(a, b[..|b| - 1])
      || (a[|a| - 1] == b[|b| - 1] && Subsequence(a[..|a| - 1], b[..|b| - 1]))
  }

  lemma SubsequenceGrows(a: seq<Id>, b: seq<Id>, x: Id)
    requires Subsequence(a, b)
    ensures Subsequence(a, b + [x]) && Subsequence(a + [x], b + [x])
  {
    assert (b + [x])[..|b|] == b && (a + [x])[..|a|] == a;
  }

  /** Tops and replies keep the order of the list. */
  lemma {:induction false} OrderIsKept(root: map<Id, Id>, ids: seq<Id>, top: Id)
    ensures Subsequence(TopIds(root, ids), ids)
    ensures Subsequence(ReplyIds(root, ids, top), ids)
  {
    if ids != [] {
      var n := |ids| - 1;
      OrderIsKept(root, ids[..n], top);
      var tops, replies := TopIds(root, ids[..n]), ReplyIds(root, ids[..n], top);
      SubsequenceGrows(tops, ids[..n], ids[n]);
      SubsequenceGrows(replies, ids[..n], ids[n]);
      assert ids == ids[..n] + [ids[n]];
      assert TopIds(root, ids) == tops || TopIds(root, ids) == tops + [ids[n]];
      assert ReplyIds(root, ids, top) == replies || ReplyIds(root, ids, top) == replies + [ids[n]];
    }
  }

  class CommentDto {
    const comment: Comment
    const isLiked: bool
    var replies: seq<CommentDto>

    constructor (comment: Comment, isLiked: bool)
      ensures this.comment == comment && this.isLiked == isLiked && replies == []
    {
      this.comment := comment;
      this.isLiked := isLiked;
      replies := [];
    }
  }

  function Ids(ds: seq<CommentDto>): seq<Id> {
    seq(|ds|, i requires 0 <= i < |ds| => ds[i].comment.id)
  }

  /** The walk itself: up the present parents until one is missing. */
  method RootId(byId: map<Id, Comment>, ghost rank: map<Id, nat>, c: Comment) returns (r: Id)
    requires Ranked(byId, rank) && c.id in byId && byId[c.id] == c
    ensures r == Root(byId, rank, c.id)
  {
    var cur := c;
    while cur.parent.Some? && cur.parent.value in byId
      invariant cur.id in byId && byId[cur.id] == cur
      invariant Root(byId, rank, cur.id) == Root(byId, rank, c.id)
      decreases rank[cur.id]
    {
      cur := byId[cur.parent.value];
    }
    return cur.id;
  }

  ghost predicate IsDto(d: CommentDto, dtos: map<Id, CommentDto>) {
    d.comment.id in dtos && dtos[d.comment.id] == d
  }

  /** The dto objects before the pass: one fresh object per comment, without replies. */
  method MakeDtos(comments: seq<Comment>, liked: set<Id>) returns (dtos: map<Id, CommentDto>)
    requires DistinctIds(comments)
    ensures dtos.Keys == ById(comments).Keys
    ensures forall id | id in dtos ::
              && fresh(dtos[id]) && dtos[id].comment == ById(comments)[id]
              && (dtos[id].isLiked <==> id in liked) && dtos[id].replies == []
  {
    dtos := map[];
    for i := 0 to |comments|
      invariant dtos.Keys == ById(comments[..i]).Keys
      invariant forall id | id in dtos ::
                  && fresh(dtos[id]) && dtos[id].comment == ById(comments[..i])[id]
                  && (dtos[id].isLiked <==> id in liked) && dtos[id].replies == []
    {
      var dto := new CommentDto(comments[i], comments[i].id in liked);
      dtos := dtos[comments[i].id := dto];
      assert comments[..i + 1][..i] == comments[..i];
    }
    assert comments[..|comments|] == comments;
  }

  /** The dtos after the first comments of the list. */
  ghost predicate Built(root: map<Id, Id>, ids: seq<Id>, dtos: map<Id, CommentDto>, tops: seq<CommentDto>)
    reads dtos.Values
  {
    && dtos.Keys == root.Keys
    && (forall id | id in dtos :: dtos[id].comment.id == id)
    && Ids(tops) == TopIds(root, ids)
    && (forall d | d in tops :: IsDto(d, dtos))
    && (forall id | id in dtos :: Ids(dtos[id].replies) == ReplyIds(root, ids, id))
    && (forall id, r | id in dtos && r in dtos[id].replies :: IsDto(r, dtos))
  }

  lemma NothingBuilt(root: map<Id, Id>, dtos: map<Id, CommentDto>)
    requires dtos.Keys == root.Keys
    requires forall id | id in dtos :: dtos[id].comment.id == id && dtos[id].replies == []
    ensures Built(root, [], dtos, [])
  {
    assert forall id | id in dtos :: Ids(dtos[id].replies) == [] == ReplyIds(root, [], id);
  }

  /** Places one comment: a root goes to the tops, any other comment to the replies of its root. */
  method Place(
    ghost root: map<Id, Id>, ghost before: seq<Id>, id: Id, r: Id, dtos: map<Id, CommentDto>, tops: seq<CommentDto>)
    returns (tops': seq<CommentDto>)
    requires id in root && r == root[id] && r in root
    requires Built(root, before, dtos, tops)
    modifies dtos.Values
    ensures Built(root, before + [id], dtos, tops')
  {
    assert (before + [id])[..|before|] == before;
    var dto := dtos[id];
    if r == id {
      tops' := tops + [dto];
      assert Ids(tops') == Ids(tops) + [id];
    } else {
      tops' := tops;
      var top := dtos[r];
      ghost var replies := top.replies;
      label L:
      top.replies := top.replies + [dto];
      assert Ids(top.replies) == Ids(replies) + [id];
      forall x | x in dtos
        ensures Ids(dtos[x].replies) == ReplyIds(root, before + [id], x)
        ensures forall d | d in dtos[x].replies :: IsDto(d, dtos)
      {
        if x != r {
          assert dtos[x].replies == old@L(dtos[x].replies);
        }
      }
    }
  }

  /** The pass over the list, with the dto objects at hand. */
  method PlaceAll(
    byId: map<Id, Comment>, ghost rank: map<Id, nat>, comments: seq<Comment>, dtos: map<Id, CommentDto>)
    returns (tops: seq<CommentDto>)
    requires Ranked(byId, rank) && Built(Roots(byId, rank), [], dtos, [])
    requires forall i | 0 <= i < |comments| :: comments[i].id in byId && byId[comments[i].id] == comments[i]
    modifies dtos.Values
    ensures Built(Roots(byId, rank), CommentIds(comments), dtos, tops)
  {
    ghost var ids, root := CommentIds(comments), Roots(byId, rank);
    tops := [];
    for i := 0 to |comments|
      invariant Built(root, ids[..i], dtos, tops)
    {
      var r := RootId(byId, rank, comments[i]);
      tops := Place(root, ids[..i], comments[i].id, r, dtos, tops);
      NextId(comments, i);
    }
    assert ids[..|comments|] == ids;
  }

  /** The whole of buildCommentTree over a listing. */
  method BuildCommentTree(comments: seq<Comment>, liked: set<Id>, ghost rank: map<Id, nat>)
    returns (tops: seq<CommentDto>, ghost dtos: map<Id, CommentDto>)
    requires DistinctIds(comments) && Ranked(ById(comments), rank)
    ensures Built(Roots(ById(comments), rank), CommentIds(comments), dtos, tops)
    ensures forall id | id in dtos ::
              fresh(dtos[id]) && dtos[id].comment == ById(comments)[id] && (dtos[id].isLiked <==> id in liked)
  {
    var byId := ById(comments);
    ByIdFinds(comments);
    var all := MakeDtos(comments, liked);
    NothingBuilt(Roots(byId, rank), all);
    tops := PlaceAll(byId, rank, comments, all);
    dtos := all;
  }

  // ---------------------------------------------------------------- the built objects

  /** The objects read top by top. */
  function ReadOff(tops: seq<CommentDto>): seq<Id>
    reads tops
  {
    if tops == [] then []
    else
      var n := |tops| - 1;
      ReadOff(tops[..n]) + [tops[n].comment.id] + Ids(tops[n].replies)
  }

  /** What a built object carries. */
  lemma BuiltDto(
    root: map<Id, Id>, ids: seq<Id>, dtos: map<Id, CommentDto>, tops: seq<CommentDto>, d: CommentDto)
    requires Built(root, ids, dtos, tops) && IsDto(d, dtos)
    ensures Ids(d.replies) == ReplyIds(root, ids, d.comment.id)
    ensures forall r | r in d.replies :: IsDto(r, dtos) && r.comment.id in ReplyIds(root, ids, d.comment.id)
  {
    var id := d.comment.id;
    assert dtos[id].comment.id == id;
    forall r | r in d.replies ensures r.comment.id in Ids(d.replies) {
      var i :| 0 <= i < |d.replies| && d.replies[i] == r;
      assert Ids(d.replies)[i] == r.comment.id;
    }
  }

  /** In the built tree a reply carries no replies of its own. */
  lemma DepthIsTwo(
    root: map<Id, Id>, ids: seq<Id>, dtos: map<Id, CommentDto>, tops: seq<CommentDto>,
    top: CommentDto, reply: CommentDto)
    requires Settled(root) && Built(root, ids, dtos, tops)
    requires top in tops && reply in top.replies
    ensures reply.replies == []
  {
    BuiltDto(root, ids, dtos, tops, top);
    BuiltDto(root, ids, dtos, tops, reply);
    NoReplyToReply(root, ids, top.comment.id, reply.comment.id);
    assert |Ids(reply.replies)| == 0;
  }

  lemma NoReplyToReply(root: map<Id, Id>, ids: seq<Id>, t: Id, r: Id)
    requires Settled(root) && r in ReplyIds(root, ids, t)
    ensures ReplyIds(root, ids, r) == []
  {
    ReplyIdsShareRoot(root, ids, t);
    NobodyUnder(root, ids, r);
  }

  lemma {:induction false} NobodyUnder(root: map<Id, Id>, ids: seq<Id>, r: Id)
    requires Settled(root) && Of(root, r) != r
    ensures ReplyIds(root, ids, r) == []
  {
    if ids != [] { NobodyUnder(root, ids[..|ids| - 1], r); }
  }

  lemma {:induction false} ReadOffIsFlatten(
    root: map<Id, Id>, ids: seq<Id>, dtos: map<Id, CommentDto>, tops: seq<CommentDto>, some: seq<CommentDto>)
    requires Built(root, ids, dtos, tops) && forall d | d in some :: d in tops
    ensures ReadOff(some) == Flatten(root, ids, Ids(some))
    decreases |some|
  {
    if some != [] {
      var n := |some| - 1;
      assert some[n] in some && forall d | d in some[..n] :: d in some;
      ReadOffIsFlatten(root, ids, dtos, tops, some[..n]);
      BuiltDto(root, ids, dtos, tops, some[n]);
      assert Ids(some) == Ids(some[..n]) + [some[n].comment.id];
      assert Ids(some)[..n] == Ids(some[..n]);
    }
  }

  /** The objects hold every comment once, in the order of the list, two levels deep. */
  ghost predicate IsTreeOf(ids: seq<Id>, tops: seq<CommentDto>)
    reads tops, set t, r | t in tops && r in t.replies :: r
  {
    && multiset(ReadOff(tops)) == multiset(ids)
    && Subsequence(Ids(tops), ids)
    && (forall t | t in tops :: Subsequence(Ids(t.replies), ids))
    && forall t, r | t in tops && r in t.replies :: r.replies == []
  }

  lemma BuiltIsTree(root: map<Id, Id>, ids: seq<Id>, dtos: map<Id, CommentDto>, tops: seq<CommentDto>)
    requires Settled(root) && Distinct(ids) && SetOf(ids) == root.Keys && Built(root, ids, dtos, tops)
    ensures IsTreeOf(ids, tops)
  {
    EveryObjectOnce(root, ids, dtos, tops);
    RepliesInOrder(root, ids, dtos, tops);
    TwoLevels(root, ids, dtos, tops);
  }

  lemma EveryObjectOnce(root: map<Id, Id>, ids: seq<Id>, dtos: map<Id, CommentDto>, tops: seq<CommentDto>)
    requires Settled(root) && Distinct(ids) && SetOf(ids) == root.Keys && Built(root, ids, dtos, tops)
    ensures multiset(ReadOff(tops)) == multiset(ids) && Subsequence(Ids(tops), ids)
  {
    ReadOffIsFlatten(root, ids, dtos, tops, tops);
    EveryCommentPlacedOnce(root, ids);
    OrderIsKept(root, ids, 0);
  }

  lemma TwoLevels(root: map<Id, Id>, ids: seq<Id>, dtos: map<Id, CommentDto>, tops: seq<CommentDto>)
    requires Settled(root) && Built(root, ids, dtos, tops)
    ensures forall t, r | t in tops && r in t.replies :: r.replies == []
  {
    forall t, r | t in tops && r in t.replies ensures r.replies == [] {
      DepthIsTwo(root, ids, dtos, tops, t, r);
    }
  }

  lemma RepliesInOrder(root: map<Id, Id>, ids: seq<Id>, dtos: map<Id, CommentDto>, tops: seq<CommentDto>)
    requires Built(root, ids, dtos, tops)
    ensures forall t | t in tops :: Subsequence(Ids(t.replies), ids)
  {
    forall t | t in tops ensures Subsequence(Ids(t.replies), ids) {
      BuiltDto(root, ids, dtos, tops, t);
      OrderIsKept(root, ids, t.comment.id);
    }
  }

  lemma ListedIds(run: seq<Event>, cs: seq<Comment>)
    requires Exec(run).Some? && Listing(Exec(run).value, cs)
    ensures Distinct(CommentIds(cs)) && SetOf(CommentIds(cs)) == ById(cs).Keys
  {
    ByIdFinds(cs);
    var ids := CommentIds(cs);
    forall id ensures id in SetOf(ids) <==> id in ById(cs) {
      if i :| 0 <= i < |cs| && cs[i].id == id {
        assert ids[i] == id;
      }
    }
  }

  /**
   * Main result, for every reachable table: a post's listing can be ranked, so the method may be called on it, and
   * the objects it builds hold every listed comment once, tops and replies in the order of the list, two levels deep.
   */
  lemma ReachableListingIsBuilt(run: seq<Event>, cs: seq<Comment>, dtos: map<Id, CommentDto>, tops: seq<CommentDto>)
    requires Exec(run).Some? && Listing(Exec(run).value, cs)
    ensures var rank := Exec(run).value.born;
            && Ranked(ById(cs), rank)
            && (Built(Roots(ById(cs), rank), CommentIds(cs), dtos, tops) ==> IsTreeOf(CommentIds(cs), tops))
  {
    var rank := Exec(run).value.born;
    ListingIsRanked(run, cs);
    ListedIds(run, cs);
    if Built(Roots(ById(cs), rank), CommentIds(cs), dtos, tops) {
      BuiltIsTree(Roots(ById(cs), rank), CommentIds(cs), dtos, tops);
    }
  }
}
