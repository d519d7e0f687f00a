/** Bot ingestion: one post per source item, projected in the same transaction to a rumour, a transfer or news. */
module Ingestion {
  import opened Wrappers

  type Id = nat
  type Source = string

  datatype Category = Rumour | Official | Breaking
  datatype PostType = TransferPost | TeamPost | PlayerPost
  datatype Target = ToRumour | ToTransfer | ToNews | ToNone

  datatype Refs = Refs(player: Option<Id>, team: Option<Id>, from: Option<Id>, to: Option<Id>)
  datatype Shape = Shape(postType: PostType, refs: Refs)
  datatype Item = Item(source: Source, category: Category, refs: Refs)

  // ---------------------------------------------------------------- shape

  const NO_REFS: Refs := Refs(None, None, None, None)

  /** None is the 400 answer. */
  function ResolvePostShape(refs: Refs): Option<Shape> {
    if refs.player.None? && refs.team.None? && refs.from.None? && refs.to.None? then Some(Shape(TransferPost, NO_REFS))
    else if refs.team.Some? && refs.player.None? && refs.from.None? && refs.to.None? then
      Some(Shape(TeamPost, Refs(None, refs.team, None, None)))
    else if refs.player.Some? && refs.team.None? && refs.from.None? && refs.to.None? then
      Some(Shape(PlayerPost, Refs(refs.player, None, None, None)))
    else if refs.player.Some? && refs.from.Some? && refs.to.Some? && refs.team.None? then
      Some(Shape(TransferPost, Refs(refs.player, None, refs.from, refs.to)))
    else None
  }

  /** The check constraint of the post table. */
  predicate Allowed(s: Shape) {
    || (s.postType == TransferPost && s.refs.player.Some? && s.refs.from.Some? && s.refs.to.Some? && s.refs.team.None?)
    || (s.postType == TeamPost && s.refs.team.Some? && s.refs.player.None? && s.refs.from.None? && s.refs.to.None?)
    || (s.postType == PlayerPost && s.refs.player.Some? && s.refs.team.None? && s.refs.from.None? && s.refs.to.None?)
    || s.refs == NO_REFS
  }

  /** An item is accepted exactly when some post type could store its references, and then none of them is lost. */
  lemma AcceptedIffStorable(refs: Refs)
    ensures ResolvePostShape(refs).Some? <==> exists t :: Allowed(Shape(t, refs))
    ensures ResolvePostShape(refs).Some? ==>
              Allowed(ResolvePostShape(refs).value) && ResolvePostShape(refs).value.refs == refs
  {
    assert Allowed(Shape(TransferPost, refs)) || Allowed(Shape(TeamPost, refs)) || Allowed(Shape(PlayerPost, refs)) <==>
           ResolvePostShape(refs).Some?;
  }

  /** What is not about nothing, one team, one player, or a player between two teams is refused. */
  lemma RefusedIff(refs: Refs)
    ensures ResolvePostShape(refs).None? <==>
            && refs != Refs(None, None, None, None)
            && (forall team :: refs != Refs(None, Some(team), None, None))
            && (forall player :: refs != Refs(Some(player), None, None, None))
            && (forall player, from, to :: refs != Refs(Some(player), None, Some(from), Some(to)))
  {
    assert refs == Refs(refs.player, refs.team, refs.from, refs.to);
    assert refs.team.Some? ==> refs.team == Some(refs.team.value);
    assert refs.player.Some? ==> refs.player == Some(refs.player.value);
    assert refs.from.Some? ==> refs.from == Some(refs.from.value);
    assert refs.to.Some? ==> refs.to == Some(refs.to.value);
  }

  function ResolveTarget(s: Shape, c: Category): Target {
    if s.postType == TeamPost || s.postType == PlayerPost then ToNews
    else match c case Rumour => ToRumour case Official => ToTransfer case Breaking => ToNone
  }

  predicate HasTriple(s: Shape) { s.refs.player.Some? && s.refs.from.Some? && s.refs.to.Some? }

  /** Where an item really goes: without the three references it stays in the feed. */
  function TargetOf(s: Shape, c: Category): Target {
    var t := ResolveTarget(s, c);
    if (t == ToRumour || t == ToTransfer) && !HasTriple(s) then ToNone else t
  }

  // ---------------------------------------------------------------- tables

  /** Rows are known by their position; a later position means a later creation time. */
  datatype Post = Post(source: Source, shape: Shape, present: bool)
  datatype Transfer = Transfer(player: Id, from: Id, to: Id, isRumour: bool, isDeleted: bool, source: Option<Source>)
  datatype Db = Db(posts: seq<Post>, transfers: seq<Transfer>, news: seq<Option<Source>>, outbox: seq<Id>)

  function FindPost(posts: seq<Post>, source: Source): Option<Id> {
    if posts == [] then None
    else
      var n := |posts| - 1;
      if posts[n].present && posts[n].source == source then Some(n) else FindPost(posts[..n], source)
  }

  lemma {:induction false} FoundPost(posts: seq<Post>, source: Source)
    ensures var f := FindPost(posts, source);
            && (f.Some? ==> f.value < |posts| && posts[f.value].present && posts[f.value].source == source)
            && (f.None? ==> forall i | 0 <= i < |posts| :: !(posts[i].present && posts[i].source == source))
  {
    if posts != [] { FoundPost(posts[..|posts| - 1], source); }
  }

  predicate IsOpen(t: Transfer, s: Shape)
    requires HasTriple(s)
  {
    ForTriple(t, s) && t.isRumour && !t.isDeleted
  }

  predicate ForTriple(t: Transfer, s: Shape)
    requires HasTriple(s)
  {
    t.player == s.refs.player.value && t.from == s.refs.from.value && t.to == s.refs.to.value
  }

  /** The latest open rumour for the triple. */
  function FindOpenRumour(transfers: seq<Transfer>, s: Shape): Option<Id>
    requires HasTriple(s)
  {
    if transfers == [] then None
    else
      var n := |transfers| - 1;
      if IsOpen(transfers[n], s) then Some(n) else FindOpenRumour(transfers[..n], s)
  }

  lemma {:induction false} FoundRumour(transfers: seq<Transfer>, s: Shape)
    requires HasTriple(s)
    ensures var f := FindOpenRumour(transfers, s);
            && (f.Some? ==> f.value < |transfers| && IsOpen(transfers[f.value], s) &&
                            forall i | f.value < i < |transfers| :: !IsOpen(transfers[i], s))
            && (f.None? ==> forall i | 0 <= i < |transfers| :: !IsOpen(transfers[i], s))
    ensures forall t :: IsOpen(t, s) <==>
              && Some(t.player) == s.refs.player && Some(t.from) == s.refs.from && Some(t.to) == s.refs.to
              && t.isRumour && !t.isDeleted
  {
    if transfers != [] { FoundRumour(transfers[..|transfers| - 1], s); }
  }

  predicate TransferSourceTaken(transfers: seq<Transfer>, source: Source) {
    exists i | 0 <= i < |transfers| :: transfers[i].source == Some(source)
  }

  // ---------------------------------------------------------------- one item

  datatype Reply =
    | Created(id: Id, target: Target, row: Option<Id>)
    | Duplicate(id: Id)
    | BadRequest
    | Missing
    | Conflict

  datatype Projection = Projection(db: Db, target: Target, row: Option<Id>)

  /** None is a unique violation; `open` is what the rumour lookup returned. */
  function Project(db: Db, item: Item, s: Shape, open: Option<Id>): Option<Projection>
    requires open.Some? ==> open.value < |db.transfers|
  {
    match TargetOf(s, item.category)
    case ToNone => Some(Projection(db, ToNone, None))
    case ToNews =>
      if Some(item.source) in db.news then None
      else Some(Projection(db.(news := db.news + [Some(item.source)]), ToNews, Some(|db.news|)))
    case ToRumour => CreateTransfer(db, item, s, true, ToRumour)
    case ToTransfer =>
      if open.Some? then
        Some(Projection(
               db.(transfers := db.transfers[open.value := db.transfers[open.value].(isRumour := false)],
                   outbox := db.outbox + [open.value]),
               ToTransfer, open))
      else CreateTransfer(db, item, s, false, ToTransfer)
  }

  function CreateTransfer(db: Db, item: Item, s: Shape, isRumour: bool, target: Target): Option<Projection>
    requires HasTriple(s)
  {
    if TransferSourceTaken(db.transfers, item.source) then None
    else
      var t := Transfer(s.refs.player.value, s.refs.from.value, s.refs.to.value, isRumour, false, Some(item.source));
      Some(Projection(db.(transfers := db.transfers + [t], outbox := db.outbox + [|db.transfers|]),
                      target, Some(|db.transfers|)))
  }

  /** What the rumour lookup returns now; it is made on a connection of its own, outside the call's transaction. */
  function OpenFor(db: Db, item: Item): (open: Option<Id>)
    ensures open.Some? ==> open.value < |db.transfers|
  {
    var s := ResolvePostShape(item.refs);
    if s.Some? && TargetOf(s.value, item.category) == ToTransfer then
      FoundRumour(db.transfers, s.value);
      FindOpenRumour(db.transfers, s.value)
    else None
  }

  /**
   * The rest of a call once its rumour lookup has returned `open`. `stale`: the first lookup ran before another call
   * stored the same item. `refsExist`: the players and teams the item names are in their tables.
   */
  function Ingest(db: Db, item: Item, stale: bool, refsExist: bool, open: Option<Id>): (Db, Reply)
    requires open.Some? ==> open.value < |db.transfers|
  {
    var existing := FindPost(db.posts, item.source);
    if existing.Some? && !stale then (db, Duplicate(existing.value))
    else
      match ResolvePostShape(item.refs)
      case None => (db, BadRequest)
      case Some(s) =>
        if existing.Some? then (db, Duplicate(existing.value))
        else if !refsExist && s.refs != NO_REFS then (db, Missing)
        else
          var stored := db.(posts := db.posts + [Post(item.source, s, true)]);
          match Project(stored, item, s, open)
          case None => (db, Conflict)
          case Some(p) => (p.db, Created(|db.posts|, p.target, p.row))
  }

  class IngestionService {
    var posts: seq<Post>
    var transfers: seq<Transfer>
    var news: seq<Option<Source>>
    var outbox: seq<Id>

    ghost function Now(): Db
      reads this
    {
      Db(posts, transfers, news, outbox)
    }

    /** `open` is what the rumour lookup has returned, from the tables as they were then. */
    method IngestPost(item: Item, stale: bool, refsExist: bool, open: Option<Id>) returns (r: Reply)
      requires open.Some? ==> open.value < |transfers|
      modifies this
      ensures (Now(), r) == Ingest(old(Now()), item, stale, refsExist, open)
    {
      var existing := FindPost(posts, item.source);
      if existing.Some? && !stale {
        return Duplicate(existing.value);
      }
      var shape := ResolvePostShape(item.refs);
      if shape.None? {
        return BadRequest;
      }
      if existing.Some? {
        return Duplicate(existing.value);
      }
      if !refsExist && shape.value.refs != NO_REFS {
        return Missing;
      }
      var savepoint := posts;
      posts := posts + [Post(item.source, shape.value, true)];
      var target, row, ok := ProjectItem(item, shape.value, open);
      if !ok {
        posts := savepoint;
        return Conflict;
      }
      return Created(|savepoint|, target, row);
    }

    method ProjectItem(item: Item, s: Shape, open: Option<Id>) returns (target: Target, row: Option<Id>, ok: bool)
      requires open.Some? ==> open.value < |transfers|
      modifies this
      ensures var p := Project(old(Now()), item, s, open);
              && (ok <==> p.Some?)
              && (ok ==> p.value == Projection(Now(), target, row))
              && (!ok ==> Now() == old(Now()))
    {
      target, row, ok := TargetOf(s, item.category), None, true;
      match target
      case ToNone =>
      case ToNews =>
        if Some(item.source) in news {
          return target, None, false;
        }
        row := Some(|news|);
        news := news + [Some(item.source)];
      case ToRumour =>
        row, ok := CreateRow(item, s, true);
      case ToTransfer =>
        if open.Some? {
          transfers := transfers[open.value := transfers[open.value].(isRumour := false)];
          outbox := outbox + [open.value];
          row := open;
        } else {
          row, ok := CreateRow(item, s, false);
        }
    }

    method CreateRow(item: Item, s: Shape, isRumour: bool) returns (row: Option<Id>, ok: bool)
      requires HasTriple(s)
      modifies `transfers, `outbox
      ensures ok <==> !TransferSourceTaken(old(transfers), item.source)
      ensures !ok ==> Now() == old(Now()) && row == None
      ensures ok ==> forall t :: CreateTransfer(old(Now()), item, s, isRumour, t) == Some(Projection(Now(), t, row))
    {
      if TransferSourceTaken(transfers, item.source) {
        return None, false;
      }
      row, ok := Some(|transfers|), true;
      outbox := outbox + [|transfers|];
      transfers := transfers +
        [Transfer(s.refs.player.value, s.refs.from.value, s.refs.to.value, isRumour, false, Some(item.source))];
    }
  }

  // ---------------------------------------------------------------- every run

  type Caller = nat

  /** A call between its rumour lookup and its commit. */
  datatype Looked = Looked(item: Item, open: Option<Id>)
  datatype State = State(db: Db, looks: map<Caller, Looked>)

  /** A call is its lookup and its commit; other writers create rumours, delete and confirm transfers, delete posts. */
  datatype Event =
    | Look(c: Caller, item: Item)
    | Take(c: Caller, stale: bool, refsExist: bool)
    | DeletePost(id: Id)
    | AddRumour(player: Id, from: Id, to: Id)
    | DeleteTransfer(id: Id)
    | Confirm(id: Id)

  predicate Enabled(s: State, e: Event) {
    match e
    case Look(c, _) => c !in s.looks
    case Take(c, _, _) => c in s.looks && (s.looks[c].open.Some? ==> s.looks[c].open.value < |s.db.transfers|)
    case DeletePost(id) => id < |s.db.posts|
    case DeleteTransfer(id) => id < |s.db.transfers|
    case Confirm(id) => id < |s.db.transfers|
    case _ => true
  }

  function Taken(s: State, e: Event): (Db, Reply)
    requires Enabled(s, e) && e.Take?
  {
    Ingest(s.db, s.looks[e.c].item, e.stale, e.refsExist, s.looks[e.c].open)
  }

  function Apply(s: State, e: Event): State
    requires Enabled(s, e)
  {
    var db := s.db;
    match e
    case Look(c, item) => s.(looks := s.looks[c := Looked(item, OpenFor(db, item))])
    case Take(c, _, _) => State(Taken(s, e).0, s.looks - {c})
    case DeletePost(id) => s.(db := db.(posts := db.posts[id := db.posts[id].(present := false)]))
    case AddRumour(p, f, t) => s.(db := db.(transfers := db.transfers + [Transfer(p, f, t, true, false, None)]))
    case DeleteTransfer(id) =>
      s.(db := db.(transfers := db.transfers[id := db.transfers[id].(isDeleted := true)]))
    case Confirm(id) => s.(db := db.(transfers := db.transfers[id := db.transfers[id].(isRumour := false)]))
  }

  function Exec(run: seq<Event>): Option<State> {
    if run == [] then Some(State(Db([], [], [], []), map[]))
    else
      var n := |run| - 1;
      var p := Exec(run[..n]);
      if p.Some? && Enabled(p.value, run[n]) then Some(Apply(p.value, run[n])) else None
  }

  /** At most one post per source, and only shapes the check constraint allows. */
  ghost predicate GoodPosts(posts: seq<Post>) {
    && (forall i, j | 0 <= i < j < |posts| && posts[i].present && posts[j].present ::
          posts[i].source != posts[j].source)
    && (forall i | 0 <= i < |posts| :: Allowed(posts[i].shape))
  }

  /** A call leaves the posts alone or appends one, for a source that no present post has. */
  lemma IngestPosts(db: Db, item: Item, stale: bool, refsExist: bool, open: Option<Id>)
    requires open.Some? ==> open.value < |db.transfers|
    ensures var posts := Ingest(db, item, stale, refsExist, open).0.posts;
            || posts == db.posts
            || (&& ResolvePostShape(item.refs).Some? && FindPost(db.posts, item.source).None?
                && posts == db.posts + [Post(item.source, ResolvePostShape(item.refs).value, true)])
  {
  }

  lemma StepKeepsPosts(s: State, e: Event)
    requires Enabled(s, e) && GoodPosts(s.db.posts)
    ensures GoodPosts(Apply(s, e).db.posts)
  {
    if e.Take? {
      var item := s.looks[e.c].item;
      IngestPosts(s.db, item, e.stale, e.refsExist, s.looks[e.c].open);
      FoundPost(s.db.posts, item.source);
      AcceptedIffStorable(item.refs);
    }
  }

  /** In every run, with whatever races between lookup and insert. */
  lemma {:induction false} OnePostPerSource(run: seq<Event>)
    requires Exec(run).Some?
    ensures GoodPosts(Exec(run).value.db.posts)
  {
    if run != [] {
      OnePostPerSource(run[..|run| - 1]);
      StepKeepsPosts(Exec(run[..|run| - 1]).value, run[|run| - 1]);
    }
  }

  /** The post stays where it is until it is deleted. */
  ghost predicate Stored(db: Db, id: Id, source: Source) {
    id < |db.posts| && db.posts[id].present && db.posts[id].source == source
  }

  lemma StaysStored(s: State, e: Event, id: Id, source: Source)
    requires Enabled(s, e) && Stored(s.db, id, source) && e != DeletePost(id)
    ensures Stored(Apply(s, e).db, id, source)
  {
    if e.Take? { IngestPosts(s.db, s.looks[e.c].item, e.stale, e.refsExist, s.looks[e.c].open); }
  }

  lemma {:induction false} StoredUntilDeleted(run: seq<Event>, k: nat, id: Id, source: Source)
    requires k <= |run| && Exec(run).Some? && Exec(run[..k]).Some? && Stored(Exec(run[..k]).value.db, id, source)
    requires forall i | k <= i < |run| :: run[i] != DeletePost(id)
    ensures Stored(Exec(run).value.db, id, source)
    decreases |run|
  {
    if k == |run| {
      assert run[..k] == run;
    } else {
      var n := |run| - 1;
      var before, e := run[..n], run[n];
      assert before[..k] == run[..k];
      assert Exec(before).Some? && Enabled(Exec(before).value, e) && Exec(run).value == Apply(Exec(before).value, e);
      StoredUntilDeleted(before, k, id, source);
      StaysStored(Exec(before).value, e, id, source);
    }
  }

  /** Main result. Once an item is stored, every repeat answers with the first id and writes nothing. */
  lemma RepeatAnswersFirstId(run: seq<Event>, k: nat, id: Id, item: Item, stale: bool, refsExist: bool,
                             open: Option<Id>)
    requires k <= |run| && Exec(run).Some? && Exec(run[..k]).Some?
    requires Stored(Exec(run[..k]).value.db, id, item.source)
    requires forall i | k <= i < |run| :: run[i] != DeletePost(id)
    requires open.Some? ==> open.value < |Exec(run).value.db.transfers|
    ensures var (db, reply) := Ingest(Exec(run).value.db, item, stale, refsExist, open);
            && db == Exec(run).value.db
            && (reply == Duplicate(id) || (stale && reply == BadRequest && ResolvePostShape(item.refs).None?))
  {
    StoredUntilDeleted(run, k, id, item.source);
    OnePostPerSource(run);
    FoundPost(Exec(run).value.db.posts, item.source);
  }

  // ---------------------------------------------------------------- what a lookup is worth later

  /** A row that a lookup has found is still there, and of the same player and teams. */
  ghost predicate LookOk(db: Db, look: Looked) {
    look.open.Some? ==>
      var s := ResolvePostShape(look.item.refs);
      && s.Some? && HasTriple(s.value)
      && look.open.value < |db.transfers| && ForTriple(db.transfers[look.open.value], s.value)
  }

  lemma LookStep(s: State, e: Event, look: Looked)
    requires Enabled(s, e) && LookOk(s.db, look)
    ensures LookOk(Apply(s, e).db, look)
  {
    if e.Take? { TransfersGrow(s.db, s.looks[e.c].item, e.stale, e.refsExist, s.looks[e.c].open); }
  }

  lemma TransfersGrow(db: Db, item: Item, stale: bool, refsExist: bool, open: Option<Id>)
    requires open.Some? ==> open.value < |db.transfers|
    ensures var after := Ingest(db, item, stale, refsExist, open).0.transfers;
            && |db.transfers| <= |after|
            && forall i | 0 <= i < |db.transfers| ::
                 after[i] == db.transfers[i] || after[i] == db.transfers[i].(isRumour := false)
  {
  }

  /** In every run, so that a commit never lacks the row its lookup found. */
  lemma {:induction false} LooksStayGood(run: seq<Event>)
    requires Exec(run).Some?
    ensures var s := Exec(run).value; forall c | c in s.looks :: LookOk(s.db, s.looks[c])
  {
    if run != [] {
      var n := |run| - 1;
      var s, e := Exec(run[..n]).value, run[n];
      LooksStayGood(run[..n]);
      if e.Look? { FreshLookIsOk(s.db, e.item); }
      forall c | c in Apply(s, e).looks ensures LookOk(Apply(s, e).db, Apply(s, e).looks[c]) {
        if c in s.looks { LookStep(s, e, s.looks[c]); }
      }
    }
  }

  lemma FreshLookIsOk(db: Db, item: Item)
    ensures LookOk(db, Looked(item, OpenFor(db, item)))
    ensures OpenFor(db, item).Some? ==> db.transfers[OpenFor(db, item).value].isRumour
  {
    var s := ResolvePostShape(item.refs);
    if OpenFor(db, item).Some? { FoundRumour(db.transfers, s.value); }
  }

  /** The item is new, storable, and about a transfer: the commit goes by the rumour lookup. */
  predicate UsesTheLook(db: Db, item: Item, refsExist: bool) {
    && FindPost(db.posts, item.source).None?
    && ResolvePostShape(item.refs).Some? && (refsExist || item.refs == NO_REFS)
    && TargetOf(ResolvePostShape(item.refs).value, item.category) == ToTransfer
  }

  /** A commit differs from that of a call that looks only now exactly when it goes by another lookup result. */
  lemma StaleLookupMatters(db: Db, item: Item, stale: bool, refsExist: bool, open: Option<Id>)
    requires open.Some? ==> open.value < |db.transfers|
    ensures Ingest(db, item, stale, refsExist, open) != Ingest(db, item, stale, refsExist, OpenFor(db, item)) <==>
            UsesTheLook(db, item, refsExist) && open != OpenFor(db, item)
  {
    AcceptedIffStorable(item.refs);
  }

  // ---------------------------------------------------------------- projection

  /**
   * Main result, for whatever the lookup has returned. A call either leaves transfers and messages alone, or adds one
   * row or turns the row it had found into a transfer, and commits exactly one message, for that row; the reply says
   * which. The found row changes exactly when it is still a rumour; deleted meanwhile, it stays deleted.
   */
  lemma ProjectionCarriesOneMessage(db: Db, item: Item, stale: bool, refsExist: bool, open: Option<Id>)
    requires LookOk(db, Looked(item, open))
    ensures var (after, r) := Ingest(db, item, stale, refsExist, open);
            if Transfers(r) then
              && r.row.Some? && after.outbox == db.outbox + [r.row.value]
              && (|| (&& r.row.value == |db.transfers| && |after.transfers| == |db.transfers| + 1
                      && db.transfers <= after.transfers)
                  || (&& r.target == ToTransfer && r.row == open
                      && after.transfers == db.transfers[open.value := db.transfers[open.value].(isRumour := false)]
                      && (after.transfers == db.transfers <==> !db.transfers[open.value].isRumour)))
            else after.transfers == db.transfers && after.outbox == db.outbox
  {
  }

  /** Only a created post changes the tables; a refusal of any kind, a late one included, leaves them as they were. */
  lemma RefusalWritesNothing(db: Db, item: Item, stale: bool, refsExist: bool, open: Option<Id>)
    requires open.Some? ==> open.value < |db.transfers|
    ensures var (after, r) := Ingest(db, item, stale, refsExist, open);
            && (!r.Created? ==> after == db)
            && (r.Created? ==>
                  && r.id == |db.posts| && after.posts == db.posts + [after.posts[r.id]]
                  && after.posts[r.id].present && after.posts[r.id].source == item.source
                  && after.posts[r.id].shape.refs == item.refs)
  {
    AcceptedIffStorable(item.refs);
  }

  /** A new, acceptable item misses a player or team exactly when it names one that is not there. */
  lemma MissingIff(db: Db, item: Item, stale: bool, refsExist: bool, open: Option<Id>)
    requires open.Some? ==> open.value < |db.transfers|
    requires FindPost(db.posts, item.source).None? && ResolvePostShape(item.refs).Some?
    ensures Ingest(db, item, stale, refsExist, open).1 == Missing <==>
            !refsExist && item.refs != Refs(None, None, None, None)
  {
    AcceptedIffStorable(item.refs);
  }

  /** No post has the item's source, and no transfer either. */
  ghost predicate Unknown(db: Db, source: Source) {
    && (forall i | 0 <= i < |db.posts| :: !(db.posts[i].present && db.posts[i].source == source))
    && (forall i | 0 <= i < |db.transfers| :: db.transfers[i].source != Some(source))
  }

  /** The tables with one more post. */
  function WithPost(db: Db, item: Item, postType: PostType): Db {
    db.(posts := db.posts + [Post(item.source, Shape(postType, item.refs), true)])
  }

  /** The tables with one more post, transfer and message. */
  function WithTransfer(db: Db, item: Item, t: Transfer): Db {
    WithPost(db, item, TransferPost).(transfers := db.transfers + [t], outbox := db.outbox + [|db.transfers|])
  }

  /** Main result: a rumour item about a player and two teams adds an open rumour, whatever was looked up. */
  lemma RumourItemAddsARumour(db: Db, item: Item, stale: bool, open: Option<Id>, player: Id, from: Id, to: Id)
    requires item.category == Rumour && item.refs == Refs(Some(player), None, Some(from), Some(to))
    requires Unknown(db, item.source) && (open.Some? ==> open.value < |db.transfers|)
    ensures var (after, r) := Ingest(db, item, stale, true, open);
            && r == Created(|db.posts|, ToRumour, Some(|db.transfers|))
            && after == WithTransfer(db, item, Transfer(player, from, to, true, false, Some(item.source)))
  {
    FoundPost(db.posts, item.source);
  }

  /** An official item that found no open rumour adds the same row as a done transfer. */
  lemma OfficialItemAddsATransfer(db: Db, item: Item, stale: bool, player: Id, from: Id, to: Id)
    requires item.category == Official && item.refs == Refs(Some(player), None, Some(from), Some(to))
    requires Unknown(db, item.source)
    ensures var (after, r) := Ingest(db, item, stale, true, None);
            && r == Created(|db.posts|, ToTransfer, Some(|db.transfers|))
            && after == WithTransfer(db, item, Transfer(player, from, to, false, false, Some(item.source)))
  {
    FoundPost(db.posts, item.source);
  }

  /** An item about one team or one player adds one news row, in every category. */
  lemma TeamOrPlayerItemAddsNews(db: Db, item: Item, stale: bool, open: Option<Id>, id: Id)
    requires item.refs == Refs(None, Some(id), None, None) || item.refs == Refs(Some(id), None, None, None)
    requires Unknown(db, item.source) && Some(item.source) !in db.news
    requires open.Some? ==> open.value < |db.transfers|
    ensures var (after, r) := Ingest(db, item, stale, true, open);
            && r == Created(|db.posts|, ToNews, Some(|db.news|))
            && after == WithPost(db, item, if item.refs.team.Some? then TeamPost else PlayerPost).(
                          news := db.news + [Some(item.source)])
  {
    FoundPost(db.posts, item.source);
  }

  /** A breaking item about a transfer, or an item about nothing, is only posted. */
  lemma OtherItemIsOnlyPosted(db: Db, item: Item, stale: bool, open: Option<Id>)
    requires || item.refs == Refs(None, None, None, None)
             || (&& item.category == Breaking && item.refs.team.None?
                 && item.refs.player.Some? && item.refs.from.Some? && item.refs.to.Some?)
    requires Unknown(db, item.source) && (open.Some? ==> open.value < |db.transfers|)
    ensures Ingest(db, item, stale, true, open) ==
            (WithPost(db, item, TransferPost), Created(|db.posts|, ToNone, None))
  {
    FoundPost(db.posts, item.source);
  }

  predicate Transfers(r: Reply) { r.Created? && (r.target == ToRumour || r.target == ToTransfer) }

  /** The number of messages for one row. */
  function Count(outbox: seq<Id>, row: Id): nat {
    if outbox == [] then 0
    else Count(outbox[..|outbox| - 1], row) + if outbox[|outbox| - 1] == row then 1 else 0
  }

  /** The calls of a run that made or confirmed this row. */
  function Projected(run: seq<Event>, row: Id): nat {
    if run == [] then 0
    else
      var n := |run| - 1;
      var s := Exec(run[..n]);
      Projected(run[..n], row) +
      if s.Some? && run[n].Take? && Enabled(s.value, run[n]) && Names(Taken(s.value, run[n]).1, row) then 1 else 0
  }

  predicate Names(r: Reply, row: Id) { Transfers(r) && r.row == Some(row) }

  lemma CountAppend(outbox: seq<Id>, id: Id, row: Id)
    ensures Count(outbox + [id], row) == Count(outbox, row) + if id == row then 1 else 0
  {
    assert (outbox + [id])[..|outbox|] == outbox;
  }

  /** Over a run the messages for a row are the calls that made or confirmed it. */
  lemma {:induction false} MessagesCountProjections(run: seq<Event>, row: Id)
    requires Exec(run).Some?
    ensures Count(Exec(run).value.db.outbox, row) == Projected(run, row)
  {
    if run != [] {
      var n := |run| - 1;
      MessagesCountProjections(run[..n], row);
      if run[n].Take? {
        var s, e := Exec(run[..n]).value, run[n];
        LooksStayGood(run[..n]);
        ProjectionCarriesOneMessage(s.db, s.looks[e.c].item, e.stale, e.refsExist, s.looks[e.c].open);
        var r := Taken(s, e).1;
        if Transfers(r) { CountAppend(s.db.outbox, r.row.value, row); }
      }
    }
  }

  // ---------------------------------------------------------------- confirmations

  /** The commit at e confirms a row that was there before. */
  predicate Confirms(s: State, e: Event, row: Id) {
    && Enabled(s, e) && e.Take? && row < |s.db.transfers| && Names(Taken(s, e).1, row)
  }

  /** The confirmations of one row, and those that found it confirmed already. */
  datatype Tally = Tally(all: nat, late: nat)

  function Confirmations(run: seq<Event>, row: Id): Tally {
    if run == [] then Tally(0, 0)
    else
      var n := |run| - 1;
      var s := Exec(run[..n]);
      var t := Confirmations(run[..n], row);
      if s.Some? && Confirms(s.value, run[n], row) then
        Tally(t.all + 1, if s.value.db.transfers[row].isRumour then t.late else t.late + 1)
      else t
  }

  ghost predicate Confirmed(db: Db, row: Id) { row < |db.transfers| && !db.transfers[row].isRumour }

  lemma StaysConfirmed(s: State, e: Event, row: Id)
    requires Enabled(s, e) && (e.Take? ==> LookOk(s.db, s.looks[e.c]))
    requires Confirmed(s.db, row) || Confirms(s, e, row)
    ensures Confirmed(Apply(s, e).db, row)
  {
    if e.Take? {
      TransfersGrow(s.db, s.looks[e.c].item, e.stale, e.refsExist, s.looks[e.c].open);
      ProjectionCarriesOneMessage(s.db, s.looks[e.c].item, e.stale, e.refsExist, s.looks[e.c].open);
    }
  }

  /** Main result: in every run at most one call confirms a rumour; every further confirmation went by a late lookup. */
  lemma {:induction false} OneConfirmationPlusLate(run: seq<Event>, row: Id)
    requires Exec(run).Some?
    ensures var t := Confirmations(run, row);
            t.late <= t.all <= t.late + if Confirmed(Exec(run).value.db, row) then 1 else 0
  {
    if run != [] {
      var n := |run| - 1;
      var s, e := Exec(run[..n]).value, run[n];
      OneConfirmationPlusLate(run[..n], row);
      LooksStayGood(run[..n]);
      if Confirmed(s.db, row) || Confirms(s, e, row) { StaysConfirmed(s, e, row); }
    }
  }

  /** Every commit directly follows its own lookup. */
  ghost predicate Atomic(run: seq<Event>) {
    forall i | 0 <= i < |run| && run[i].Take? :: i > 0 && run[i - 1].Look? && run[i - 1].c == run[i].c
  }

  /** With lookup and commit back to back no confirmation is late, so each row is confirmed at most once. */
  lemma {:induction false} AtomicConfirmsOnce(run: seq<Event>, row: Id)
    requires Exec(run).Some? && Atomic(run)
    ensures Confirmations(run, row).late == 0 && Confirmations(run, row).all <= 1
  {
    OneConfirmationPlusLate(run, row);
    if run != [] {
      var n := |run| - 1;
      AtomicConfirmsOnce(run[..n], row);
      if run[n].Take? {
        var r := run[..n];
        assert r[..n - 1] == run[..n - 1] && r[n - 1] == run[n - 1];
        var s := Exec(r[..n - 1]).value;
        FreshLookIsOk(s.db, r[n - 1].item);
      }
    }
  }

  // ---------------------------------------------------------------- official items

  /** A new official item about a player and two teams. */
  predicate OfficialItem(db: Db, item: Item, s: Shape) {
    && FindPost(db.posts, item.source).None? && item.category == Official
    && ResolvePostShape(item.refs) == Some(s) && HasTriple(s)
  }

  /** Main result. A new official item converts the latest open rumour for its triple and adds no row. */
  lemma OfficialConvertsTheOpenRumour(db: Db, item: Item, s: Shape, stale: bool, open: Id)
    requires OfficialItem(db, item, s)
    requires open < |db.transfers| && IsOpen(db.transfers[open], s)
    requires forall i | open < i < |db.transfers| :: !IsOpen(db.transfers[i], s)
    ensures var (after, r) := Ingest(db, item, stale, true, OpenFor(db, item));
            && r == Created(|db.posts|, ToTransfer, Some(open))
            && after.transfers == db.transfers[open := db.transfers[open].(isRumour := false)]
            && after.outbox == db.outbox + [open]
  {
    FoundRumour(db.transfers, s);
  }

  /** The first of two calls leaves the second item new. */
  lemma StillOfficial(db: Db, one: Item, two: Item, s: Shape, open: Option<Id>)
    requires OfficialItem(db, one, s) && OfficialItem(db, two, s) && one.source != two.source
    requires open.Some? ==> open.value < |db.transfers|
    ensures OfficialItem(Ingest(db, one, false, true, open).0, two, s)
  {
    IngestPosts(db, one, false, true, open);
    var after := Ingest(db, one, false, true, open).0.posts;
    assert |after| > |db.posts| ==> after[..|db.posts|] == db.posts;
  }

  /**
   * Main result. Two official items for one triple that both looked before either wrote: if they found a rumour, it
   * becomes one transfer with two messages; if not, they add two rows.
   */
  lemma OfficialsAtOnce(db: Db, one: Item, two: Item, s: Shape)
    requires OfficialItem(db, one, s) && OfficialItem(db, two, s) && one.source != two.source
    requires !TransferSourceTaken(db.transfers, one.source) && !TransferSourceTaken(db.transfers, two.source)
    ensures var open := OpenFor(db, one);
            var mid := Ingest(db, one, false, true, open).0;
            && open == OpenFor(db, two) && |db.transfers| <= |mid.transfers|
            && var after := Ingest(mid, two, false, true, open).0;
               if open.Some? then
                 && after.transfers == db.transfers[open.value := db.transfers[open.value].(isRumour := false)]
                 && after.outbox == db.outbox + [open.value] + [open.value]
               else
                 && |after.transfers| == |db.transfers| + 2
                 && after.outbox == db.outbox + [|db.transfers|] + [|db.transfers| + 1]
  {
    var open := OpenFor(db, one);
    StillOfficial(db, one, two, s, open);
    if open.None? { NewRowKeepsSource(db, one, two.source, s); }
  }

  lemma NewRowKeepsSource(db: Db, item: Item, source: Source, s: Shape)
    requires OfficialItem(db, item, s) && item.source != source
    requires !TransferSourceTaken(db.transfers, item.source) && !TransferSourceTaken(db.transfers, source)
    ensures !TransferSourceTaken(Ingest(db, item, false, true, None).0.transfers, source)
    ensures |Ingest(db, item, false, true, None).0.transfers| == |db.transfers| + 1
  {
    var after := Ingest(db, item, false, true, None).0.transfers;
    forall i | 0 <= i < |after| ensures after[i].source != Some(source) {
      assert i < |db.transfers| ==> after[i] == db.transfers[i];
    }
  }

  /** In turn, the second never goes to the rumour that the first has confirmed, and the rest is the same. */
  lemma OfficialsInTurn(db: Db, one: Item, two: Item, s: Shape)
    requires OfficialItem(db, one, s) && OfficialItem(db, two, s) && one.source != two.source
    requires !TransferSourceTaken(db.transfers, one.source) && !TransferSourceTaken(db.transfers, two.source)
    ensures var open := OpenFor(db, one);
            var mid := Ingest(db, one, false, true, open).0;
            var atOnce := Ingest(mid, two, false, true, open);
            var inTurn := Ingest(mid, two, false, true, OpenFor(mid, two));
            && (open.Some? ==> OpenFor(mid, two) != open)
            && (atOnce != inTurn <==> open.Some?)
  {
    var open := OpenFor(db, one);
    var mid := Ingest(db, one, false, true, open).0;
    StillOfficial(db, one, two, s, open);
    StaleLookupMatters(mid, two, false, true, open);
    FoundRumour(db.transfers, s);
    FoundRumour(mid.transfers, s);
    if open.None? {
      NewRowKeepsSource(db, one, two.source, s);
      forall i | 0 <= i < |mid.transfers| ensures !IsOpen(mid.transfers[i], s) {
        assert i < |db.transfers| ==> mid.transfers[i] == db.transfers[i];
      }
    }
  }

  /**
   * Deleting a post frees its source for the posts but not for the rows it was projected to: the item is refused
   * for good exactly when its projection would have to create a row whose source is taken.
   */
  lemma ReingestAfterDelete(db: Db, item: Item, stale: bool, open: Option<Id>)
    requires FindPost(db.posts, item.source).None? && ResolvePostShape(item.refs).Some?
    requires open.Some? ==> open.value < |db.transfers|
    ensures var target := TargetOf(ResolvePostShape(item.refs).value, item.category);
            Ingest(db, item, stale, true, open).1 == Conflict <==>
              || (target == ToNews && Some(item.source) in db.news)
              || (target == ToRumour && TransferSourceTaken(db.transfers, item.source))
              || (target == ToTransfer && open.None? && TransferSourceTaken(db.transfers, item.source))
  {
  }
}
