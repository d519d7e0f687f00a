/**
 * Refresh tokens: issue, rotate, revoke and revoke-all over the token table. A token stands for its own hash.
 *
 * A rotation is three statements with an await between any two: Check reads the row, Insert issues the new token,
 * Link revokes the old row by its id. Other calls may come in between.
 */
module RefreshTokens {
  import opened Wrappers

  type Token = nat
  type User = nat
  type Worker = nat

  /** `born` counts the rows created before; it is not in the table. */
  datatype Row = Row(user: User, expiresAt: int, revoked: bool, replacedBy: Option<Token>, born: nat)
  type Table = map<Token, Row>

  datatype Rotation = Checked(raw: Token) | Inserted(raw: Token, token: Token)
  datatype State = State(rows: Table, rotating: map<Worker, Rotation>)

  datatype Event =
    | Issue(user: User, token: Token, now: int)
    | Check(w: Worker, raw: Token, now: int)
    | Insert(w: Worker, token: Token, now: int)
    | Link(w: Worker)
    | Stop(w: Worker)
    | Revoke(raw: Token)
    | RevokeAll(user: User)

  /** Random tokens are new every time. */
  predicate Enabled(s: State, e: Event) {
    match e
    case Issue(_, token, _) => token !in s.rows
    case Check(w, _, _) => w !in s.rotating
    case Insert(w, token, _) =>
      w in s.rotating && s.rotating[w].Checked? && s.rotating[w].raw in s.rows && token !in s.rows
    case Link(w) => w in s.rotating && s.rotating[w].Inserted? && s.rotating[w].raw in s.rows
    case Stop(w) => w in s.rotating
    case Revoke(_) => true
    case RevokeAll(_) => true
  }

  predicate Accepts(rows: Table, raw: Token, now: int) {
    raw in rows && !rows[raw].revoked && now < rows[raw].expiresAt
  }

  function Issued(life: nat, rows: Table, user: User, token: Token, now: int): Table {
    rows[token := Row(user, now + life, false, None, |rows|)]
  }

  function Linked(rows: Table, raw: Token, token: Token): Table
    requires raw in rows
  {
    rows[raw := rows[raw].(revoked := true, replacedBy := Some(token))]
  }

  function Revoked(rows: Table, raw: Token): Table {
    if raw in rows && !rows[raw].revoked then rows[raw := rows[raw].(revoked := true)] else rows
  }

  function AllRevoked(rows: Table, user: User): Table {
    map t | t in rows :: if rows[t].user == user && !rows[t].revoked then rows[t].(revoked := true) else rows[t]
  }

  function Apply(life: nat, s: State, e: Event): State
    requires Enabled(s, e)
  {
    match e
    case Issue(user, token, now) => s.(rows := Issued(life, s.rows, user, token, now))
    case Check(w, raw, now) => if Accepts(s.rows, raw, now) then s.(rotating := s.rotating[w := Checked(raw)]) else s
    case Insert(w, token, now) =>
      var raw := s.rotating[w].raw;
      State(Issued(life, s.rows, s.rows[raw].user, token, now), s.rotating[w := Inserted(raw, token)])
    case Link(w) => State(Linked(s.rows, s.rotating[w].raw, s.rotating[w].token), s.rotating - {w})
    case Stop(w) => s.(rotating := s.rotating - {w})
    case Revoke(raw) => s.(rows := Revoked(s.rows, raw))
    case RevokeAll(user) => s.(rows := AllRevoked(s.rows, user))
  }

  function Exec(life: nat, run: seq<Event>): Option<State> {
    if run == [] then Some(State(map[], map[]))
    else
      var n := |run| - 1;
      var p := Exec(life, run[..n]);
      if p.Some? && Enabled(p.value, run[n]) then Some(Apply(life, p.value, run[n])) else None
  }

  // ---------------------------------------------------------------- the service

  /** A rotation that nothing comes between. */
  function Rotated(life: nat, rows: Table, raw: Token, token: Token, now: int): Table {
    if Accepts(rows, raw, now) then Linked(Issued(life, rows, rows[raw].user, token, now), raw, token) else rows
  }

  class TokenService {
    const life: nat
    var rows: Table

    method IssueRefreshToken(user: User, raw: Token, now: int)
      requires raw !in rows
      modifies this
      ensures rows == Issued(life, old(rows), user, raw, now)
      ensures rows == old(rows)[raw := Row(user, now + life, false, None, |old(rows)|)]
    {
      rows := rows[raw := Row(user, now + life, false, None, |rows|)];
    }

    /** None is the 401 answer. */
    method RotateRefreshToken(raw: Token, replacement: Token, now: int) returns (r: Option<(Token, User)>)
      requires replacement !in rows
      modifies this
      ensures rows == Rotated(life, old(rows), raw, replacement, now)
      ensures r.Some? <==> raw in old(rows) && !old(rows)[raw].revoked && now < old(rows)[raw].expiresAt
      ensures r.None? ==> rows == old(rows)
      ensures r.Some? ==>
                var before := old(rows)[raw];
                && r.value == (replacement, before.user)
                && rows == old(rows)[replacement := Row(before.user, now + life, false, None, |old(rows)|)]
                             [raw := Row(before.user, before.expiresAt, true, Some(replacement), before.born)]
    {
      if raw !in rows || rows[raw].revoked || rows[raw].expiresAt <= now {
        return None;
      }
      var existing := rows[raw];
      IssueRefreshToken(existing.user, replacement, now);
      rows := rows[raw := existing.(revoked := true, replacedBy := Some(replacement))];
      return Some((replacement, existing.user));
    }

    method RevokeRefreshToken(raw: Token)
      modifies this
      ensures rows == Revoked(old(rows), raw)
      ensures raw !in old(rows) ==> rows == old(rows)
      ensures raw in old(rows) ==> rows == old(rows)[raw := old(rows)[raw].(revoked := true)]
      ensures raw in rows ==> rows[raw].revoked
    {
      if raw in rows && !rows[raw].revoked {
        rows := rows[raw := rows[raw].(revoked := true)];
      }
    }

    method RevokeAllForUser(user: User)
      modifies this
      ensures rows == AllRevoked(old(rows), user)
      ensures rows.Keys == old(rows).Keys
      ensures forall t | t in rows ::
                rows[t] == if old(rows)[t].user == user then old(rows)[t].(revoked := true) else old(rows)[t]
    {
      rows := map t | t in rows ::
        if rows[t].user == user && !rows[t].revoked then rows[t].(revoked := true) else rows[t];
    }
  }

  /** The undisturbed call is the three events of one worker back to back. */
  lemma RotationIsThreeEvents(life: nat, s: State, w: Worker, raw: Token, token: Token, now: int)
    requires w !in s.rotating && Accepts(s.rows, raw, now) && token !in s.rows
    ensures var one := Apply(life, s, Check(w, raw, now));
            Enabled(one, Insert(w, token, now)) &&
            var two := Apply(life, one, Insert(w, token, now));
            Enabled(two, Link(w)) && Apply(life, two, Link(w)) == s.(rows := Rotated(life, s.rows, raw, token, now))
  {
    assert s.rotating[w := Checked(raw)][w := Inserted(raw, token)] - {w} == s.rotating;
  }

  // ---------------------------------------------------------------- chains

  /** A link goes from a revoked token to a later one of the same user. */
  ghost predicate LinkOk(rows: Table, t: Token)
    requires t in rows
  {
    rows[t].replacedBy.Some? ==>
      var next := rows[t].replacedBy.value;
      next in rows && rows[t].revoked && rows[t].born < rows[next].born && rows[next].user == rows[t].user
  }

  /** No two tokens are replaced by the same one. */
  ghost predicate OneToOne(rows: Table) {
    forall t, u | t in rows && u in rows && t != u && rows[t].replacedBy.Some? ::
      rows[t].replacedBy != rows[u].replacedBy
  }

  ghost predicate Chained(rows: Table) {
    (forall t | t in rows :: rows[t].born < |rows| && LinkOk(rows, t)) && OneToOne(rows)
  }

  ghost predicate Unlinked(rows: Table, token: Token) { forall t | t in rows :: rows[t].replacedBy != Some(token) }

  /** A rotation in progress can still be linked: the new token is later, of the same user, and nobody's yet. */
  ghost predicate RotationOk(rows: Table, r: Rotation) {
    && r.raw in rows
    && (r.Inserted? ==>
          && r.token in rows && rows[r.raw].born < rows[r.token].born && rows[r.raw].user == rows[r.token].user
          && Unlinked(rows, r.token))
  }

  ghost predicate OwnTokens(rotating: map<Worker, Rotation>) {
    forall v, w | v in rotating && w in rotating && v != w && rotating[v].Inserted? && rotating[w].Inserted? ::
      rotating[v].token != rotating[w].token
  }

  ghost predicate Inv(s: State) {
    Chained(s.rows) && OwnTokens(s.rotating) && forall w | w in s.rotating :: RotationOk(s.rows, s.rotating[w])
  }

  lemma GrowsByOne(rows: Table, token: Token, row: Row)
    requires token !in rows
    ensures |rows[token := row]| == |rows| + 1
  {
  }

  lemma IssueKeepsChains(life: nat, rows: Table, user: User, token: Token, now: int)
    requires Chained(rows) && token !in rows
    ensures Chained(Issued(life, rows, user, token, now)) && Unlinked(Issued(life, rows, user, token, now), token)
  {
    var after := Issued(life, rows, user, token, now);
    GrowsByOne(rows, token, after[token]);
    forall t | t in after ensures LinkOk(after, t) && after[t].replacedBy != Some(token) {
      if t in rows { assert LinkOk(rows, t); }
    }
  }

  lemma IssueKeepsRotation(life: nat, rows: Table, user: User, token: Token, now: int, r: Rotation)
    requires Chained(rows) && token !in rows && RotationOk(rows, r)
    ensures RotationOk(Issued(life, rows, user, token, now), r)
  {
  }

  lemma SameKeysSameSize(rows: Table, after: Table)
    requires after.Keys == rows.Keys
    ensures |after| == |rows|
  {
    assert |after| == |after.Keys| && |rows| == |rows.Keys|;
  }

  lemma LinkKeepsChains(rows: Table, r: Rotation)
    requires Chained(rows) && r.Inserted? && RotationOk(rows, r)
    ensures Chained(Linked(rows, r.raw, r.token))
  {
    var after := Linked(rows, r.raw, r.token);
    SameKeysSameSize(rows, after);
    forall t | t in after ensures LinkOk(after, t) {
      assert LinkOk(rows, t);
    }
  }

  lemma LinkKeepsRotation(rows: Table, r: Rotation, other: Rotation)
    requires r.Inserted? && RotationOk(rows, r) && RotationOk(rows, other)
    requires other.Inserted? ==> other.token != r.token
    ensures RotationOk(Linked(rows, r.raw, r.token), other)
  {
  }

  /** A table that only revokes rows. */
  ghost predicate OnlyRevokes(rows: Table, after: Table) {
    && after.Keys == rows.Keys
    && forall t | t in rows :: after[t] == rows[t] || after[t] == rows[t].(revoked := true)
  }

  lemma RevokingKeepsInv(s: State, after: Table)
    requires Inv(s) && OnlyRevokes(s.rows, after)
    ensures Inv(s.(rows := after))
  {
    SameKeysSameSize(s.rows, after);
    forall t | t in after ensures LinkOk(after, t) { assert LinkOk(s.rows, t); }
    forall w | w in s.rotating ensures RotationOk(after, s.rotating[w]) { assert RotationOk(s.rows, s.rotating[w]); }
  }

  lemma IssueKeepsInv(life: nat, s: State, user: User, token: Token, now: int)
    requires Inv(s) && token !in s.rows
    ensures Inv(s.(rows := Issued(life, s.rows, user, token, now)))
  {
    IssueKeepsChains(life, s.rows, user, token, now);
    forall w | w in s.rotating ensures RotationOk(Issued(life, s.rows, user, token, now), s.rotating[w]) {
      IssueKeepsRotation(life, s.rows, user, token, now, s.rotating[w]);
    }
  }

  lemma InsertKeepsInv(life: nat, s: State, w: Worker, token: Token, now: int)
    requires Inv(s) && Enabled(s, Insert(w, token, now))
    ensures Inv(Apply(life, s, Insert(w, token, now)))
  {
    var raw := s.rotating[w].raw;
    IssueKeepsInv(life, s, s.rows[raw].user, token, now);
    IssueKeepsChains(life, s.rows, s.rows[raw].user, token, now);
    assert forall v | v in s.rotating :: RotationOk(s.rows, s.rotating[v]);
  }

  lemma LinkKeepsInv(life: nat, s: State, w: Worker)
    requires Inv(s) && Enabled(s, Link(w))
    ensures Inv(Apply(life, s, Link(w)))
  {
    LinkKeepsChains(s.rows, s.rotating[w]);
    forall v | v in s.rotating && v != w
      ensures RotationOk(Linked(s.rows, s.rotating[w].raw, s.rotating[w].token), s.rotating[v])
    {
      LinkKeepsRotation(s.rows, s.rotating[w], s.rotating[v]);
    }
  }

  lemma InvStep(life: nat, s: State, e: Event)
    requires Inv(s) && Enabled(s, e)
    ensures Inv(Apply(life, s, e))
  {
    match e
    case Issue(user, token, now) => IssueKeepsInv(life, s, user, token, now);
    case Check(_, _, _) =>
    case Insert(w, token, now) => InsertKeepsInv(life, s, w, token, now);
    case Link(w) => LinkKeepsInv(life, s, w);
    case Stop(_) =>
    case Revoke(raw) => RevokingKeepsInv(s, Revoked(s.rows, raw));
    case RevokeAll(user) => RevokingKeepsInv(s, AllRevoked(s.rows, user));
  }

  lemma {:induction false} InvRun(life: nat, run: seq<Event>)
    requires Exec(life, run).Some?
    ensures Inv(Exec(life, run).value)
  {
    if run != [] {
      var n := |run| - 1;
      InvRun(life, run[..n]);
      InvStep(life, Exec(life, run[..n]).value, run[n]);
    }
  }

  /** How many links lead from a token to the end of its chain; links never form a cycle. */
  ghost function Distance(rows: Table, t: Token): nat
    requires Chained(rows) && t in rows
    decreases |rows| - rows[t].born
  {
    if rows[t].replacedBy.None? then 0
    else
      assert LinkOk(rows, t);
      Distance(rows, rows[t].replacedBy.value) + 1
  }

  ghost function Follow(rows: Table, t: Token, k: nat): Token
    requires Chained(rows) && t in rows && k <= Distance(rows, t)
    ensures Follow(rows, t, k) in rows
    decreases k
  {
    if k == 0 then t
    else
      assert LinkOk(rows, t);
      Follow(rows, rows[t].replacedBy.value, k - 1)
  }

  ghost function Last(rows: Table, t: Token): Token
    requires Chained(rows) && t in rows
  {
    Follow(rows, t, Distance(rows, t))
  }

  lemma {:induction false} FollowOneMore(rows: Table, t: Token, k: nat)
    requires Chained(rows) && t in rows && k < Distance(rows, t)
    ensures rows[Follow(rows, t, k)].replacedBy == Some(Follow(rows, t, k + 1))
    ensures Distance(rows, Follow(rows, t, k)) == Distance(rows, t) - k
    decreases k
  {
    assert LinkOk(rows, t);
    if k > 0 {
      FollowOneMore(rows, rows[t].replacedBy.value, k - 1);
    } else {
      assert Follow(rows, rows[t].replacedBy.value, 0) == rows[t].replacedBy.value;
    }
  }

  lemma {:induction false} LastIsLast(rows: Table, t: Token)
    requires Chained(rows) && t in rows
    ensures rows[Last(rows, t)].replacedBy.None? && rows[Last(rows, t)].user == rows[t].user
    decreases Distance(rows, t)
  {
    if rows[t].replacedBy.Some? {
      assert LinkOk(rows, t);
      LastIsLast(rows, rows[t].replacedBy.value);
    }
  }

  /** Two tokens with the same last token lie on one line: the one farther from the end leads to the other. */
  lemma {:induction false} ChainsAreLines(rows: Table, t: Token, u: Token)
    requires Chained(rows) && t in rows && u in rows && Last(rows, t) == Last(rows, u)
    requires Distance(rows, t) >= Distance(rows, u)
    ensures Follow(rows, t, Distance(rows, t) - Distance(rows, u)) == u
    decreases Distance(rows, u)
  {
    var k := Distance(rows, t) - Distance(rows, u);
    if Distance(rows, u) > 0 {
      assert LinkOk(rows, u);
      var next := rows[u].replacedBy.value;
      ChainsAreLines(rows, t, next);
      FollowOneMore(rows, t, k);
      assert rows[Follow(rows, t, k)].replacedBy == rows[u].replacedBy;
    }
  }

  /**
   * Main result. In every interleaving the links form disjoint lines, each of one user; at most one token of a line
   * is unrevoked, and it is the line's last.
   */
  lemma OneLiveTokenPerChain(life: nat, run: seq<Event>, t: Token, u: Token)
    requires Exec(life, run).Some? && t in Exec(life, run).value.rows && u in Exec(life, run).value.rows
    ensures Chained(Exec(life, run).value.rows)
    ensures var rows := Exec(life, run).value.rows;
            Last(rows, t) == Last(rows, u) ==>
              rows[t].user == rows[u].user && (!rows[t].revoked && !rows[u].revoked ==> t == u)
    ensures var rows := Exec(life, run).value.rows;
            !rows[t].revoked ==> Last(rows, u) == Last(rows, t) ==> Last(rows, u) == t
  {
    InvRun(life, run);
    var rows := Exec(life, run).value.rows;
    assert LinkOk(rows, t) && LinkOk(rows, u);
    LastIsLast(rows, t);
    LastIsLast(rows, u);
  }

  // ---------------------------------------------------------------- how many tokens live

  function LiveOf(rows: Table, user: User): set<Token> {
    set t | t in rows && rows[t].user == user && !rows[t].revoked
  }

  /** The rotations of a user between their insert and their link. */
  function HalfDone(s: State, user: User): set<Worker> {
    set w | && w in s.rotating && s.rotating[w].Inserted? && s.rotating[w].raw in s.rows
            && s.rows[s.rotating[w].raw].user == user
  }

  /** What issues and revocations alone do to the number of unrevoked tokens. */
  function Balance(life: nat, s: State, e: Event, user: User): int {
    match e
    case Issue(u, _, _) => if u == user then 1 else 0
    case Revoke(raw) => |LiveOf(Revoked(s.rows, raw), user)| - |LiveOf(s.rows, user)|
    case RevokeAll(u) => |LiveOf(AllRevoked(s.rows, u), user)| - |LiveOf(s.rows, user)|
    case _ => 0
  }

  /** A link that finds its row revoked already. */
  predicate LateLink(s: State, e: Event) {
    e.Link? && e.w in s.rotating && s.rotating[e.w].raw in s.rows && s.rows[s.rotating[e.w].raw].revoked
  }

  /** A worker that dies after its insert. */
  predicate Abandons(s: State, e: Event) { e.Stop? && e.w in s.rotating && s.rotating[e.w].Inserted? }

  /** One token too many of a user: a link that is late, or that never comes. */
  function Surplus(s: State, e: Event, user: User): nat {
    if (LateLink(s, e) || Abandons(s, e)) && s.rotating[e.w].raw in s.rows && s.rows[s.rotating[e.w].raw].user == user
    then 1 else 0
  }

  function Balances(life: nat, run: seq<Event>, user: User): int {
    if run == [] then 0
    else
      var n := |run| - 1;
      var p := Exec(life, run[..n]);
      Balances(life, run[..n], user) + if p.Some? then Balance(life, p.value, run[n], user) else 0
  }

  function Surpluses(life: nat, run: seq<Event>, user: User): nat {
    if run == [] then 0
    else
      var n := |run| - 1;
      var p := Exec(life, run[..n]);
      Surpluses(life, run[..n], user) + if p.Some? then Surplus(p.value, run[n], user) else 0
  }

  lemma IssueAddsOne(life: nat, rows: Table, owner: User, token: Token, now: int, user: User)
    requires token !in rows
    ensures |LiveOf(Issued(life, rows, owner, token, now), user)| ==
            |LiveOf(rows, user)| + if owner == user then 1 else 0
  {
    var after := LiveOf(Issued(life, rows, owner, token, now), user);
    assert after == if owner == user then LiveOf(rows, user) + {token} else LiveOf(rows, user);
  }

  lemma LinkTakesOne(rows: Table, raw: Token, token: Token, user: User)
    requires raw in rows
    ensures |LiveOf(Linked(rows, raw, token), user)| ==
            |LiveOf(rows, user)| - if rows[raw].user == user && !rows[raw].revoked then 1 else 0
  {
    var after := LiveOf(Linked(rows, raw, token), user);
    assert after == if raw in LiveOf(rows, user) then LiveOf(rows, user) - {raw} else LiveOf(rows, user);
  }

  predicate OwnerIs(s: State, w: Worker, user: User)
    requires w in s.rotating
  {
    s.rotating[w].raw in s.rows && s.rows[s.rotating[w].raw].user == user
  }

  /** Owners of rotated tokens do not change while tables only gain rows or change flags. */
  lemma SameHalfDone(s: State, after: State, user: User)
    requires after.rotating == s.rotating && forall w | w in s.rotating :: s.rotating[w].raw in s.rows
    requires forall t | t in s.rows :: t in after.rows && after.rows[t].user == s.rows[t].user
    ensures HalfDone(after, user) == HalfDone(s, user)
  {
  }

  lemma InsertHalfDone(life: nat, s: State, w: Worker, token: Token, now: int, user: User)
    requires Inv(s) && Enabled(s, Insert(w, token, now))
    ensures HalfDone(Apply(life, s, Insert(w, token, now)), user) ==
            if OwnerIs(s, w, user) then HalfDone(s, user) + {w} else HalfDone(s, user)
  {
    assert forall v | v in s.rotating :: RotationOk(s.rows, s.rotating[v]);
  }

  lemma LinkHalfDone(life: nat, s: State, w: Worker, user: User)
    requires Inv(s) && Enabled(s, Link(w))
    ensures HalfDone(Apply(life, s, Link(w)), user) == HalfDone(s, user) - {w}
  {
  }

  lemma CheckHalfDone(life: nat, s: State, w: Worker, raw: Token, now: int, user: User)
    requires Enabled(s, Check(w, raw, now))
    ensures HalfDone(Apply(life, s, Check(w, raw, now)), user) == HalfDone(s, user)
  {
  }

  /** Who is half-way after a step. */
  function HalfDoneAfter(s: State, e: Event, user: User): set<Worker> {
    if e.Insert? && e.w in s.rotating && OwnerIs(s, e.w, user) then HalfDone(s, user) + {e.w}
    else if e.Link? || e.Stop? then HalfDone(s, user) - {e.w}
    else HalfDone(s, user)
  }

  lemma OtherHalfDone(life: nat, s: State, e: Event, user: User)
    requires Inv(s) && Enabled(s, e) && (e.Issue? || e.Revoke? || e.RevokeAll?)
    ensures HalfDone(Apply(life, s, e), user) == HalfDone(s, user)
  {
    assert forall w | w in s.rotating :: RotationOk(s.rows, s.rotating[w]);
    SameHalfDone(s, Apply(life, s, e), user);
  }

  lemma HalfDoneStep(life: nat, s: State, e: Event, user: User)
    requires Inv(s) && Enabled(s, e)
    ensures HalfDone(Apply(life, s, e), user) == HalfDoneAfter(s, e, user)
  {
    match e
    case Insert(w, token, now) => InsertHalfDone(life, s, w, token, now, user);
    case Link(w) => LinkHalfDone(life, s, w, user);
    case Stop(w) =>
    case Check(w, raw, now) => CheckHalfDone(life, s, w, raw, now, user);
    case _ => OtherHalfDone(life, s, e, user);
  }

  lemma RotationsHaveRows(s: State)
    requires Inv(s)
    ensures forall w | w in s.rotating :: s.rotating[w].raw in s.rows
  {
    assert forall w | w in s.rotating :: RotationOk(s.rows, s.rotating[w]);
  }

  lemma LiveStep(life: nat, s: State, e: Event, user: User)
    requires Enabled(s, e) && forall w | w in s.rotating :: s.rotating[w].raw in s.rows
    ensures |LiveOf(Apply(life, s, e).rows, user)| - |HalfDoneAfter(s, e, user)| ==
            |LiveOf(s.rows, user)| - |HalfDone(s, user)| + Balance(life, s, e, user) + Surplus(s, e, user)
  {
    if e.Issue? || e.Revoke? || e.RevokeAll? {
      TableLive(life, s, e, user);
    } else {
      match e
      case Insert(w, token, now) => InsertLive(life, s, w, token, now, user);
      case Link(w) => LinkLive(life, s, w, user);
      case Stop(w) => StopLive(s, w, user);
      case Check(_, _, _) =>
    }
  }

  lemma TableLive(life: nat, s: State, e: Event, user: User)
    requires Enabled(s, e) && (e.Issue? || e.Revoke? || e.RevokeAll?)
    ensures |LiveOf(Apply(life, s, e).rows, user)| == |LiveOf(s.rows, user)| + Balance(life, s, e, user)
    ensures HalfDoneAfter(s, e, user) == HalfDone(s, user) && Surplus(s, e, user) == 0
  {
    if e.Issue? { IssueAddsOne(life, s.rows, e.user, e.token, e.now, user); }
  }

  lemma InsertLive(life: nat, s: State, w: Worker, token: Token, now: int, user: User)
    requires Enabled(s, Insert(w, token, now))
    ensures |LiveOf(Apply(life, s, Insert(w, token, now)).rows, user)| ==
            |LiveOf(s.rows, user)| + if OwnerIs(s, w, user) then 1 else 0
    ensures |HalfDoneAfter(s, Insert(w, token, now), user)| ==
            |HalfDone(s, user)| + if OwnerIs(s, w, user) then 1 else 0
  {
    IssueAddsOne(life, s.rows, s.rows[s.rotating[w].raw].user, token, now, user);
    assert w !in HalfDone(s, user);
  }

  lemma LinkLive(life: nat, s: State, w: Worker, user: User)
    requires Enabled(s, Link(w))
    ensures |LiveOf(Apply(life, s, Link(w)).rows, user)| ==
            |LiveOf(s.rows, user)| - (if OwnerIs(s, w, user) then 1 else 0) + Surplus(s, Link(w), user)
    ensures |HalfDoneAfter(s, Link(w), user)| == |HalfDone(s, user)| - if OwnerIs(s, w, user) then 1 else 0
  {
    LinkTakesOne(s.rows, s.rotating[w].raw, s.rotating[w].token, user);
    assert w in HalfDone(s, user) <==> OwnerIs(s, w, user);
  }

  lemma StopLive(s: State, w: Worker, user: User)
    requires Enabled(s, Stop(w))
    ensures |HalfDoneAfter(s, Stop(w), user)| == |HalfDone(s, user)| - Surplus(s, Stop(w), user)
  {
    assert w in HalfDone(s, user) <==> OwnerIs(s, w, user) && s.rotating[w].Inserted?;
  }

  /**
   * Main result. In every interleaving a user's unrevoked tokens number what issues and revocations leave, plus the
   * rotations half done, plus one for every link that came too late or never.
   */
  lemma {:induction false} LiveTokensAreBalancePlusSurplus(life: nat, run: seq<Event>, user: User)
    requires Exec(life, run).Some?
    ensures var s := Exec(life, run).value;
            |LiveOf(s.rows, user)| == Balances(life, run, user) + |HalfDone(s, user)| + Surpluses(life, run, user)
  {
    if run != [] {
      var n := |run| - 1;
      LiveTokensAreBalancePlusSurplus(life, run[..n], user);
      InvRun(life, run[..n]);
      RotationsHaveRows(Exec(life, run[..n]).value);
      HalfDoneStep(life, Exec(life, run[..n]).value, run[n], user);
      LiveStep(life, Exec(life, run[..n]).value, run[n], user);
    } else {
      assert LiveOf(map[], user) == {} && HalfDone(State(map[], map[]), user) == {};
    }
  }

  /**
   * A rotation past its check keeps every user's number of unrevoked tokens exactly when the old token is still
   * unrevoked; otherwise the user has one more.
   */
  lemma FinishKeepsTheCountIff(life: nat, s: State, w: Worker, token: Token, now: int)
    requires Enabled(s, Insert(w, token, now))
    ensures var raw := s.rotating[w].raw;
            var user := s.rows[raw].user;
            var after := Linked(Issued(life, s.rows, user, token, now), raw, token);
            && Apply(life, Apply(life, s, Insert(w, token, now)), Link(w)).rows == after
            && (|LiveOf(after, user)| == |LiveOf(s.rows, user)| <==> !s.rows[raw].revoked)
            && (s.rows[raw].revoked ==> LiveOf(after, user) == LiveOf(s.rows, user) + {token})
            && (forall u | u != user :: |LiveOf(after, u)| == |LiveOf(s.rows, u)|)
  {
    var raw := s.rotating[w].raw;
    var user := s.rows[raw].user;
    var mid := Issued(life, s.rows, user, token, now);
    forall u ensures |LiveOf(Linked(mid, raw, token), u)| ==
                     |LiveOf(s.rows, u)| + if u == user && s.rows[raw].revoked then 1 else 0
    {
      IssueAddsOne(life, s.rows, user, token, now, u);
      LinkTakesOne(mid, raw, token, u);
    }
    if s.rows[raw].revoked {
      assert LiveOf(Linked(mid, raw, token), user) == LiveOf(s.rows, user) + {token};
    }
  }

  /** Logging out everywhere does not reach a rotation past its check: it leaves exactly its new token alive. */
  lemma RevokeAllMissesARotation(life: nat, s: State, w: Worker, token: Token, now: int)
    requires Enabled(s, Insert(w, token, now))
    ensures var user := s.rows[s.rotating[w].raw].user;
            var cut := Apply(life, s, RevokeAll(user));
            && LiveOf(cut.rows, user) == {}
            && Enabled(cut, Insert(w, token, now))
            && LiveOf(Apply(life, Apply(life, cut, Insert(w, token, now)), Link(w)).rows, user) == {token}
  {
    var raw := s.rotating[w].raw;
    var user := s.rows[raw].user;
    var cut := Apply(life, s, RevokeAll(user));
    assert LiveOf(cut.rows, user) == {};
    FinishKeepsTheCountIff(life, cut, w, token, now);
  }

  /** Two rotations of one token past their checks: the second one adds a token, and the first new one is cut off. */
  lemma ConcurrentRotationsFork(life: nat, s: State, v: Worker, w: Worker, one: Token, two: Token, now: int)
    requires Inv(s) && v != w && one != two && two !in s.rows
    requires Enabled(s, Insert(v, one, now)) && Enabled(s, Insert(w, two, now))
    requires s.rotating[v].raw == s.rotating[w].raw
    ensures var raw := s.rotating[v].raw;
            var user := s.rows[raw].user;
            var first := Apply(life, Apply(life, s, Insert(v, one, now)), Link(v));
            Enabled(first, Insert(w, two, now)) &&
            var both := Apply(life, Apply(life, first, Insert(w, two, now)), Link(w));
            && LiveOf(both.rows, user) == LiveOf(first.rows, user) + {two}
            && Unlinked(both.rows, one)
  {
    var first := Apply(life, Apply(life, s, Insert(v, one, now)), Link(v));
    FinishKeepsTheCountIff(life, first, w, two, now);
    IssueKeepsChains(life, s.rows, s.rows[s.rotating[v].raw].user, one, now);
  }

  lemma RotationKeepsTheCount(life: nat, rows: Table, raw: Token, token: Token, now: int, user: User)
    requires token !in rows
    ensures |LiveOf(Rotated(life, rows, raw, token, now), user)| == |LiveOf(rows, user)|
  {
    if Accepts(rows, raw, now) {
      IssueAddsOne(life, rows, rows[raw].user, token, now, user);
      LinkTakesOne(Issued(life, rows, rows[raw].user, token, now), raw, token, user);
    }
  }

  // ---------------------------------------------------------------- finality

  lemma RevokedStep(life: nat, s: State, e: Event, t: Token)
    requires Enabled(s, e) && t in s.rows && s.rows[t].revoked
    ensures t in Apply(life, s, e).rows && Apply(life, s, e).rows[t].revoked
  {
    match e
    case Link(w) =>
    case Revoke(raw) =>
    case RevokeAll(user) =>
    case _ =>
  }

  lemma {:induction false} RevokedStays(life: nat, run: seq<Event>, k: nat, t: Token)
    requires k <= |run| && Exec(life, run).Some? && Exec(life, run[..k]).Some?
    requires t in Exec(life, run[..k]).value.rows && Exec(life, run[..k]).value.rows[t].revoked
    ensures t in Exec(life, run).value.rows && Exec(life, run).value.rows[t].revoked
    decreases |run|
  {
    if k < |run| {
      var n := |run| - 1;
      assert run[..n][..k] == run[..k];
      RevokedStays(life, run[..n], k, t);
      RevokedStep(life, Exec(life, run[..n]).value, run[n], t);
    } else {
      assert run[..k] == run;
    }
  }

  /** Once its row is revoked a token is never accepted again. */
  lemma NeverAcceptedAgain(life: nat, run: seq<Event>, k: nat, t: Token, now: int)
    requires k <= |run| && Exec(life, run).Some? && Exec(life, run[..k]).Some?
    requires t in Exec(life, run[..k]).value.rows && Exec(life, run[..k]).value.rows[t].revoked
    ensures !Accepts(Exec(life, run).value.rows, t, now)
  {
    RevokedStays(life, run, k, t);
  }

  /** The token is in the table, not revoked and not expired. */
  predicate Usable(rows: Table, t: Token, now: int) { t in rows && !rows[t].revoked && now < rows[t].expiresAt }

  /** Main result: a logout ends exactly its own token: at no time is it usable, and no other row has changed. */
  lemma LogoutEndsTheToken(life: nat, s: State, raw: Token, now: int, user: User)
    ensures var after := Apply(life, s, Revoke(raw)).rows;
            && !Usable(after, raw, now) && after.Keys == s.rows.Keys
            && (forall t | t in after && t != raw :: after[t] == s.rows[t])
            && (raw in after ==> after[raw] == s.rows[raw].(revoked := true))
            && LiveOf(after, user) == LiveOf(s.rows, user) - {raw}
  {
  }

  /** A logout everywhere ends all of the user's tokens and no one else's. */
  lemma LogoutEverywhereEndsAll(life: nat, s: State, owner: User, t: Token, now: int, user: User)
    requires t in s.rows
    ensures var after := Apply(life, s, RevokeAll(owner)).rows;
            && after.Keys == s.rows.Keys
            && (s.rows[t].user == owner ==> !Usable(after, t, now) && after[t] == s.rows[t].(revoked := true))
            && (s.rows[t].user != owner ==> after[t] == s.rows[t])
            && LiveOf(after, user) == if user == owner then {} else LiveOf(s.rows, user)
  {
  }

  /** The event at k logs the token out, alone or with all of its owner's. */
  predicate LogsOut(rows: Table, e: Event, t: Token) {
    t in rows && (e == Revoke(t) || e == RevokeAll(rows[t].user))
  }

  /** Main result: after a logout of the token no check of the run accepts it any more, whatever else happens. */
  lemma LoggedOutForGood(life: nat, run: seq<Event>, k: nat, j: nat, t: Token)
    requires k < j < |run| && Exec(life, run[..j + 1]).Some? && Exec(life, run[..k]).Some?
    requires LogsOut(Exec(life, run[..k]).value.rows, run[k], t) && run[j].Check? && run[j].raw == t
    ensures Exec(life, run[..j]).Some? && Exec(life, run[..j + 1]) == Exec(life, run[..j])
    ensures !Usable(Exec(life, run[..j]).value.rows, t, run[j].now)
  {
    assert run[..j + 1][..j] == run[..j];
    var s := Exec(life, run[..k]).value;
    PrefixRuns(life, run[..j], k + 1);
    assert run[..j][..k + 1] == run[..k + 1] && run[..k + 1][..k] == run[..k];
    assert Exec(life, run[..k + 1]).value == Apply(life, s, run[k]);
    if run[k].Revoke? {
      LogoutEndsTheToken(life, s, t, 0, 0);
    } else {
      LogoutEverywhereEndsAll(life, s, run[k].user, t, 0, 0);
    }
    RevokedStays(life, run[..j], k + 1, t);
  }

  lemma {:induction false} PrefixRuns(life: nat, run: seq<Event>, k: nat)
    requires k <= |run| && Exec(life, run).Some?
    ensures Exec(life, run[..k]).Some?
  {
    if k < |run| {
      var n := |run| - 1;
      PrefixRuns(life, run[..n], k);
      assert run[..n][..k] == run[..k];
    } else {
      assert run[..k] == run;
    }
  }

  /** Nothing comes between the three events of a rotation. */
  ghost predicate Undisturbed(run: seq<Event>) { forall i | 0 <= i < |run| :: FollowsOn(run, i) }

  ghost predicate FollowsOn(run: seq<Event>, i: nat)
    requires i < |run|
  {
    && !run[i].Stop?
    && (run[i].Insert? ==> i > 0 && run[i - 1].Check? && run[i - 1].w == run[i].w)
    && (run[i].Link? ==> i > 0 && run[i - 1].Insert? && run[i - 1].w == run[i].w)
  }

  lemma ShorterIsUndisturbed(run: seq<Event>)
    requires Undisturbed(run) && run != []
    ensures Undisturbed(run[..|run| - 1])
  {
    var n := |run| - 1;
    forall i | 0 <= i < n ensures FollowsOn(run[..n], i) { assert FollowsOn(run, i); }
  }

  /** In undisturbed runs nobody has a token too many. */
  lemma {:induction false} UndisturbedHasNoSurplus(life: nat, run: seq<Event>, user: User)
    requires Exec(life, run).Some? && Undisturbed(run)
    ensures Surpluses(life, run, user) == 0
  {
    if run != [] {
      var n := |run| - 1;
      ShorterIsUndisturbed(run);
      UndisturbedHasNoSurplus(life, run[..n], user);
      assert FollowsOn(run, n);
      if run[n].Link? {
        LinkIsInTime(life, run);
      }
    }
  }

  lemma Before(life: nat, run: seq<Event>)
    requires Exec(life, run).Some? && run != []
    ensures var p := Exec(life, run[..|run| - 1]);
            p.Some? && Enabled(p.value, run[|run| - 1]) && Exec(life, run) == Some(Apply(life, p.value, run[|run| - 1]))
  {
  }

  lemma LinkIsInTime(life: nat, run: seq<Event>)
    requires Exec(life, run).Some? && Undisturbed(run) && run != [] && run[|run| - 1].Link?
    ensures !LateLink(Exec(life, run[..|run| - 1]).value, run[|run| - 1])
  {
    var n := |run| - 1;
    assert FollowsOn(run, n) && FollowsOn(run, n - 1);
    var a, b, c := run[..n], run[..n - 1], run[..n - 2];
    assert a[..n - 1] == b && a[n - 1] == run[n - 1] && b[..n - 2] == c && b[n - 2] == run[n - 2];
    Before(life, run);
    Before(life, a);
    Before(life, b);
    var s := Exec(life, c).value;
    assert run[n - 2].w !in s.rotating;
    assert Accepts(s.rows, run[n - 2].raw, run[n - 2].now);
  }

  predicate Links(s: State, e: Event, t: Token) { e.Link? && e.w in s.rotating && s.rotating[e.w].raw == t }

  /** The rotations of a token that went through. */
  function Completed(life: nat, run: seq<Event>, t: Token): nat {
    if run == [] then 0
    else
      var n := |run| - 1;
      var p := Exec(life, run[..n]);
      Completed(life, run[..n], t) + if p.Some? && Links(p.value, run[n], t) then 1 else 0
  }

  /** Those of them that came after the token was revoked. */
  function CompletedLate(life: nat, run: seq<Event>, t: Token): nat {
    if run == [] then 0
    else
      var n := |run| - 1;
      var p := Exec(life, run[..n]);
      CompletedLate(life, run[..n], t) +
      if p.Some? && Links(p.value, run[n], t) && LateLink(p.value, run[n]) then 1 else 0
  }

  /** In every interleaving a token is rotated at most once before it is revoked, and in undisturbed runs at all. */
  lemma {:induction false} AcceptedAtMostOnce(life: nat, run: seq<Event>, t: Token)
    requires Exec(life, run).Some?
    ensures Completed(life, run, t) <= 1 + CompletedLate(life, run, t)
    ensures Completed(life, run, t) > CompletedLate(life, run, t) ==>
              t in Exec(life, run).value.rows && Exec(life, run).value.rows[t].revoked
    ensures Undisturbed(run) ==> CompletedLate(life, run, t) == 0
  {
    if run != [] {
      var n := |run| - 1;
      AcceptedAtMostOnce(life, run[..n], t);
      var s := Exec(life, run[..n]).value;
      if t in s.rows && s.rows[t].revoked {
        RevokedStep(life, s, run[n], t);
      }
      if Undisturbed(run) {
        ShorterIsUndisturbed(run);
        if run[n].Link? { LinkIsInTime(life, run); }
      }
    }
  }
}
