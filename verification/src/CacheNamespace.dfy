/** Keys of different namespaces: when two of them can collide, and that those in use cannot. */
module CacheNamespace {
  import opened CacheKey

  /** Flat parameters under names without a colon. */
  ghost predicate Params(fs: seq<Field>) { Flat(fs) && forall f | f in fs :: ':' !in f.name }

  /** The same fields are defined, with the same values. */
  ghost predicate SameDefined(fs: seq<Field>, gs: seq<Field>) { forall f :: f in Defined(fs) <==> f in Defined(gs) }

  // ---------------------------------------------------------------- the text of flat parameters

  /** Defined fields, sorted and named without a colon. */
  ghost predicate Ordered(fs: seq<Field>) {
    Sorted(fs) && forall f | f in fs :: FlatField(f) && f.value.Scalar? && ':' !in f.name
  }

  function Part(f: Field): string { f.name + "=" + if f.value.Scalar? then f.value.text else "" }

  function Text(fs: seq<Field>): string {
    if fs == [] then "" else if |fs| == 1 then Part(fs[0]) else Part(fs[0]) + "&" + Text(fs[1..])
  }

  lemma {:induction false} TextIsPrinted(whole: Value, fs: seq<Field>)
    requires forall f | f in fs :: f.value < whole && f.value.Scalar?
    ensures Text(fs) == PrintedFrom(whole, fs)
  {
    if fs != [] {
      var f, rest := fs[0], fs[1..];
      assert f in fs && fs == [f] + rest;
      if rest == [] {
        assert fs == [f];
        PrintOne(whole, f);
      } else {
        TextIsPrinted(whole, rest);
        PrintMore(whole, f, rest);
      }
    }
  }

  /** The printed form is the text of the defined fields in order. */
  lemma PrintedText(fs: seq<Field>)
    requires Params(fs)
    ensures Ordered(Sort(Defined(fs))) && Stringify(Obj(fs)) == Text(Sort(Defined(fs)))
  {
    DefinedKeeps(fs);
    SortSorts(Defined(fs));
    SortMembers(Defined(fs));
    TextIsPrinted(Obj(fs), Sort(Defined(fs)));
  }

  lemma {:induction false} OrderedStays(fs: seq<Field>)
    requires Ordered(fs)
    ensures Params(fs) && Defined(fs) == fs && Sort(fs) == fs && Stringify(Obj(fs)) == Text(fs)
  {
    SortedIsDistinct(fs);
    DefinedAll(fs);
    SortAgain(fs);
    PrintedText(fs);
  }

  lemma SortedIsDistinct(fs: seq<Field>)
    requires Sorted(fs)
    ensures DistinctNames(fs)
  {
    forall i, j | 0 <= i < j < |fs| ensures fs[i].name != fs[j].name { BeforeIsStrict(fs[i].name, fs[j].name); }
  }

  lemma {:induction false} DefinedAll(fs: seq<Field>)
    requires forall f | f in fs :: f.value.Scalar?
    ensures Defined(fs) == fs
  {
    if fs != [] {
      assert fs[0] in fs && forall f | f in fs[1..] :: f in fs;
      DefinedAll(fs[1..]);
    }
  }

  lemma {:induction false} SortAgain(fs: seq<Field>)
    requires Sorted(fs)
    ensures Sort(fs) == fs
  {
    if fs != [] { SortAgain(fs[1..]); }
  }

  // ---------------------------------------------------------------- what a colon can cut

  lemma Halves(a: string, b: string, c: string, d: string)
    requires a + b == c + d && |a| <= |c|
    ensures a + c[|a|..] == c && b == c[|a|..] + d
  {
    var s := a + b;
    assert s[..|a|] == a && s[..|a|] == (c + d)[..|a|] == c[..|a|];
    assert s[|a|..] == b && (c + d)[|a|..] == c[|a|..] + d;
  }

  /** A colon inside one field lies in its value. */
  lemma CutPart(f: Field, r: string, rest: string) returns (g: Field)
    requires FlatField(f) && f.value.Scalar? && ':' !in f.name && |r| < |Part(f)|
    requires Part(f)[..|r|] == r && Part(f)[|r|] == ':'
    ensures g.name == f.name && FlatField(g) && g.value.Scalar? && Part(g) == r
  {
    var head := f.name + "=";
    assert Part(f) == head + f.value.text;
    forall i | 0 <= i < |head| ensures Part(f)[i] != ':' {
      assert i < |f.name| ==> head[i] == f.name[i] && f.name[i] in f.name;
    }
    var text := f.value.text[..|r| - |head|];
    assert Part(f)[..|r|] == head + text;
    assert forall c | c in text :: c in f.value.text;
    g := Field(f.name, Scalar(text));
  }

  /** Whatever stands before a colon in a text is itself the text of fields, under the first of the same names. */
  lemma {:induction false} CutText(fs: seq<Field>, r: string, rest: string) returns (gs: seq<Field>)
    requires Ordered(fs) && Text(fs) == r + ":" + rest
    ensures gs != [] && |gs| <= |fs| && Ordered(gs) && Text(gs) == r
    ensures forall i | 0 <= i < |gs| :: gs[i].name == fs[i].name
    decreases |fs|
  {
    assert (r + ":" + rest)[|r|] == ':' && (r + ":" + rest)[..|r|] == r;
    var f, tail := fs[0], fs[1..];
    assert f in fs && fs == [f] + tail;
    if |r| < |Part(f)| {
      assert tail != [] ==> forall i | 0 <= i < |Part(f)| :: Text(fs)[i] == Part(f)[i];
      assert Part(f)[..|r|] == r;
      var g := CutPart(f, r, rest);
      gs := [g];
    } else {
      gs := CutLater(fs, r, rest);
    }
  }

  /** A colon behind the first part is behind the ampersand too. */
  lemma SkipHead(part: string, text: string, r: string, rest: string)
    requires part + "&" + text == r + ":" + rest && |r| >= |part|
    ensures |r| > |part| && part + "&" + r[|part| + 1..] == r && text == r[|part| + 1..] + ":" + rest
  {
    var head := part + "&";
    assert (r + ":" + rest)[|r|] == ':' && (head + text)[|part|] == '&';
    assert r + ":" + rest == r + (":" + rest);
    Halves(head, text, r, ":" + rest);
    assert r[|head|..] + (":" + rest) == r[|head|..] + ":" + rest;
  }

  lemma CutLater(fs: seq<Field>, r: string, rest: string) returns (gs: seq<Field>)
    requires Ordered(fs) && fs != [] && Text(fs) == r + ":" + rest && |r| >= |Part(fs[0])|
    ensures gs != [] && |gs| <= |fs| && Ordered(gs) && Text(gs) == r
    ensures forall i | 0 <= i < |gs| :: gs[i].name == fs[i].name
    decreases |fs|, 0
  {
    var f, tail := fs[0], fs[1..];
    var head := Part(f) + "&";
    assert fs == [f] + tail && tail != [];
    assert Text(fs) == head + Text(tail);
    SkipHead(Part(f), Text(tail), r, rest);
    var r' := r[|head|..];
    assert forall g | g in tail :: g in fs;
    var gs' := CutText(tail, r', rest);
    gs := [f] + gs';
    SortedHead(fs, gs);
    assert gs[1..] == gs' && Text(gs) == head + r';
  }

  lemma SortedHead(fs: seq<Field>, gs: seq<Field>)
    requires Sorted(fs) && |gs| <= |fs| && forall i | 0 <= i < |gs| :: gs[i].name == fs[i].name
    ensures Sorted(gs)
  {
  }

  // ---------------------------------------------------------------- colliding namespaces

  /** The second namespace is the first one with the printed form of some parameters behind it. */
  ghost predicate Extends(m: string, n: string) {
    exists fs :: Params(fs) && Stringify(Obj(fs)) != "" && n == m + ":" + Stringify(Obj(fs))
  }

  ghost predicate Collide(m: string, n: string, fs: seq<Field>, gs: seq<Field>) {
    Params(fs) && Params(gs) && BuildKey(m, fs) == BuildKey(n, gs)
  }

  function Tail(fs: seq<Field>): string {
    var serialized := Stringify(Obj(fs));
    if serialized == "" then "" else ":" + serialized
  }

  lemma KeyIsTail(n: string, fs: seq<Field>)
    ensures BuildKey(n, fs) == "q:" + (n + Tail(fs))
  {
    assert "q:" + n + ":" + Stringify(Obj(fs)) == "q:" + (n + (":" + Stringify(Obj(fs))));
  }

  /** Of two colliding keys the longer namespace extends the shorter. */
  lemma LongerExtends(m: string, n: string, fs: seq<Field>, gs: seq<Field>)
    requires Collide(m, n, fs, gs) && |m| <= |n|
    ensures m == n || Extends(m, n)
  {
    KeyIsTail(m, fs);
    KeyIsTail(n, gs);
    assert ("q:" + (m + Tail(fs)))[2..] == m + Tail(fs) && ("q:" + (n + Tail(gs)))[2..] == n + Tail(gs);
    if |m| == |n| {
      Halves(m, Tail(fs), n, Tail(gs));
      assert m == n;
    } else {
      Cut(m, n, fs, gs);
    }
  }

  lemma CutTails(m: string, a: string, n: string, b: string) returns (r: string)
    requires m + (":" + a) == n + b && |m| < |n|
    ensures n == m + ":" + r && a == r + b
  {
    Halves(m, ":" + a, n, b);
    var cut := n[|m|..];
    assert (":" + a)[0] == ':' && (cut + b)[0] == cut[0];
    r := cut[1..];
    assert cut == ":" + r;
    assert (":" + a)[1..] == a && (cut + b)[1..] == r + b;
  }

  lemma Cut(m: string, n: string, fs: seq<Field>, gs: seq<Field>)
    requires Params(fs) && Params(gs) && m + Tail(fs) == n + Tail(gs) && |m| < |n|
    ensures Extends(m, n)
  {
    PrintedText(fs);
    var r := CutTails(m, Stringify(Obj(fs)), n, Tail(gs));
    if Tail(gs) == "" {
      assert Stringify(Obj(fs)) == r;
    } else {
      assert r + Tail(gs) == r + ":" + Stringify(Obj(gs));
      var hs := CutText(Sort(Defined(fs)), r, Stringify(Obj(gs)));
      OrderedStays(hs);
      TextIsNotEmpty(hs);
    }
  }

  lemma TextIsNotEmpty(fs: seq<Field>)
    requires fs != []
    ensures '=' in Text(fs)
  {
    assert Text(fs)[|fs[0].name|] == '=';
  }

  /** An extended namespace collides, with no parameters of its own. */
  lemma ExtendedCollides(m: string, n: string) returns (fs: seq<Field>)
    requires Extends(m, n)
    ensures Collide(m, n, fs, [])
  {
    fs :| Params(fs) && Stringify(Obj(fs)) != "" && n == m + ":" + Stringify(Obj(fs));
    assert Stringify(Obj([])) == "";
    assert "q:" + m + ":" + Stringify(Obj(fs)) == "q:" + (m + ":" + Stringify(Obj(fs)));
  }

  /** Main result: two namespaces share a key exactly when they are equal or one extends the other. */
  lemma NamespacesCollideIff(m: string, n: string)
    ensures (exists fs, gs :: Collide(m, n, fs, gs)) <==> m == n || Extends(m, n) || Extends(n, m)
  {
    if fs, gs :| Collide(m, n, fs, gs) {
      if |m| <= |n| {
        LongerExtends(m, n, fs, gs);
      } else {
        assert Collide(n, m, gs, fs);
        LongerExtends(n, m, gs, fs);
      }
    }
    if m == n {
      assert Collide(m, n, [], []);
    } else if Extends(m, n) {
      var fs := ExtendedCollides(m, n);
    } else if Extends(n, m) {
      var fs := ExtendedCollides(n, m);
      assert Collide(m, n, [], fs);
    }
  }

  /** A namespace that extends another has an equals sign. */
  lemma ExtendedHasEquals(m: string, n: string)
    requires Extends(m, n)
    ensures '=' in n
  {
    var fs :| Params(fs) && Stringify(Obj(fs)) != "" && n == m + ":" + Stringify(Obj(fs));
    PrintedText(fs);
    TextIsNotEmpty(Sort(Defined(fs)));
    var t := Stringify(Obj(fs));
    var i :| 0 <= i < |t| && t[i] == '=';
    assert n[|m| + 1 + i] == t[i];
  }

  lemma {:induction false} SameDefinedSamePrint(fs: seq<Field>, gs: seq<Field>)
    requires Params(fs) && Params(gs) && SameDefined(fs, gs)
    ensures Stringify(Obj(fs)) == Stringify(Obj(gs))
  {
    assert forall f :: f in Defined(fs) <==> f in Defined(gs);
    assert Names(Defined(fs)) == Names(Defined(gs));
    DefinedKeeps(fs);
    forall f, g | f in fs && g in gs && f.name == g.name && f.value != Undefined && g.value != Undefined
      ensures Same(f.value, g.value)
    {
      assert f in Defined(fs) && g in Defined(fs);
      var i :| 0 <= i < |Defined(fs)| && Defined(fs)[i] == f;
      var j :| 0 <= j < |Defined(fs)| && Defined(fs)[j] == g;
    }
    StringifyIgnoresOrder(Obj(fs), Obj(gs));
  }

  /**
   * Main result: with namespaces free of equals signs, two keys are equal exactly when both the namespaces and the
   * defined parameters are, parameters that print as nothing included.
   */
  lemma EqualKeysIff(m: string, n: string, fs: seq<Field>, gs: seq<Field>)
    requires '=' !in m && '=' !in n && Params(fs) && Params(gs)
    ensures BuildKey(m, fs) == BuildKey(n, gs) <==> m == n && SameDefined(fs, gs)
  {
    if BuildKey(m, fs) == BuildKey(n, gs) {
      assert Collide(m, n, fs, gs);
      NamespacesCollideIff(m, n);
      if Extends(m, n) { ExtendedHasEquals(m, n); }
      if Extends(n, m) { ExtendedHasEquals(n, m); }
      EqualKeysEqualParameters(m, fs, gs);
    }
    if m == n && SameDefined(fs, gs) { SameDefinedSamePrint(fs, gs); }
  }

  // The namespaces of all services.
  const LEAGUES: seq<string> := [
    "leagues:byCode", "leagues:byId", "leagues:directionalTransfers", "leagues:latestTransfers", "leagues:list",
    "leagues:transfers"]
  const PLAYERS: seq<string> := [
    "players:byId", "players:byNationality", "players:byTeam", "players:freeAgents", "players:lastTransfer",
    "players:list", "players:profile", "players:transfers"]
  const SEARCH_AND_TEAMS: seq<string> := [
    "search:all", "search:players", "teams:byId", "teams:byLeague", "teams:detail", "teams:list", "teams:transfers"]
  const TRANSFERS: seq<string> := [
    "transfers:betweenTeams", "transfers:byId", "transfers:byMonth", "transfers:byYear", "transfers:latest",
    "transfers:latestByLeagues"]
  const STATS: seq<string> := [
    "transfers:list", "transfers:periodSummary", "transfers:periods", "transfers:seasonDashboard", "transfers:stats",
    "transfers:topExpensive"]
  const NAMESPACES: seq<string> := LEAGUES + PLAYERS + SEARCH_AND_TEAMS + TRANSFERS + STATS

  ghost predicate NoEquals(namespaces: seq<string>) { forall n | n in namespaces :: '=' !in n }

  lemma PlainLeagues()
    ensures NoEquals(LEAGUES)
  {
  }

  lemma PlainPlayers()
    ensures NoEquals(PLAYERS)
  {
  }

  lemma PlainSearchAndTeams()
    ensures NoEquals(SEARCH_AND_TEAMS)
  {
  }

  lemma PlainTransfers()
    ensures NoEquals(TRANSFERS)
  {
  }

  lemma PlainStats()
    ensures NoEquals(STATS)
  {
  }

  /** No two services ever read each other's entries. */
  lemma ServicesNeverCollide(m: string, n: string, fs: seq<Field>, gs: seq<Field>)
    requires m in NAMESPACES && n in NAMESPACES && Params(fs) && Params(gs)
    ensures BuildKey(m, fs) == BuildKey(n, gs) <==> m == n && SameDefined(fs, gs)
  {
    PlainLeagues();
    PlainPlayers();
    PlainSearchAndTeams();
    PlainTransfers();
    PlainStats();
    EqualKeysIff(m, n, fs, gs);
  }

  /** A colon in a name is another matter: it moves between the namespace and the first name. */
  lemma ColonInANameCollides(m: string, r: string, name: string, v: string)
    ensures BuildKey(m, [Field(r + ":" + name, Scalar(v))]) == BuildKey(m + ":" + r, [Field(name, Scalar(v))])
  {
    PrintSingle(r + ":" + name, v);
    PrintSingle(name, v);
    assert "q:" + m + ":" + (r + ":" + name + "=" + v) == "q:" + (m + ":" + r) + ":" + (name + "=" + v);
  }
}
