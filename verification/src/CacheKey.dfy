/** The canonical cache key: a parameter object printed with sorted names, and its inverse. */
module CacheKey {
  /** A JavaScript value; an object keeps its fields in insertion order. */
  datatype Value =
    | Undefined
    | Null
    | Scalar(text: string)
    | Arr(items: seq<Value>)
    | Obj(fields: seq<Field>)
  datatype Field = Field(name: string, value: Value)

  // ---------------------------------------------------------------- names in order

  predicate Before(a: string, b: string) {
    if b == "" then false
    else if a == "" then true
    else a[0] < b[0] || (a[0] == b[0] && Before(a[1..], b[1..]))
  }

  /** The first k characters agree, and then the first name ends or has the smaller one. */
  predicate SplitAt(a: string, b: string, k: nat) {
    && k <= |a| && k < |b| && a[..k] == b[..k] && (k == |a| || a[k] < b[k])
  }

  /** The order of names is the lexicographic one. */
  lemma {:induction false} BeforeIsLexicographic(a: string, b: string)
    ensures Before(a, b) <==> exists k :: SplitAt(a, b, k)
  {
    if b != "" && a != "" && a[0] == b[0] {
      BeforeIsLexicographic(a[1..], b[1..]);
      if k: nat :| SplitAt(a[1..], b[1..], k) {
        assert a[..k + 1] == [a[0]] + a[1..][..k] && b[..k + 1] == [b[0]] + b[1..][..k];
        assert SplitAt(a, b, k + 1);
      }
      if k: nat :| SplitAt(a, b, k) {
        assert k > 0;
        assert a[1..][..k - 1] == a[..k][1..] && b[..k][1..] == b[1..][..k - 1];
        assert SplitAt(a[1..], b[1..], k - 1);
      }
    } else if b != "" {
      assert Before(a, b) ==> SplitAt(a, b, 0);
      if k: nat :| SplitAt(a, b, k) {
        assert k > 0 ==> a[..k][0] == b[..k][0];
      }
    }
  }

  lemma BeforeIsTotal(a: string, b: string)
    ensures a == b || Before(a, b) || Before(b, a)
  {
    if a != "" && b != "" && a[0] == b[0] {
      BeforeIsTotal(a[1..], b[1..]);
      assert a == [a[0]] + a[1..] && b == [b[0]] + b[1..];
    }
  }

  lemma BeforeIsStrict(a: string, b: string)
    requires Before(a, b)
    ensures a != b && !Before(b, a)
  {
    if a != "" && b != "" && a[0] == b[0] {
      BeforeIsStrict(a[1..], b[1..]);
    }
  }

  lemma BeforeIsTransitive(a: string, b: string, c: string)
    requires Before(a, b) && Before(b, c)
    ensures Before(a, c)
  {
    if a != "" && a[0] == b[0] && b[0] == c[0] {
      BeforeIsTransitive(a[1..], b[1..], c[1..]);
    }
  }

  function Names(fs: seq<Field>): set<string> { set f | f in fs :: f.name }

  ghost predicate DistinctNames(fs: seq<Field>) {
    forall i, j | 0 <= i < j < |fs| :: fs[i].name != fs[j].name
  }

  ghost predicate Sorted(fs: seq<Field>) {
    forall i, j | 0 <= i < j < |fs| :: Before(fs[i].name, fs[j].name)
  }

  /** Object.keys(..).sort(), carrying the values along. */
  function Sort(fs: seq<Field>): seq<Field> {
    if fs == [] then [] else Insert(fs[0], Sort(fs[1..]))
  }

  function Insert(f: Field, fs: seq<Field>): seq<Field> {
    if fs == [] || Before(f.name, fs[0].name) then [f] + fs else [fs[0]] + Insert(f, fs[1..])
  }

  lemma InsertMembers(f: Field, fs: seq<Field>)
    ensures forall g :: g in Insert(f, fs) <==> g == f || g in fs
  {
    if fs != [] && !Before(f.name, fs[0].name) {
      InsertMembers(f, fs[1..]);
      assert fs == [fs[0]] + fs[1..];
    }
  }

  lemma SortMembers(fs: seq<Field>)
    ensures forall g :: g in Sort(fs) <==> g in fs
  {
    if fs != [] {
      SortMembers(fs[1..]);
      InsertMembers(fs[0], Sort(fs[1..]));
      assert fs == [fs[0]] + fs[1..];
    }
  }

  lemma PrependSorted(f: Field, fs: seq<Field>)
    requires Sorted(fs) && (fs == [] || Before(f.name, fs[0].name))
    ensures Sorted([f] + fs)
  {
    forall j | 0 < j < |fs| ensures Before(f.name, fs[j].name) {
      BeforeIsTransitive(f.name, fs[0].name, fs[j].name);
    }
  }

  lemma InsertSorted(f: Field, fs: seq<Field>)
    requires Sorted(fs) && f.name !in Names(fs)
    ensures Sorted(Insert(f, fs))
  {
    if fs == [] || Before(f.name, fs[0].name) {
      PrependSorted(f, fs);
    } else {
      assert forall g | g in fs[1..] :: g in fs;
      InsertSorted(f, fs[1..]);
      InsertMembers(f, fs[1..]);
      assert fs[0].name in Names(fs);
      BeforeIsTotal(f.name, fs[0].name);
      var rest := Insert(f, fs[1..]);
      assert rest[0] == f || rest[0] == fs[1];
      PrependSorted(fs[0], rest);
    }
  }

  lemma SortSorts(fs: seq<Field>)
    requires DistinctNames(fs)
    ensures Sorted(Sort(fs))
  {
    if fs != [] {
      SortSorts(fs[1..]);
      SortMembers(fs[1..]);
      forall f | f in fs[1..] ensures f.name != fs[0].name {
        var i :| 0 <= i < |fs[1..]| && fs[1..][i] == f;
        assert fs[i + 1] == f;
      }
      InsertSorted(fs[0], Sort(fs[1..]));
    }
  }

  // ---------------------------------------------------------------- the printer

  function Defined(fs: seq<Field>): (r: seq<Field>)
    ensures forall f :: f in r <==> f in fs && f.value != Undefined
  {
    if fs == [] then []
    else (if fs[0].value == Undefined then [] else [fs[0]]) + Defined(fs[1..])
  }

  function Join(parts: seq<string>, separator: char): string {
    if parts == [] then ""
    else if |parts| == 1 then parts[0]
    else parts[0] + [separator] + Join(parts[1..], separator)
  }

  function Stringify(v: Value): string
    decreases v, 1
  {
    match v
    case Undefined => ""
    case Null => ""
    case Scalar(text) => text
    case Arr(items) => "[" + Join(PrintItems(v, items), ',') + "]"
    case Obj(fields) =>
      SortMembers(Defined(fields));
      Join(PrintFields(v, Sort(Defined(fields))), '&')
  }

  function PrintItems(whole: Value, items: seq<Value>): seq<string>
    requires forall x | x in items :: x < whole
    decreases whole, 0, |items|
  {
    if items == [] then []
    else
      assert items[0] in items && forall x | x in items[1..] :: x in items;
      [Stringify(items[0])] + PrintItems(whole, items[1..])
  }

  function PrintFields(whole: Value, fields: seq<Field>): seq<string>
    requires forall f | f in fields :: f.value < whole
    decreases whole, 0, |fields|
  {
    if fields == [] then []
    else [fields[0].name + "=" + Stringify(fields[0].value)] + PrintFields(whole, fields[1..])
  }

  function BuildKey(namespace: string, params: seq<Field>): string {
    var serialized := Stringify(Obj(params));
    if serialized != "" then "q:" + namespace + ":" + serialized else "q:" + namespace
  }

  // ---------------------------------------------------------------- order does not matter

  /** Field names are distinct in every object, as they are in JavaScript. */
  ghost predicate WellFormed(v: Value)
    decreases v
  {
    match v
    case Arr(items) => forall x | x in items :: WellFormed(x)
    case Obj(fields) => DistinctNames(fields) && forall f | f in fields :: WellFormed(f.value)
    case _ => true
  }

  /** Equal up to the order of fields, and up to undefined fields, at every depth. */
  ghost predicate Same(v: Value, w: Value)
    decreases v
  {
    match (v, w)
    case (Arr(xs), Arr(ys)) => |xs| == |ys| && forall i | 0 <= i < |xs| :: Same(xs[i], ys[i])
    case (Obj(fs), Obj(gs)) =>
      && Names(Defined(fs)) == Names(Defined(gs))
      && forall f, g | f in fs && g in gs :: f.name == g.name && f.value != Undefined && g.value != Undefined
           ==> Same(f.value, g.value)
    case _ => v == w
  }

  lemma DefinedKeeps(fs: seq<Field>)
    requires DistinctNames(fs)
    ensures DistinctNames(Defined(fs))
  {
    if fs != [] {
      DefinedKeeps(fs[1..]);
    }
  }

  /** Two sorted lists over the same names list them alike. */
  lemma SortedNamesAgree(fs: seq<Field>, gs: seq<Field>)
    requires Sorted(fs) && Sorted(gs) && Names(fs) == Names(gs)
    ensures |fs| == |gs| && forall i | 0 <= i < |fs| :: fs[i].name == gs[i].name
  {
    if fs == [] || gs == [] {
      assert fs != [] ==> fs[0].name in Names(fs);
      assert gs != [] ==> gs[0].name in Names(gs);
    } else {
      assert fs[0].name in Names(gs) && gs[0].name in Names(fs);
      var i :| 0 <= i < |gs| && gs[i].name == fs[0].name;
      var j :| 0 <= j < |fs| && fs[j].name == gs[0].name;
      if i != 0 && j != 0 {
        BeforeIsStrict(fs[0].name, fs[j].name);
      }
      RestNames(fs);
      RestNames(gs);
      SortedNamesAgree(fs[1..], gs[1..]);
    }
  }

  lemma RestNames(fs: seq<Field>)
    requires fs != [] && Sorted(fs)
    ensures Names(fs[1..]) == Names(fs) - {fs[0].name}
  {
    forall i | 0 < i < |fs| ensures fs[i].name != fs[0].name {
      BeforeIsStrict(fs[0].name, fs[i].name);
    }
    forall n | n in Names(fs) && n != fs[0].name ensures n in Names(fs[1..]) {
      var i :| 0 <= i < |fs| && fs[i].name == n;
      assert fs[1..][i - 1] == fs[i];
    }
  }

  /** Main result: the printed form depends on nothing but names and values, at every depth. */
  lemma {:induction false} StringifyIgnoresOrder(v: Value, w: Value)
    requires WellFormed(v) && WellFormed(w) && Same(v, w)
    ensures Stringify(v) == Stringify(w)
    decreases v, 1
  {
    match (v, w)
    case (Arr(xs), Arr(ys)) => ItemsAgree(v, w, xs, ys);
    case (Obj(fs), Obj(gs)) =>
      var f, g := Sort(Defined(fs)), Sort(Defined(gs));
      DefinedKeeps(fs);
      DefinedKeeps(gs);
      SortSorts(Defined(fs));
      SortSorts(Defined(gs));
      SortMembers(Defined(fs));
      SortMembers(Defined(gs));
      assert Names(f) == Names(Defined(fs)) && Names(g) == Names(Defined(gs));
      SortedNamesAgree(f, g);
      forall i | 0 <= i < |f| ensures Same(f[i].value, g[i].value) {
        assert f[i] in f && g[i] in g;
      }
      FieldsAgree(v, w, f, g);
    case _ =>
  }

  lemma {:induction false} ItemsAgree(v: Value, w: Value, xs: seq<Value>, ys: seq<Value>)
    requires |xs| == |ys|
    requires forall x | x in xs :: x < v && WellFormed(x)
    requires forall y | y in ys :: y < w && WellFormed(y)
    requires forall i | 0 <= i < |xs| :: Same(xs[i], ys[i])
    ensures PrintItems(v, xs) == PrintItems(w, ys)
    decreases v, 0, |xs|
  {
    if xs != [] {
      assert xs[0] in xs && ys[0] in ys;
      assert (forall x | x in xs[1..] :: x in xs) && (forall y | y in ys[1..] :: y in ys);
      StringifyIgnoresOrder(xs[0], ys[0]);
      ItemsAgree(v, w, xs[1..], ys[1..]);
    }
  }

  lemma {:induction false} FieldsAgree(v: Value, w: Value, fs: seq<Field>, gs: seq<Field>)
    requires |fs| == |gs|
    requires forall f | f in fs :: f.value < v && WellFormed(f.value)
    requires forall g | g in gs :: g.value < w && WellFormed(g.value)
    requires forall i | 0 <= i < |fs| :: fs[i].name == gs[i].name && Same(fs[i].value, gs[i].value)
    ensures PrintFields(v, fs) == PrintFields(w, gs)
    decreases v, 0, |fs|
  {
    if fs != [] {
      StringifyIgnoresOrder(fs[0].value, gs[0].value);
      FieldsAgree(v, w, fs[1..], gs[1..]);
    }
  }

  lemma {:induction false} SameIsReflexive(v: Value)
    requires WellFormed(v)
    ensures Same(v, v)
    decreases v
  {
    match v
    case Arr(items) =>
      forall x | x in items ensures Same(x, x) { SameIsReflexive(x); }
    case Obj(fields) =>
      forall f, g | f in fields && g in fields && f.name == g.name ensures Same(f.value, g.value) {
        SameIsReflexive(f.value);
      }
    case _ =>
  }

  /** The same parameters inserted in another order give the same key. */
  lemma KeyIgnoresInsertionOrder(namespace: string, fs: seq<Field>, gs: seq<Field>)
    requires WellFormed(Obj(fs)) && WellFormed(Obj(gs)) && multiset(fs) == multiset(gs)
    ensures BuildKey(namespace, fs) == BuildKey(namespace, gs)
  {
    assert forall f :: f in fs <==> f in multiset(fs);
    assert forall g :: g in gs <==> g in multiset(gs);
    forall f, g | f in fs && g in gs && f.name == g.name ensures Same(f.value, g.value) {
      assert f in gs;
      SameIsReflexive(f.value);
    }
    StringifyIgnoresOrder(Obj(fs), Obj(gs));
  }

  // ---------------------------------------------------------------- equal keys, equal parameters

  predicate PlainName(name: string) { '&' !in name && '=' !in name }

  /** Undefined or any text, under a name without '&' and '='. */
  predicate PlainField(f: Field) { PlainName(f.name) && (f.value == Undefined || f.value.Scalar?) }

  ghost predicate Plain(fs: seq<Field>) { DistinctNames(fs) && forall f | f in fs :: PlainField(f) }

  /** A plain field whose text has no '&'. */
  predicate FlatField(f: Field) { PlainField(f) && (f.value.Scalar? ==> '&' !in f.value.text) }

  ghost predicate Flat(fs: seq<Field>) { DistinctNames(fs) && forall f | f in fs :: FlatField(f) }

  function IndexOf(s: string, c: char): (i: nat)
    ensures i <= |s| && c !in s[..i] && (i < |s| ==> s[i] == c)
  {
    if s == "" || s[0] == c then 0 else 1 + IndexOf(s[1..], c)
  }

  function Split(s: string, c: char): seq<string> {
    var i := IndexOf(s, c);
    if i == |s| then [s] else [s[..i]] + Split(s[i + 1..], c)
  }

  /** Reading a printed flat object back. */
  function Decode(s: string): seq<Field> {
    if s == "" then [] else DecodeAll(Split(s, '&'))
  }

  function DecodeAll(parts: seq<string>): seq<Field> {
    if parts == [] then [] else [DecodeOne(parts[0])] + DecodeAll(parts[1..])
  }

  function DecodeOne(part: string): Field {
    var i := IndexOf(part, '=');
    if i == |part| then Field(part, Undefined) else Field(part[..i], Scalar(part[i + 1..]))
  }

  lemma IndexOfConcat(a: string, c: char, b: string)
    requires c !in a
    ensures IndexOf(a + [c] + b, c) == |a|
  {
    if a == "" {
      assert (a + [c] + b)[0] == c;
    } else {
      assert (a + [c] + b)[1..] == a[1..] + [c] + b;
      assert forall x | x in a[1..] :: x in a;
      IndexOfConcat(a[1..], c, b);
    }
  }

  lemma SplitWhole(a: string, c: char)
    requires c !in a
    ensures IndexOf(a, c) == |a| && Split(a, c) == [a]
  {
    forall i | 0 <= i < |a| ensures a[i] != c {
      assert a[i] in a;
    }
  }

  lemma {:induction false} SplitJoin(parts: seq<string>, c: char)
    requires parts != [] && forall i | 0 <= i < |parts| :: c !in parts[i]
    ensures Split(Join(parts, c), c) == parts
  {
    var first, rest := parts[0], parts[1..];
    if rest == [] {
      SplitWhole(first, c);
      assert parts == [first];
    } else {
      SplitJoin(rest, c);
      SplitFirst(first, c, Join(rest, c));
      assert parts == [first] + rest;
    }
  }

  lemma SplitFirst(a: string, c: char, rest: string)
    requires c !in a
    ensures Split(a + [c] + rest, c) == [a] + Split(rest, c)
  {
    IndexOfConcat(a, c, rest);
    var s := a + [c] + rest;
    assert s[..|a|] == a && s[|a| + 1..] == rest;
  }

  lemma {:induction false} DecodeFields(whole: Value, fs: seq<Field>)
    requires forall f | f in fs :: f.value < whole && FlatField(f) && f.value.Scalar?
    ensures DecodeAll(PrintFields(whole, fs)) == fs
    ensures forall p | p in PrintFields(whole, fs) :: '&' !in p && p != ""
  {
    if fs != [] {
      var f := fs[0];
      assert f in fs;
      DecodeFields(whole, fs[1..]);
      IndexOfConcat(f.name, '=', f.value.text);
      var p := f.name + "=" + f.value.text;
      assert p == f.name + ['='] + f.value.text;
      assert p[..|f.name|] == f.name && p[|f.name| + 1..] == f.value.text;
    }
  }

  lemma JoinNonEmpty(parts: seq<string>, c: char)
    requires parts != [] && parts[0] != ""
    ensures Join(parts, c) != ""
  {
  }

  /** Round trip: a printed flat object decodes to its defined fields in sorted order. */
  lemma DecodeStringify(fs: seq<Field>)
    requires Flat(fs)
    ensures Decode(Stringify(Obj(fs))) == Sort(Defined(fs))
  {
    var sorted := Sort(Defined(fs));
    SortMembers(Defined(fs));
    DecodeFields(Obj(fs), sorted);
    var parts := PrintFields(Obj(fs), sorted);
    if sorted != [] {
      assert parts[0] in parts;
      JoinNonEmpty(parts, '&');
      SplitJoin(parts, '&');
    }
  }

  lemma KeysAgree(namespace: string, fs: seq<Field>, gs: seq<Field>)
    ensures BuildKey(namespace, fs) == BuildKey(namespace, gs) <==> Stringify(Obj(fs)) == Stringify(Obj(gs))
  {
    var a, b := Stringify(Obj(fs)), Stringify(Obj(gs));
    var prefix := "q:" + namespace;
    if a != "" && b != "" {
      assert (prefix + ":" + a)[|prefix| + 1..] == a && (prefix + ":" + b)[|prefix| + 1..] == b;
    } else {
      assert |prefix + ":" + a| == |prefix| + 1 + |a| && |prefix + ":" + b| == |prefix| + 1 + |b|;
    }
  }

  /** Main result: in one namespace, equal keys of flat parameters mean equal defined parameters. */
  lemma EqualKeysEqualParameters(namespace: string, fs: seq<Field>, gs: seq<Field>)
    requires Flat(fs) && Flat(gs)
    requires BuildKey(namespace, fs) == BuildKey(namespace, gs)
    ensures forall f :: f in Defined(fs) <==> f in Defined(gs)
  {
    KeysAgree(namespace, fs, gs);
    DecodeStringify(fs);
    DecodeStringify(gs);
    SortMembers(Defined(fs));
    SortMembers(Defined(gs));
  }

  // ---------------------------------------------------------------- arrays and null

  function Texts(xs: seq<string>): seq<Value> { seq(|xs|, i requires 0 <= i < |xs| => Scalar(xs[i])) }

  lemma {:induction false} PrintTexts(whole: Value, xs: seq<string>)
    requires forall v | v in Texts(xs) :: v < whole
    ensures PrintItems(whole, Texts(xs)) == xs
  {
    if xs != [] {
      assert Texts(xs)[0] in Texts(xs) && Texts(xs)[1..] == Texts(xs[1..]);
      assert forall v | v in Texts(xs[1..]) :: v in Texts(xs);
      PrintTexts(whole, xs[1..]);
    }
  }

  lemma PrintedArray(xs: seq<string>)
    ensures Stringify(Arr(Texts(xs))) == "[" + Join(xs, ',') + "]"
  {
    var whole := Arr(Texts(xs));
    forall v | v in Texts(xs) ensures v < whole { assert v in whole.items; }
    PrintTexts(whole, xs);
  }

  /** Two arrays of texts without commas print alike exactly when they are equal, or empty and one empty text. */
  lemma ArraysPrintAlikeIff(xs: seq<string>, ys: seq<string>)
    requires (forall x | x in xs :: ',' !in x) && forall y | y in ys :: ',' !in y
    ensures Stringify(Arr(Texts(xs))) == Stringify(Arr(Texts(ys))) <==>
            xs == ys || (xs == [] && ys == [""]) || (xs == [""] && ys == [])
  {
    PrintedArray(xs);
    PrintedArray(ys);
    var a, b := Join(xs, ','), Join(ys, ',');
    assert ("[" + a + "]")[1..|a| + 1] == a && ("[" + b + "]")[1..|b| + 1] == b;
    assert |"[" + a + "]"| == |a| + 2 && |"[" + b + "]"| == |b| + 2;
    if xs != [] { SplitJoin(xs, ','); }
    if ys != [] { SplitJoin(ys, ','); }
    assert Split("", ',') == [""];
  }

  /** Null prints as nothing, so it shares its key with the empty text. */
  lemma NullIsEmptyText(namespace: string, name: string)
    ensures BuildKey(namespace, [Field(name, Null)]) == BuildKey(namespace, [Field(name, Scalar(""))])
    ensures Stringify(Obj([Field(name, Null)])) == name + "="
  {
    var fs := [Field(name, Null)];
    assert fs[1..] == [] && Defined([]) == [] && Defined(fs) == fs && Sort([]) == [];
    assert Sort(fs) == Insert(fs[0], []) == fs && Obj(fs).fields[0] == fs[0];
    assert PrintFields(Obj(fs), fs) == [name + "=" + ""] + PrintFields(Obj(fs), fs[1..]);
    assert name + "=" + "" == name + "=";
    PrintSingle(name, "");
  }

  // ---------------------------------------------------------------- which ampersands collide

  /** The text of a field, cut at an ampersand that starts a later field. */
  predicate Cut(n: string, v: string, t: string, m: string, u: string) {
    v == t + "&" + m + "=" + u && PlainName(m) && Before(n, m)
  }

  /** Other parameters with the key of the one field n=v. */
  ghost predicate Collides(namespace: string, n: string, v: string, gs: seq<Field>) {
    && Plain(gs)
    && BuildKey(namespace, [Field(n, Scalar(v))]) == BuildKey(namespace, gs)
    && (set g | g in Defined(gs)) != {Field(n, Scalar(v))}
  }

  /** The printed form of fields in this order. */
  function PrintedFrom(whole: Value, fs: seq<Field>): string
    requires forall f | f in fs :: f.value < whole
  {
    Join(PrintFields(whole, fs), '&')
  }

  lemma PrintOne(whole: Value, f: Field)
    requires f.value < whole && f.value.Scalar?
    ensures PrintedFrom(whole, [f]) == f.name + "=" + f.value.text
  {
    assert PrintFields(whole, [f]) == [f.name + "=" + f.value.text] + PrintFields(whole, [f][1..]);
  }

  lemma PrintMore(whole: Value, f: Field, rest: seq<Field>)
    requires f.value < whole && f.value.Scalar? && rest != [] && forall g | g in rest :: g.value < whole
    ensures forall g | g in [f] + rest :: g.value < whole
    ensures PrintedFrom(whole, [f] + rest) == f.name + "=" + f.value.text + "&" + PrintedFrom(whole, rest)
  {
    assert ([f] + rest)[1..] == rest;
    assert PrintFields(whole, [f] + rest) == [f.name + "=" + f.value.text] + PrintFields(whole, rest);
  }

  lemma PrintSingle(n: string, v: string)
    ensures Stringify(Obj([Field(n, Scalar(v))])) == n + "=" + v
  {
    var fs := [Field(n, Scalar(v))];
    assert fs[1..] == [] && Defined(fs) == fs && Sort(fs) == fs && Obj(fs).fields[0] == fs[0];
    PrintOne(Obj(fs), fs[0]);
  }

  lemma PrintPair(n: string, t: string, m: string, u: string)
    requires Before(n, m)
    ensures var fs := [Field(n, Scalar(t)), Field(m, Scalar(u))];
            Defined(fs) == fs && Stringify(Obj(fs)) == n + "=" + t + "&" + m + "=" + u
  {
    var a, b := Field(n, Scalar(t)), Field(m, Scalar(u));
    var fs := [a, b];
    assert fs[1..] == [b] && [b][1..] == [] && Defined([b]) == [b] && Sort([b]) == [b];
    assert Sort(fs) == Insert(a, [b]) == [a] + [b] == fs;
    assert Obj(fs).fields[0] == a && Obj(fs).fields[1] == b;
    PrintMore(Obj(fs), a, [b]);
    PrintOne(Obj(fs), b);
    assert PrintedFrom(Obj(fs), fs) == n + "=" + t + "&" + (m + "=" + u) == n + "=" + t + "&" + m + "=" + u;
  }

  /** Two texts cut at their first '=' agree on both sides. */
  lemma FirstEquals(n: string, v: string, m: string, w: string)
    requires '=' !in n && '=' !in m && n + "=" + v == m + "=" + w
    ensures n == m && v == w
  {
    IndexOfConcat(n, '=', v);
    IndexOfConcat(m, '=', w);
    var s := n + ['='] + v;
    assert s == n + "=" + v == m + ['='] + w;
    assert s[..|n|] == n && s[|n| + 1..] == v && s[..|m|] == m && s[|m| + 1..] == w;
  }

  /** A print of at least one field starts with the first one's name and an equals sign. */
  lemma PrintedHead(whole: Value, fs: seq<Field>) returns (u: string)
    requires fs != [] && forall f | f in fs :: f.value < whole && f.value.Scalar?
    ensures PrintedFrom(whole, fs) == fs[0].name + "=" + u
    ensures |fs| == 1 ==> u == fs[0].value.text
    ensures |fs| > 1 ==> u == fs[0].value.text + "&" + PrintedFrom(whole, fs[1..])
  {
    var f, rest := fs[0], fs[1..];
    assert fs == [f] + rest;
    if rest == [] {
      u := f.value.text;
      assert fs == [f];
      PrintOne(whole, f);
    } else {
      u := f.value.text + "&" + PrintedFrom(whole, rest);
      PrintMore(whole, f, rest);
      Glue(f.name + "=", f.value.text, "&", PrintedFrom(whole, rest));
    }
  }

  lemma Glue(a: string, b: string, c: string, d: string)
    ensures a + b + c + d == a + (b + c + d)
    ensures a + b + (c + d) == a + b + c + d
  {
  }

  /** Sorted plain fields that print as n=v: that one field, or v is cut. */
  lemma PrintedAsOne(whole: Value, fs: seq<Field>, n: string, v: string) returns (t: string, m: string, u: string)
    requires forall f | f in fs :: f.value < whole && PlainField(f) && f.value.Scalar?
    requires Sorted(fs) && PlainName(n) && PrintedFrom(whole, fs) == n + "=" + v
    ensures fs == [Field(n, Scalar(v))] || Cut(n, v, t, m, u)
  {
    assert fs != [] by { assert (n + "=" + v)[|n|] == '='; }
    var w := PrintedHead(whole, fs);
    assert fs[0] in fs;
    FirstEquals(n, v, fs[0].name, w);
    t, m, u := fs[0].value.text, "", "";
    if |fs| == 1 {
      assert fs[0] == Field(n, Scalar(v));
    } else {
      m := fs[1].name;
      assert fs[1] in fs && fs[1..][0] == fs[1];
      u := PrintedHead(whole, fs[1..]);
      Glue(t, "&", m + "=", u);
      Glue(t + "&", m, "=", u);
    }
  }

  /** A cut text collides with the two fields it falls apart into. */
  lemma CutCollides(namespace: string, n: string, v: string, t: string, m: string, u: string)
    requires PlainName(n) && Cut(n, v, t, m, u)
    ensures Collides(namespace, n, v, [Field(n, Scalar(t)), Field(m, Scalar(u))])
  {
    var gs := [Field(n, Scalar(t)), Field(m, Scalar(u))];
    PrintSingle(n, v);
    PrintPair(n, t, m, u);
    KeysAgree(namespace, [Field(n, Scalar(v))], gs);
    CutPrints(n, v, t, m, u);
    BeforeIsStrict(n, m);
    assert gs[1] in (set g | g in gs);
  }

  lemma CutPrints(n: string, v: string, t: string, m: string, u: string)
    requires v == t + "&" + m + "=" + u
    ensures n + "=" + v == n + "=" + t + "&" + m + "=" + u
  {
    Glue(n + "=" + t, "&", m, "=" + u);
    Glue(t, "&" + m, "=", u);
  }

  /** Whatever collides with n=v shows where its text is cut. */
  lemma CollisionIsCut(namespace: string, n: string, v: string, gs: seq<Field>)
    returns (t: string, m: string, u: string)
    requires PlainName(n) && Collides(namespace, n, v, gs)
    ensures Cut(n, v, t, m, u)
  {
    var sorted := Sort(Defined(gs));
    SortMembers(Defined(gs));
    DefinedKeeps(gs);
    SortSorts(Defined(gs));
    KeysAgree(namespace, [Field(n, Scalar(v))], gs);
    PrintSingle(n, v);
    t, m, u := PrintedAsOne(Obj(gs), sorted, n, v);
    assert (set g | g in Defined(gs)) == (set g | g in sorted);
    assert sorted == [Field(n, Scalar(v))] ==> (set g | g in sorted) == {Field(n, Scalar(v))};
  }

  /**
   * Main result. The key of one field n=v, whatever its text, is the key of other plain parameters exactly when the
   * text has an ampersand followed by a plain name that sorts after n and an equals sign.
   */
  lemma AmpersandCollidesIff(namespace: string, n: string, v: string)
    requires PlainName(n)
    ensures (exists gs :: Collides(namespace, n, v, gs)) <==> exists t, m, u :: Cut(n, v, t, m, u)
  {
    if gs :| Collides(namespace, n, v, gs) {
      var t, m, u := CollisionIsCut(namespace, n, v, gs);
    }
    if t, m, u :| Cut(n, v, t, m, u) {
      CutCollides(namespace, n, v, t, m, u);
    }
  }
}
