/**
 `pattern(fnPattern)` of pattern-matcher.js: the builder callback receives a
 context whose `sym(name)` allocates one fresh symbol per distinct name, the
 allocations are inverted into a table from symbol to name, and the result
 is the matcher closed over that table and the built pattern.

 The builder is modelled by a `Template`, the shape of the value it returns
 with its `sym` and `$rest` uses left in place; building evaluates it left to
 right as JavaScript evaluates the literals. `Symbol()` yields a symbol
 distinct from every symbol that exists; the model hands out tokens from a
 counter, starting at `first`, the first token not yet in use when `pattern`
 is called.
 */
module Allocator {
  import opened Values
  import opened Outcomes
  import opened Matcher
  import opened Positions

  /** The `symbols` map of `pattern`, name to token, and the token the next
      `Symbol()` call returns. */
  datatype Registry = Registry(tokens: map<string, Token>, next: Token)

  /** No two names share a token. */
  predicate Injective(m: map<string, Token>) {
    forall a, b :: a in m && b in m && m[a] == m[b] ==> a == b
  }

  /** Every allocated token is younger than `rest` (the context's `$rest`,
      created first) and older than `next`, and no two names share one. */
  predicate Valid(r: Registry, rest: Token) {
    && rest < r.next
    && (forall n :: n in r.tokens ==> rest < r.tokens[n] < r.next)
    && Injective(r.tokens)
  }

  /** `big` keeps every allocation of `small`. */
  predicate Extends(big: Registry, small: Registry) {
    && small.next <= big.next
    && forall n :: n in small.tokens ==> n in big.tokens && big.tokens[n] == small.tokens[n]
  }

  /** The context's `sym(name)`: the token already allocated for `name`, or
      a fresh one, recorded for later calls. */
  function Intern(r: Registry, name: string): (res: (Registry, Token))
    ensures name in res.0.tokens && res.0.tokens[name] == res.1
    ensures res.0.tokens.Keys == r.tokens.Keys + {name}
    ensures Extends(res.0, r)
    ensures name in r.tokens ==> res.0 == r
    ensures name !in r.tokens ==> res.0.next > res.1 >= r.next
    ensures (name !in r.tokens && forall n :: n in r.tokens ==> r.tokens[n] < r.next) ==>
              res.1 !in r.tokens.Values
  {
    if name in r.tokens then (r, r.tokens[name])
    else (Registry(r.tokens[name := r.next], r.next + 1), r.next)
  }

  /** Asking again for a name returns the same token and allocates nothing. */
  lemma InternIdempotent(r: Registry, name: string)
    ensures Intern(Intern(r, name).0, name) == Intern(r, name)
  {
  }

  /** Allocation keeps the registry valid: distinct names keep distinct
      tokens, all of them fresh with respect to `$rest`. */
  lemma InternValid(r: Registry, rest: Token, name: string)
    requires Valid(r, rest)
    ensures Valid(Intern(r, name).0, rest)
  {
  }

  /** Two distinct names never receive the same token. */
  lemma InternDistinct(r: Registry, rest: Token, a: string, b: string)
    requires Valid(r, rest) && a != b
    ensures var (r1, ta) := Intern(r, a);
            Intern(r1, b).1 != ta
  {
    InternValid(r, rest, a);
    InternValid(Intern(r, a).0, rest, b);
  }

  /** The inverted map `new Map(entries.map(([name, symbol]) => [symbol, name]))`. */
  function Invert(r: Registry): (table: Table)
    requires Injective(r.tokens)
    ensures table.Keys == r.tokens.Values
    ensures forall n :: n in r.tokens ==> table[r.tokens[n]] == n
    ensures forall t :: t in table ==> table[t] in r.tokens && r.tokens[table[t]] == t
  {
    map n | n in r.tokens :: r.tokens[n] := n
  }

  // ---------------------------------------------------------------------
  // The builder
  // ---------------------------------------------------------------------

  /** A key of an object literal in the builder: a fixed key, the computed
      key `[$rest]`, or a computed key `[sym(name)]`. */
  datatype FieldKey = Fixed(key: Key) | RestKey | SymName(name: string)

  /** The value the builder returns, with its uses of the context left in
      place. The fields of a `Record` are listed in own-key order. `Then`
      is a `sym(name)` call whose result is dropped before `body` is
      evaluated, as in a comma expression or a statement of a block body;
      a block body that returns nothing ends in `Lit(Undefined)`. */
  datatype Template =
    | Lit(value: Value)
    | Var(name: string)
    | RestSym
    | List(items: seq<Template>)
    | Record(fields: seq<(FieldKey, Template)>)
    | Then(name: string, body: Template)

  /** The key a field key stands for, given the allocations the builder
      made: a computed `[sym(name)]` is the symbol allocated for `name`. */
  function KeyIn(k: FieldKey, rest: Token, tokens: map<string, Token>): Key {
    match k
    case Fixed(key) => key
    case RestKey => SymKey(rest)
    case SymName(name) => if name in tokens then SymKey(tokens[name]) else SymKey(rest)
  }

  /** Every symbol standing in pattern position inside a literal existed
      before `pattern` was called. */
  predicate LiteralsBefore(t: Template, first: Token)
    decreases t, 1, 0
  {
    match t
    case Lit(v) => forall o :: o in Occurrences(v) ==> o.token < first
    case Var(_) => true
    case RestSym => true
    case List(items) => ItemLiteralsBefore(t, first, |items|)
    case Record(fields) => FieldLiteralsBefore(t, first, |fields|)
    case Then(_, body) => LiteralsBefore(body, first)
  }

  predicate ItemLiteralsBefore(t: Template, first: Token, n: nat)
    requires t.List? && n <= |t.items|
    decreases t, 0, n
  {
    n > 0 ==> ItemLiteralsBefore(t, first, n - 1) && LiteralsBefore(t.items[n - 1], first)
  }

  predicate FieldLiteralsBefore(t: Template, first: Token, n: nat)
    requires t.Record? && n <= |t.fields|
    decreases t, 0, n
  {
    n > 0 ==> FieldLiteralsBefore(t, first, n - 1) && LiteralsBefore(t.fields[n - 1].1, first)
  }

  /** Running the builder: left to right, each `sym` call consults and
      extends the registry. Allocations are never revised and the registry
      stays valid. */
  function Build(r: Registry, rest: Token, t: Template): (res: (Value, Registry))
    ensures Extends(res.1, r)
    ensures Valid(r, rest) ==> Valid(res.1, rest)
    ensures t.List? ==> res.0.Arr? && |res.0.elems| == |t.items|
    ensures t.Record? ==> res.0.Obj? && |res.0.fields| == |t.fields|
    decreases t, 1, 0
  {
    match t
    case Lit(v) => (v, r)
    case Var(name) =>
      var (r', tok) := Intern(r, name);
      (Sym(tok), r')
    case RestSym => (Sym(rest), r)
    case List(items) =>
      var (vs, r') := BuildItems(r, rest, t, |items|);
      (Arr(vs), r')
    case Record(fields) =>
      var (fs, r') := BuildFields(r, rest, t, |fields|);
      (Obj(fs), r')
    case Then(name, body) =>
      Build(Intern(r, name).0, rest, body)
  }

  /** Evaluating a key of an object literal: a computed `[sym(name)]` calls
      `sym` before the property's value is evaluated. */
  function BuildKey(r: Registry, rest: Token, k: FieldKey): (res: (Key, Registry))
    ensures Extends(res.1, r)
    ensures Valid(r, rest) ==> Valid(res.1, rest)
    ensures k.SymName? ==> k.name in res.1.tokens && res.0 == SymKey(res.1.tokens[k.name])
    ensures !k.SymName? ==> res.1 == r
  {
    match k
    case SymName(name) =>
      var (r', tok) := Intern(r, name);
      (SymKey(tok), r')
    case _ => (KeyIn(k, rest, map[]), r)
  }

  function BuildItems(r: Registry, rest: Token, t: Template, n: nat): (res: (seq<Value>, Registry))
    requires t.List? && n <= |t.items|
    ensures |res.0| == n
    ensures Extends(res.1, r)
    ensures Valid(r, rest) ==> Valid(res.1, rest)
    decreases t, 0, n
  {
    if n == 0 then ([], r)
    else
      var (vs, r') := BuildItems(r, rest, t, n - 1);
      var (v, r'') := Build(r', rest, t.items[n - 1]);
      (vs + [v], r'')
  }

  function BuildFields(r: Registry, rest: Token, t: Template, n: nat): (res: (seq<(Key, Value)>, Registry))
    requires t.Record? && n <= |t.fields|
    ensures |res.0| == n
    ensures Extends(res.1, r)
    ensures Valid(r, rest) ==> Valid(res.1, rest)
    decreases t, 0, n
  {
    if n == 0 then ([], r)
    else
      var (fs, r') := BuildFields(r, rest, t, n - 1);
      var (k, sub) := t.fields[n - 1];
      var (key, r1) := BuildKey(r', rest, k);
      var (v, r'') := Build(r1, rest, sub);
      (fs + [(key, v)], r'')
  }

  /** The registry `pattern` starts from: `$rest` took `first`, nothing is
      allocated yet. */
  function Fresh(first: Token): (r: Registry)
    ensures Valid(r, first)
  {
    Registry(map[], first + 1)
  }

  /** What `pattern(fnPattern)` closes over: the built pattern and the
      inverted symbol table. */
  datatype Compiled = Compiled(pattern: Value, table: Table)

  /** The `symbols` map of `pattern` once the builder has returned. */
  function Allocations(t: Template, first: Token): map<string, Token> {
    Build(Fresh(first), first, t).1.tokens
  }

  /** `pattern(fnPattern)`. Only `sym` tokens are registered: `$rest` and
      every older symbol are not. */
  function Compile(t: Template, first: Token): (c: Compiled)
    ensures forall tok :: tok in c.table ==> tok > first
  {
    var (p, r) := Build(Fresh(first), first, t);
    Compiled(p, Invert(r))
  }

  /** The returned closure `(thing) => matcher(invertedMap, pattern, thing)`. */
  function Run(c: Compiled, subject: Value): (r: Outcome)
    ensures r.Success? ==> r.bindings.Keys <= c.table.Values
  {
    Match(c.table, c.pattern, subject)
  }

  // ---------------------------------------------------------------------
  // Variables of the builder
  // ---------------------------------------------------------------------

  /** The builder's `sym` uses that land in the returned value, with their
      paths, in the order the matcher visits them. A dropped call and a
      computed key place no variable; `tokens` supplies the symbols of
      computed keys along the way. */
  function TemplateVars(t: Template, rest: Token, tokens: map<string, Token>): seq<Binder>
    decreases t, 1, 0
  {
    match t
    case Lit(_) => []
    case Var(name) => [([], name)]
    case RestSym => []
    case List(items) => ItemVars(t, rest, tokens, |items|)
    case Record(fields) => FieldVars(t, rest, tokens, |fields|)
    case Then(_, body) => TemplateVars(body, rest, tokens)
  }

  function ItemVars(t: Template, rest: Token, tokens: map<string, Token>, n: nat): seq<Binder>
    requires t.List? && n <= |t.items|
    decreases t, 0, n
  {
    if n == 0 then []
    else
      ItemVars(t, rest, tokens, n - 1)
        + UnderVars(Index(n - 1), TemplateVars(t.items[n - 1], rest, tokens))
  }

  function FieldVars(t: Template, rest: Token, tokens: map<string, Token>, n: nat): seq<Binder>
    requires t.Record? && n <= |t.fields|
    decreases t, 0, n
  {
    if n == 0 then []
    else
      var (k, sub) := t.fields[n - 1];
      FieldVars(t, rest, tokens, n - 1)
        + UnderVars(Prop(KeyIn(k, rest, tokens)), TemplateVars(sub, rest, tokens))
  }

  // ---------------------------------------------------------------------
  // The value the builder returns
  // ---------------------------------------------------------------------

  /** The template read as a value once `tokens` is known: each `sym(name)`
      is the symbol allocated for `name`, `$rest` is itself, literals and
      fixed keys are as written, and a dropped call leaves no trace. */
  function Place(t: Template, rest: Token, tokens: map<string, Token>): Value
    decreases t, 1, 0
  {
    match t
    case Lit(v) => v
    case Var(name) => if name in tokens then Sym(tokens[name]) else Sym(rest)
    case RestSym => Sym(rest)
    case List(items) => Arr(PlaceItems(t, rest, tokens, |items|))
    case Record(fields) => Obj(PlaceFields(t, rest, tokens, |fields|))
    case Then(_, body) => Place(body, rest, tokens)
  }

  function PlaceItems(t: Template, rest: Token, tokens: map<string, Token>, n: nat): seq<Value>
    requires t.List? && n <= |t.items|
    decreases t, 0, n
  {
    if n == 0 then []
    else PlaceItems(t, rest, tokens, n - 1) + [Place(t.items[n - 1], rest, tokens)]
  }

  function PlaceFields(t: Template, rest: Token, tokens: map<string, Token>, n: nat): seq<(Key, Value)>
    requires t.Record? && n <= |t.fields|
    decreases t, 0, n
  {
    if n == 0 then []
    else
      var (k, sub) := t.fields[n - 1];
      PlaceFields(t, rest, tokens, n - 1) + [(KeyIn(k, rest, tokens), Place(sub, rest, tokens))]
  }

  /** The builder returns its template with every `sym` use replaced by the
      token finally allocated for its name and everything else as written. */
  lemma {:induction false} BuildPlaces(r: Registry, rest: Token, t: Template, big: Registry)
    requires Extends(big, Build(r, rest, t).1)
    ensures Build(r, rest, t).0 == Place(t, rest, big.tokens)
    decreases t, 1, 0
  {
    match t
    case Lit(_) =>
    case Var(name) =>
    case RestSym =>
    case List(items) =>
      ItemsPlace(r, rest, t, |items|, big);
    case Record(fields) =>
      FieldsPlace(r, rest, t, |fields|, big);
    case Then(name, body) =>
      BuildPlaces(Intern(r, name).0, rest, body, big);
  }

  lemma {:induction false} ItemsPlace(r: Registry, rest: Token, t: Template, n: nat, big: Registry)
    requires t.List? && n <= |t.items|
    requires Extends(big, BuildItems(r, rest, t, n).1)
    ensures BuildItems(r, rest, t, n).0 == PlaceItems(t, rest, big.tokens, n)
    decreases t, 0, n
  {
    if n > 0 {
      var (vs, r') := BuildItems(r, rest, t, n - 1);
      var (v, r'') := Build(r', rest, t.items[n - 1]);
      assert BuildItems(r, rest, t, n) == (vs + [v], r'');
      ItemsPlace(r, rest, t, n - 1, big);
      BuildPlaces(r', rest, t.items[n - 1], big);
    }
  }

  lemma {:induction false} FieldsPlace(r: Registry, rest: Token, t: Template, n: nat, big: Registry)
    requires t.Record? && n <= |t.fields|
    requires Extends(big, BuildFields(r, rest, t, n).1)
    ensures BuildFields(r, rest, t, n).0 == PlaceFields(t, rest, big.tokens, n)
    decreases t, 0, n
  {
    if n > 0 {
      var (fs, r') := BuildFields(r, rest, t, n - 1);
      var (k, sub) := t.fields[n - 1];
      var (key, r1) := BuildKey(r', rest, k);
      var (v, r'') := Build(r1, rest, sub);
      assert BuildFields(r, rest, t, n) == (fs + [(key, v)], r'');
      FieldsPlace(r, rest, t, n - 1, big);
      BuildKeyIn(r', rest, k, big);
      BuildPlaces(r1, rest, sub, big);
    }
  }

  /** The compiled pattern is the template with its final allocations
      substituted. */
  lemma CompilePlaces(t: Template, first: Token)
    ensures Compile(t, first).pattern == Place(t, first, Allocations(t, first))
  {
    BuildPlaces(Fresh(first), first, t, Build(Fresh(first), first, t).1);
  }

  lemma {:induction false} NamedUnregistered(table: Table, occs: seq<Occurrence>)
    requires forall o :: o in occs ==> o.token !in table
    ensures Named(table, occs) == []
  {
    if |occs| > 0 {
      assert occs[|occs| - 1] in occs;
      assert forall o :: o in occs[..|occs| - 1] ==> o in occs;
      NamedUnregistered(table, occs[..|occs| - 1]);
    }
  }

  lemma {:induction false} ElementOccurrencesPrefix(xs: seq<Value>, ys: seq<Value>, k: nat)
    requires k <= |xs| && k <= |ys| && xs[..k] == ys[..k]
    ensures ElementOccurrences(Arr(xs), k) == ElementOccurrences(Arr(ys), k)
  {
    if k > 0 {
      assert xs[k - 1] == xs[..k][k - 1] == ys[..k][k - 1] == ys[k - 1];
      assert xs[..k - 1] == xs[..k][..k - 1];
      assert ys[..k - 1] == ys[..k][..k - 1];
      ElementOccurrencesPrefix(xs, ys, k - 1);
    }
  }

  lemma {:induction false} FieldOccurrencesPrefix(xs: seq<(Key, Value)>, ys: seq<(Key, Value)>, k: nat)
    requires k <= |xs| && k <= |ys| && xs[..k] == ys[..k]
    ensures FieldOccurrences(Obj(xs), k) == FieldOccurrences(Obj(ys), k)
  {
    if k > 0 {
      assert xs[k - 1] == xs[..k][k - 1] == ys[..k][k - 1] == ys[k - 1];
      assert xs[..k - 1] == xs[..k][..k - 1];
      assert ys[..k - 1] == ys[..k][..k - 1];
      FieldOccurrencesPrefix(xs, ys, k - 1);
    }
  }

  /** A `sym` use places its own token, which the table maps to its name. */
  lemma VarVars(r: Registry, rest: Token, name: string, big: Registry)
    requires Valid(big, rest) && Extends(big, Build(r, rest, Var(name)).1)
    ensures Named(Invert(big), Occurrences(Build(r, rest, Var(name)).0)) == [([], name)]
  {
    var tok := Intern(r, name).1;
    assert Build(r, rest, Var(name)).0 == Sym(tok);
    assert Invert(big)[tok] == name;
    var occs := [Occurrence([], tok)];
    assert Occurrences(Sym(tok)) == occs;
    assert occs[..0] == [];
  }

  /** `$rest` is never registered. */
  lemma RestVars(rest: Token, big: Registry)
    requires Valid(big, rest)
    ensures Named(Invert(big), Occurrences(Sym(rest))) == []
  {
    var occs := [Occurrence([], rest)];
    assert Occurrences(Sym(rest)) == occs;
    assert occs[..0] == [];
    assert rest !in Invert(big);
  }

  /** The key a field key evaluates to is the one `KeyIn` reads off any
      registry that keeps the builder's allocations. */
  lemma BuildKeyIn(r: Registry, rest: Token, k: FieldKey, big: Registry)
    requires Extends(big, BuildKey(r, rest, k).1)
    ensures BuildKey(r, rest, k).0 == KeyIn(k, rest, big.tokens)
  {
  }

  /** Under any valid registry that keeps the builder's allocations, the
      registered tokens of the built pattern are exactly the builder's
      `sym` uses in value position, with their names, at the same paths and
      in the same order. */
  lemma {:induction false} BuildVars(r: Registry, rest: Token, t: Template, big: Registry)
    requires Valid(r, rest) && LiteralsBefore(t, rest)
    requires Valid(big, rest) && Extends(big, Build(r, rest, t).1)
    ensures Named(Invert(big), Occurrences(Build(r, rest, t).0)) == TemplateVars(t, rest, big.tokens)
    decreases t, 1, 0
  {
    match t
    case Lit(v) =>
      NamedUnregistered(Invert(big), Occurrences(v));
    case Var(name) =>
      VarVars(r, rest, name, big);
    case RestSym =>
      RestVars(rest, big);
    case List(items) =>
      ItemsVars(r, rest, t, |items|, big);
    case Record(fields) =>
      FieldsVars(r, rest, t, |fields|, big);
    case Then(name, body) =>
      InternValid(r, rest, name);
      BuildVars(Intern(r, name).0, rest, body, big);
  }

  lemma {:induction false} ItemsVars(r: Registry, rest: Token, t: Template, n: nat, big: Registry)
    requires t.List? && n <= |t.items|
    requires Valid(r, rest) && ItemLiteralsBefore(t, rest, n)
    requires Valid(big, rest) && Extends(big, BuildItems(r, rest, t, n).1)
    ensures Named(Invert(big), ElementOccurrences(Arr(BuildItems(r, rest, t, n).0), n))
         == ItemVars(t, rest, big.tokens, n)
    decreases t, 0, n
  {
    if n > 0 {
      var table := Invert(big);
      var (vs, r') := BuildItems(r, rest, t, n - 1);
      var sub := t.items[n - 1];
      var (v, r'') := Build(r', rest, sub);
      var all := vs + [v];
      assert BuildItems(r, rest, t, n).0 == all;
      assert all[..n - 1] == vs[..n - 1];
      ElementOccurrencesPrefix(all, vs, n - 1);
      ItemsVars(r, rest, t, n - 1, big);
      BuildVars(r', rest, sub, big);
      assert all[n - 1] == v;
      NamedAppend(table, ElementOccurrences(Arr(vs), n - 1), Under(Index(n - 1), Occurrences(v)));
      NamedUnder(table, Index(n - 1), Occurrences(v));
    }
  }

  lemma {:induction false} FieldsVars(r: Registry, rest: Token, t: Template, n: nat, big: Registry)
    requires t.Record? && n <= |t.fields|
    requires Valid(r, rest) && FieldLiteralsBefore(t, rest, n)
    requires Valid(big, rest) && Extends(big, BuildFields(r, rest, t, n).1)
    ensures Named(Invert(big), FieldOccurrences(Obj(BuildFields(r, rest, t, n).0), n))
         == FieldVars(t, rest, big.tokens, n)
    decreases t, 0, n
  {
    if n > 0 {
      var table := Invert(big);
      var (fs, r') := BuildFields(r, rest, t, n - 1);
      var (k, sub) := t.fields[n - 1];
      var (key, r1) := BuildKey(r', rest, k);
      var (v, r'') := Build(r1, rest, sub);
      var all := fs + [(key, v)];
      assert BuildFields(r, rest, t, n).0 == all;
      assert all[..n - 1] == fs[..n - 1];
      FieldOccurrencesPrefix(all, fs, n - 1);
      FieldsVars(r, rest, t, n - 1, big);
      BuildKeyIn(r', rest, k, big);
      BuildVars(r1, rest, sub, big);
      assert all[n - 1] == (key, v);
      NamedAppend(table, FieldOccurrences(Obj(fs), n - 1), Under(Prop(key), Occurrences(v)));
      NamedUnder(table, Prop(key), Occurrences(v));
    }
  }

  /** The compiled pattern registers exactly the builder's `sym` uses in
      value position: `$rest`, older symbols and symbols used only as keys
      stay ordinary symbols compared by identity. */
  lemma CompileRegistersVariables(t: Template, first: Token)
    requires LiteralsBefore(t, first)
    ensures var c := Compile(t, first);
            Named(c.table, Occurrences(c.pattern)) == TemplateVars(t, first, Allocations(t, first))
  {
    var r := Build(Fresh(first), first, t).1;
    BuildVars(Fresh(first), first, t, r);
  }

  /** What the closure returned by `pattern` binds on success: every `sym`
      use placed in the returned value, its name bound to the subject's
      part at the last position where that name was placed. */
  lemma CompiledBindings(t: Template, first: Token, subject: Value)
    requires LiteralsBefore(t, first)
    requires Run(Compile(t, first), subject).Success?
    ensures Run(Compile(t, first), subject).bindings
         == Gather(TemplateVars(t, first, Allocations(t, first)), subject)
  {
    var c := Compile(t, first);
    CompileRegistersVariables(t, first);
    MatchBindings(c.table, c.pattern, subject);
  }

  /** On success a name is bound exactly when the builder placed a `sym`
      use of it in the returned value: a name whose calls were all dropped
      or used as keys is in the table but never bound. */
  lemma CompiledBindsPlacedNames(t: Template, first: Token, subject: Value)
    requires LiteralsBefore(t, first)
    requires Run(Compile(t, first), subject).Success?
    ensures var vars := TemplateVars(t, first, Allocations(t, first));
            forall n :: n in Run(Compile(t, first), subject).bindings
                    <==> exists j :: 0 <= j < |vars| && vars[j].1 == n
  {
    var vars := TemplateVars(t, first, Allocations(t, first));
    CompiledBindings(t, first, subject);
    GatherDomain(vars, subject);
  }

  /** A dropped `sym(name)` call still enters `name` in the table. */
  lemma ThenRegisters(name: string, body: Template, first: Token)
    ensures name in Compile(Then(name, body), first).table.Values
  {
    var r0 := Fresh(first);
    var r1 := Intern(r0, name).0;
    var r := Build(r0, first, Then(name, body)).1;
    assert r == Build(r1, first, body).1;
    assert name in r.tokens;
    var table := Invert(r);
    assert table[r.tokens[name]] == name;
  }
}
