/**
 The recursive structural matcher `matcher(symbols, pattern, obj)` of
 pattern-matcher.js, and what it computes for each kind of pattern.
 */
module Matcher {
  import opened Values
  import opened Outcomes

  /** The inverted symbol table built by `pattern`: each registered token
      to the variable name it was allocated for. */
  type Table = map<Token, string>

  /** `pattern === obj` for a primitive pattern: an empty binding or failure. */
  function StrictEquals(p: Value, s: Value): (r: Outcome)
    ensures !r.TypeError?
    ensures r.Success? <==> p == s
    ensures r.Success? ==> r.bindings == map[]
  {
    if p == s then Success(map[]) else Failure
  }

  /** The matcher. Arrays match element-wise and objects key-wise, by the
      reduce folds below; `null` is an object without keys, so reading its
      keys throws; a registered token binds its name to the whole subject;
      every other pattern is compared with `===`. Only names of the table
      are ever bound. */
  function Match(table: Table, p: Value, s: Value): (r: Outcome)
    ensures r.Success? ==> r.bindings.Keys <= table.Values
    decreases p, 1, 0
  {
    match p
    case Arr(ps) => MatchElements(table, p, s, |ps|)
    case Obj(fs) => MatchFields(table, p, s, |fs|)
    case Null => TypeError
    case Sym(t) => if t in table then Success(map[table[t] := s]) else StrictEquals(p, s)
    case _ => StrictEquals(p, s)
  }

  /** The reduce over an array pattern after its first `n` elements: element
      `i` is matched against `obj[i]`, which throws when the subject is
      undefined or null. A failed accumulator skips the remaining work. */
  function MatchElements(table: Table, p: Value, s: Value, n: nat): (r: Outcome)
    requires p.Arr? && n <= |p.elems|
    ensures r.Success? ==> r.bindings.Keys <= table.Values
    decreases p, 0, n
  {
    if n == 0 then Success(map[])
    else
      var acc := MatchElements(table, p, s, n - 1);
      if !acc.Success? then acc
      else if IsNullish(s) then TypeError
      else
        var app := Match(table, p.elems[n - 1], Element(s, n - 1));
        if app.Success? then Success(Merge(acc.bindings, app.bindings)) else app
  }

  /** The reduce over the own keys of an object pattern after its first `n`
      keys: `prop in obj` throws for a primitive subject and fails for an
      absent key; otherwise the key's sub-pattern is matched against
      `obj[prop]`. A failed accumulator skips the remaining work. */
  function MatchFields(table: Table, p: Value, s: Value, n: nat): (r: Outcome)
    requires p.Obj? && n <= |p.fields|
    ensures r.Success? ==> r.bindings.Keys <= table.Values
    decreases p, 0, n
  {
    if n == 0 then Success(map[])
    else
      var acc := MatchFields(table, p, s, n - 1);
      if !acc.Success? then acc
      else
        var (k, sub) := p.fields[n - 1];
        if !IsObject(s) then TypeError
        else if !HasOwn(s, k) then Failure
        else
          var app := Match(table, sub, Get(s, k));
          if app.Success? then Success(Merge(acc.bindings, app.bindings)) else app
  }

  // ---------------------------------------------------------------------
  // Tokens and primitives
  // ---------------------------------------------------------------------

  /** A registered token matches every subject and binds exactly its name. */
  lemma MatchToken(table: Table, t: Token, s: Value)
    requires t in table
    ensures Match(table, Sym(t), s) == Success(map[table[t] := s])
  {
  }

  /** A primitive pattern, unregistered symbols included, succeeds with an
      empty binding exactly when it is strictly equal to the subject, and
      fails otherwise; it never throws. */
  lemma MatchPrimitive(table: Table, p: Value, s: Value)
    requires !IsObject(p) && !p.Null?
    requires p.Sym? ==> p.token !in table
    ensures Match(table, p, s).Success? <==> p == s
    ensures Match(table, p, s).Success? ==> Match(table, p, s).bindings == map[]
    ensures !Match(table, p, s).TypeError?
  {
  }

  /** A `null` pattern throws whatever the subject: its keys cannot be read. */
  lemma MatchNullPattern(table: Table, s: Value)
    ensures Match(table, Null, s) == TypeError
  {
  }

  /** An empty array or object pattern matches anything, binding nothing. */
  lemma MatchEmptyContainer(table: Table, s: Value)
    ensures Match(table, Arr([]), s) == Success(map[])
    ensures Match(table, Obj([]), s) == Success(map[])
  {
  }

  // ---------------------------------------------------------------------
  // Arrays
  // ---------------------------------------------------------------------

  lemma {:induction false} ElementsOnNullish(table: Table, p: Value, s: Value, n: nat)
    requires p.Arr? && 0 < n <= |p.elems| && IsNullish(s)
    ensures MatchElements(table, p, s, n) == TypeError
  {
    if n > 1 {
      ElementsOnNullish(table, p, s, n - 1);
    }
  }

  /** A non-empty array pattern throws against undefined or null: its first
      element already reads `obj[0]`. */
  lemma MatchArrayOnNullish(table: Table, ps: seq<Value>, s: Value)
    requires |ps| > 0 && IsNullish(s)
    ensures Match(table, Arr(ps), s) == TypeError
  {
    ElementsOnNullish(table, Arr(ps), s, |ps|);
  }

  /** The sub-results of an array pattern, one per pattern element, each
      against the subject's element at the same index. */
  function ElementOutcomes(table: Table, ps: seq<Value>, s: Value): seq<Outcome> {
    seq(|ps|, i requires 0 <= i < |ps| => Match(table, ps[i], Element(s, i)))
  }

  lemma {:induction false} ElementsCombine(table: Table, p: Value, s: Value, n: nat)
    requires p.Arr? && n <= |p.elems| && !IsNullish(s)
    ensures MatchElements(table, p, s, n) == Combine(ElementOutcomes(table, p.elems, s)[..n])
  {
    var outs := ElementOutcomes(table, p.elems, s);
    if n > 0 {
      ElementsCombine(table, p, s, n - 1);
      assert outs[..n] == outs[..n - 1] + [outs[n - 1]];
      CombineSnoc(outs[..n - 1], outs[n - 1]);
    } else {
      assert outs[..0] == [];
    }
  }

  /** For a subject that is neither undefined nor null, the array reduce is
      the run of its element sub-results: positional, with no length check. */
  lemma MatchArrayCombines(table: Table, ps: seq<Value>, s: Value)
    requires !IsNullish(s)
    ensures Match(table, Arr(ps), s) == Combine(ElementOutcomes(table, ps, s))
  {
    var outs := ElementOutcomes(table, ps, s);
    ElementsCombine(table, Arr(ps), s, |ps|);
    assert outs[..|ps|] == outs;
  }

  /** An array pattern succeeds exactly when every element `i` matches the
      subject's element `i`. */
  lemma MatchArraySucceeds(table: Table, ps: seq<Value>, s: Value)
    requires !IsNullish(s)
    ensures Match(table, Arr(ps), s).Success?
        <==> forall i :: 0 <= i < |ps| ==> Match(table, ps[i], Element(s, i)).Success?
  {
    MatchArrayCombines(table, ps, s);
    var outs := ElementOutcomes(table, ps, s);
    CombineSuccess(outs);
    assert forall i :: 0 <= i < |ps| ==> outs[i] == Match(table, ps[i], Element(s, i));
  }

  /** The first element that does not match decides the result, with no
      search at other offsets: its Failure or TypeError is the array's. */
  lemma MatchArrayFirstMismatch(table: Table, ps: seq<Value>, s: Value, i: nat)
    requires !IsNullish(s) && i < |ps|
    requires forall j :: 0 <= j < i ==> Match(table, ps[j], Element(s, j)).Success?
    requires !Match(table, ps[i], Element(s, i)).Success?
    ensures Match(table, Arr(ps), s) == Match(table, ps[i], Element(s, i))
  {
    MatchArrayCombines(table, ps, s);
    CombineFirst(ElementOutcomes(table, ps, s), i);
  }

  /** An array pattern reads nothing of the subject but its first |ps|
      elements: two subjects that agree there give the same result. */
  lemma MatchArrayLocal(table: Table, ps: seq<Value>, s1: Value, s2: Value)
    requires !IsNullish(s1) && !IsNullish(s2)
    requires forall i :: 0 <= i < |ps| ==> Element(s1, i) == Element(s2, i)
    ensures Match(table, Arr(ps), s1) == Match(table, Arr(ps), s2)
  {
    MatchArrayCombines(table, ps, s1);
    MatchArrayCombines(table, ps, s2);
    assert ElementOutcomes(table, ps, s1) == ElementOutcomes(table, ps, s2);
  }

  /** Subject elements beyond the pattern's length are ignored. */
  lemma MatchArrayIgnoresTail(table: Table, ps: seq<Value>, xs: seq<Value>, ys: seq<Value>)
    requires |ps| <= |xs|
    ensures Match(table, Arr(ps), Arr(xs + ys)) == Match(table, Arr(ps), Arr(xs))
  {
    MatchArrayLocal(table, ps, Arr(xs + ys), Arr(xs));
  }

  /** Subject positions the subject lacks are read as undefined. */
  lemma MatchArrayPadsUndefined(table: Table, ps: seq<Value>, xs: seq<Value>)
    requires |xs| <= |ps|
    ensures Match(table, Arr(ps), Arr(xs))
         == Match(table, Arr(ps), Arr(xs + seq(|ps| - |xs|, _ => Undefined)))
  {
    MatchArrayLocal(table, ps, Arr(xs), Arr(xs + seq(|ps| - |xs|, _ => Undefined)));
  }

  /** Once the array reduce has failed or thrown, it stays so. */
  lemma {:induction false} ElementsAbsorb(table: Table, p: Value, s: Value, n: nat, m: nat)
    requires p.Arr? && n <= m <= |p.elems|
    requires !MatchElements(table, p, s, n).Success?
    ensures MatchElements(table, p, s, m) == MatchElements(table, p, s, n)
    decreases m
  {
    if m > n {
      ElementsAbsorb(table, p, s, n, m - 1);
    }
  }

  // ---------------------------------------------------------------------
  // Objects
  // ---------------------------------------------------------------------

  lemma {:induction false} FieldsOnPrimitive(table: Table, p: Value, s: Value, n: nat)
    requires p.Obj? && 0 < n <= |p.fields| && !IsObject(s)
    ensures MatchFields(table, p, s, n) == TypeError
  {
    if n > 1 {
      FieldsOnPrimitive(table, p, s, n - 1);
    }
  }

  /** A non-empty object pattern throws against every primitive subject,
      undefined and null included: `in` is applied to it for the first key. */
  lemma MatchObjectOnPrimitive(table: Table, fs: seq<(Key, Value)>, s: Value)
    requires |fs| > 0 && !IsObject(s)
    ensures Match(table, Obj(fs), s) == TypeError
  {
    FieldsOnPrimitive(table, Obj(fs), s, |fs|);
  }

  /** The sub-result of one key of an object pattern: failure when the
      subject lacks the key, otherwise the match of the key's sub-pattern
      against the subject's value there. */
  function FieldOutcome(table: Table, f: (Key, Value), s: Value): Outcome {
    if HasOwn(s, f.0) then Match(table, f.1, Get(s, f.0)) else Failure
  }

  function FieldOutcomes(table: Table, fs: seq<(Key, Value)>, s: Value): seq<Outcome> {
    seq(|fs|, i requires 0 <= i < |fs| => FieldOutcome(table, fs[i], s))
  }

  lemma {:induction false} FieldsCombine(table: Table, p: Value, s: Value, n: nat)
    requires p.Obj? && n <= |p.fields| && IsObject(s)
    ensures MatchFields(table, p, s, n) == Combine(FieldOutcomes(table, p.fields, s)[..n])
  {
    var outs := FieldOutcomes(table, p.fields, s);
    if n > 0 {
      FieldsCombine(table, p, s, n - 1);
      assert outs[..n] == outs[..n - 1] + [outs[n - 1]];
      CombineSnoc(outs[..n - 1], outs[n - 1]);
    } else {
      assert outs[..0] == [];
    }
  }

  /** For an object subject, the object reduce is the run of its key
      sub-results in own-key order. */
  lemma MatchObjectCombines(table: Table, fs: seq<(Key, Value)>, s: Value)
    requires IsObject(s)
    ensures Match(table, Obj(fs), s) == Combine(FieldOutcomes(table, fs, s))
  {
    var outs := FieldOutcomes(table, fs, s);
    FieldsCombine(table, Obj(fs), s, |fs|);
    assert outs[..|fs|] == outs;
  }

  /** An object pattern succeeds exactly when the subject has every pattern
      key and each key's sub-pattern matches the subject's value there. */
  lemma MatchObjectSucceeds(table: Table, fs: seq<(Key, Value)>, s: Value)
    requires IsObject(s)
    ensures Match(table, Obj(fs), s).Success?
        <==> forall i :: 0 <= i < |fs| ==>
               HasOwn(s, fs[i].0) && Match(table, fs[i].1, Get(s, fs[i].0)).Success?
  {
    MatchObjectCombines(table, fs, s);
    var outs := FieldOutcomes(table, fs, s);
    CombineSuccess(outs);
    assert forall i :: 0 <= i < |fs| ==> outs[i] == FieldOutcome(table, fs[i], s);
  }

  /** The first key that is absent from the subject makes the match fail,
      provided every earlier key matched. */
  lemma MatchObjectMissingKey(table: Table, fs: seq<(Key, Value)>, s: Value, i: nat)
    requires IsObject(s) && i < |fs|
    requires forall j :: 0 <= j < i ==> FieldOutcome(table, fs[j], s).Success?
    requires !HasOwn(s, fs[i].0)
    ensures Match(table, Obj(fs), s) == Failure
  {
    MatchObjectCombines(table, fs, s);
    CombineFirst(FieldOutcomes(table, fs, s), i);
  }

  /** The first key whose sub-pattern does not match decides the result. */
  lemma MatchObjectFirstMismatch(table: Table, fs: seq<(Key, Value)>, s: Value, i: nat)
    requires IsObject(s) && i < |fs|
    requires forall j :: 0 <= j < i ==> FieldOutcome(table, fs[j], s).Success?
    requires HasOwn(s, fs[i].0) && !Match(table, fs[i].1, Get(s, fs[i].0)).Success?
    ensures Match(table, Obj(fs), s) == Match(table, fs[i].1, Get(s, fs[i].0))
  {
    MatchObjectCombines(table, fs, s);
    CombineFirst(FieldOutcomes(table, fs, s), i);
  }

  /** An object pattern reads nothing of the subject but its own keys:
      two subjects that agree on them give the same result. */
  lemma MatchObjectLocal(table: Table, fs: seq<(Key, Value)>, s1: Value, s2: Value)
    requires IsObject(s1) && IsObject(s2)
    requires forall i :: 0 <= i < |fs| ==>
               HasOwn(s1, fs[i].0) == HasOwn(s2, fs[i].0) && Get(s1, fs[i].0) == Get(s2, fs[i].0)
    ensures Match(table, Obj(fs), s1) == Match(table, Obj(fs), s2)
  {
    MatchObjectCombines(table, fs, s1);
    MatchObjectCombines(table, fs, s2);
    assert FieldOutcomes(table, fs, s1) == FieldOutcomes(table, fs, s2);
  }

  /** Subject properties whose keys the pattern does not mention are ignored. */
  lemma MatchObjectIgnoresExtraKeys(table: Table, fs: seq<(Key, Value)>,
                                    gs: seq<(Key, Value)>, hs: seq<(Key, Value)>)
    requires forall i, j :: 0 <= i < |fs| && 0 <= j < |hs| ==> fs[i].0 != hs[j].0
    ensures Match(table, Obj(fs), Obj(gs + hs)) == Match(table, Obj(fs), Obj(gs))
  {
    forall i | 0 <= i < |fs|
      ensures Lookup(gs + hs, fs[i].0) == Lookup(gs, fs[i].0)
    {
      LookupAppend(gs, hs, fs[i].0);
    }
    MatchObjectLocal(table, fs, Obj(gs + hs), Obj(gs));
  }

  /** Once the object reduce has failed or thrown, it stays so. */
  lemma {:induction false} FieldsAbsorb(table: Table, p: Value, s: Value, n: nat, m: nat)
    requires p.Obj? && n <= m <= |p.fields|
    requires !MatchFields(table, p, s, n).Success?
    ensures MatchFields(table, p, s, m) == MatchFields(table, p, s, n)
    decreases m
  {
    if m > n {
      FieldsAbsorb(table, p, s, n, m - 1);
    }
  }
}
