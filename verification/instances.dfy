/**
 Matching a pattern against its own instances. Replacing every registered
 token of a pattern by the value an environment gives its name yields a
 subject the pattern always matches, and the match hands back exactly the
 environment's values. Repeated names are harmless here because every
 occurrence receives the same value.
 */
module Instances {
  import opened Values
  import opened Outcomes
  import opened Matcher
  import opened Positions

  /** A pattern the matcher can traverse without throwing on its own
      account, made of values JavaScript can hold: no `null` anywhere, and
      objects whose keys are listed in own-key order. */
  predicate WellFormed(p: Value)
    decreases p, 1, 0
  {
    match p
    case Null => false
    case Arr(ps) => ElementsWellFormed(p, |ps|)
    case Obj(fs) => OwnKeyOrdered(fs) && FieldsWellFormed(p, |fs|)
    case _ => true
  }

  predicate ElementsWellFormed(p: Value, n: nat)
    requires p.Arr? && n <= |p.elems|
    decreases p, 0, n
  {
    n == 0 || (ElementsWellFormed(p, n - 1) && WellFormed(p.elems[n - 1]))
  }

  predicate FieldsWellFormed(p: Value, n: nat)
    requires p.Obj? && n <= |p.fields|
    decreases p, 0, n
  {
    n == 0 || (FieldsWellFormed(p, n - 1) && WellFormed(p.fields[n - 1].1))
  }

  /** Every name the table knows has a value in `env`. */
  predicate Covers(table: Table, env: Bindings) {
    forall t :: t in table ==> table[t] in env
  }

  /** Every binding of `b` is the value `env` gives that name. */
  predicate Agrees(b: Bindings, env: Bindings) {
    forall n :: n in b ==> n in env && b[n] == env[n]
  }

  /** The pattern with each registered token replaced by its name's value;
      literals, unregistered symbols and keys stay as they are. */
  function Instantiate(table: Table, env: Bindings, p: Value): Value
    decreases p, 1, 0
  {
    match p
    case Sym(t) => if t in table && table[t] in env then env[table[t]] else p
    case Arr(ps) => Arr(InstanceElements(table, env, p, |ps|))
    case Obj(fs) => Obj(InstanceFields(table, env, p, |fs|))
    case _ => p
  }

  function InstanceElements(table: Table, env: Bindings, p: Value, n: nat): (r: seq<Value>)
    requires p.Arr? && n <= |p.elems|
    ensures |r| == n
    ensures forall i :: 0 <= i < n ==> r[i] == Instantiate(table, env, p.elems[i])
    decreases p, 0, n
  {
    if n == 0 then []
    else InstanceElements(table, env, p, n - 1) + [Instantiate(table, env, p.elems[n - 1])]
  }

  function InstanceFields(table: Table, env: Bindings, p: Value, n: nat): (r: seq<(Key, Value)>)
    requires p.Obj? && n <= |p.fields|
    ensures |r| == n
    ensures forall i :: 0 <= i < n ==>
              r[i] == (p.fields[i].0, Instantiate(table, env, p.fields[i].1))
    decreases p, 0, n
  {
    if n == 0 then []
    else
      InstanceFields(table, env, p, n - 1)
        + [(p.fields[n - 1].0, Instantiate(table, env, p.fields[n - 1].1))]
  }

  /** With distinct keys, the property found for a key is the one listed
      under it. */
  lemma {:induction false} LookupDistinct(fs: seq<(Key, Value)>, i: nat)
    requires i < |fs| && DistinctKeys(fs)
    ensures Lookup(fs, fs[i].0) == Some(fs[i].1)
  {
    if i > 0 {
      assert fs[0].0 != fs[i].0;
      assert fs[1..][i - 1] == fs[i];
      LookupDistinct(fs[1..], i - 1);
    }
  }

  lemma MergeAgrees(a: Bindings, b: Bindings, env: Bindings)
    requires Agrees(a, env) && Agrees(b, env)
    ensures Agrees(Merge(a, b), env)
  {
  }

  /** A well-formed pattern matches every instance of itself, and each name
      it binds carries the environment's value. */
  lemma {:induction false} MatchInstance(table: Table, env: Bindings, p: Value)
    requires Covers(table, env) && WellFormed(p)
    ensures Match(table, p, Instantiate(table, env, p)).Success?
    ensures Agrees(Match(table, p, Instantiate(table, env, p)).bindings, env)
    decreases p, 1, 0
  {
    match p
    case Arr(ps) =>
      ElementsInstance(table, env, p, |ps|);
    case Obj(fs) =>
      OrderedDistinct(fs);
      FieldsInstance(table, env, p, |fs|);
    case _ =>
  }

  lemma {:induction false} ElementsInstance(table: Table, env: Bindings, p: Value, n: nat)
    requires p.Arr? && n <= |p.elems|
    requires Covers(table, env) && ElementsWellFormed(p, n)
    ensures var s := Instantiate(table, env, p);
            MatchElements(table, p, s, n).Success?
            && Agrees(MatchElements(table, p, s, n).bindings, env)
    decreases p, 0, n
  {
    if n > 0 {
      var s := Instantiate(table, env, p);
      var sub := p.elems[n - 1];
      ElementsInstance(table, env, p, n - 1);
      assert Element(s, n - 1) == Instantiate(table, env, sub);
      MatchInstance(table, env, sub);
      var acc, app := MatchElements(table, p, s, n - 1), Match(table, sub, Element(s, n - 1));
      assert MatchElements(table, p, s, n) == Success(Merge(acc.bindings, app.bindings));
      MergeAgrees(acc.bindings, app.bindings, env);
    }
  }

  lemma {:induction false} FieldsInstance(table: Table, env: Bindings, p: Value, n: nat)
    requires p.Obj? && n <= |p.fields| && DistinctKeys(p.fields)
    requires Covers(table, env) && FieldsWellFormed(p, n)
    ensures var s := Instantiate(table, env, p);
            MatchFields(table, p, s, n).Success?
            && Agrees(MatchFields(table, p, s, n).bindings, env)
    decreases p, 0, n
  {
    if n > 0 {
      var s := Instantiate(table, env, p);
      var (k, sub) := p.fields[n - 1];
      FieldsInstance(table, env, p, n - 1);
      InstanceOwns(table, env, p, n - 1);
      MatchInstance(table, env, sub);
      var acc, app := MatchFields(table, p, s, n - 1), Match(table, sub, Get(s, k));
      assert IsObject(s) && HasOwn(s, k);
      assert MatchFields(table, p, s, n) == Success(Merge(acc.bindings, app.bindings));
      MergeAgrees(acc.bindings, app.bindings, env);
    }
  }

  /** An instance of an object pattern owns each pattern key, holding the
      instance of the key's sub-pattern there. */
  lemma InstanceOwns(table: Table, env: Bindings, p: Value, i: nat)
    requires p.Obj? && i < |p.fields| && DistinctKeys(p.fields)
    ensures var s := Instantiate(table, env, p);
            HasOwn(s, p.fields[i].0) && Get(s, p.fields[i].0) == Instantiate(table, env, p.fields[i].1)
  {
    var sf := InstanceFields(table, env, p, |p.fields|);
    assert forall a, b :: 0 <= a < b < |sf| ==> sf[a].0 == p.fields[a].0 && sf[b].0 == p.fields[b].0;
    LookupDistinct(sf, i);
  }

  /** Matching a well-formed pattern against an instance of itself binds
      exactly the names of the registered tokens it holds, each to the
      environment's value. */
  lemma InstanceBindings(table: Table, env: Bindings, p: Value)
    requires Covers(table, env) && WellFormed(p)
    ensures var r := Match(table, p, Instantiate(table, env, p));
            && r.Success?
            && (forall n :: n in r.bindings <==> Registers(table, Occurrences(p), n))
            && (forall n :: n in r.bindings ==> r.bindings[n] == env[n])
  {
    MatchInstance(table, env, p);
    MatchBindingNames(table, p, Instantiate(table, env, p));
  }
}
