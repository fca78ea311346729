/**
 What a successful match binds, stated without the reduce: every registered
 token the matcher reaches contributes its name, bound to the part of the
 subject at the token's position, and when a name occurs more than once the
 position visited last wins (the merge is a right-biased union and nothing
 checks that repeated occurrences agree).
 */
module Positions {
  import opened Values
  import opened Outcomes
  import opened Matcher

  /** One step into a subject: `obj[i]` from an array pattern, `obj[prop]`
      from an object pattern. */
  datatype Segment = Index(i: nat) | Prop(key: Key)

  type Path = seq<Segment>

  function Enter(s: Value, seg: Segment): Value {
    match seg
    case Index(i) => Element(s, i)
    case Prop(k) => Get(s, k)
  }

  /** The part of the subject a path leads to. */
  function Follow(s: Value, path: Path): Value
    decreases |path|
  {
    if |path| == 0 then s else Follow(Enter(s, path[0]), path[1..])
  }

  /** A symbol standing in pattern position, with the path leading to it. */
  datatype Occurrence = Occurrence(path: Path, token: Token)

  /** A variable name with the path at which it is bound. */
  type Binder = (Path, string)

  function Under(seg: Segment, occs: seq<Occurrence>): (r: seq<Occurrence>)
    ensures |r| == |occs|
    ensures forall i :: 0 <= i < |occs| ==> r[i] == Occurrence([seg] + occs[i].path, occs[i].token)
  {
    seq(|occs|, i requires 0 <= i < |occs| => Occurrence([seg] + occs[i].path, occs[i].token))
  }

  function UnderVars(seg: Segment, vars: seq<Binder>): (r: seq<Binder>)
    ensures |r| == |vars|
    ensures forall i :: 0 <= i < |vars| ==> r[i] == ([seg] + vars[i].0, vars[i].1)
  {
    seq(|vars|, i requires 0 <= i < |vars| => ([seg] + vars[i].0, vars[i].1))
  }

  /** The symbols in pattern position, in the order the matcher reaches
      them: elements by index, keys in own-key order, depth first. */
  function Occurrences(p: Value): seq<Occurrence>
    decreases p, 1, 0
  {
    match p
    case Sym(t) => [Occurrence([], t)]
    case Arr(ps) => ElementOccurrences(p, |ps|)
    case Obj(fs) => FieldOccurrences(p, |fs|)
    case _ => []
  }

  function ElementOccurrences(p: Value, n: nat): seq<Occurrence>
    requires p.Arr? && n <= |p.elems|
    decreases p, 0, n
  {
    if n == 0 then []
    else ElementOccurrences(p, n - 1) + Under(Index(n - 1), Occurrences(p.elems[n - 1]))
  }

  function FieldOccurrences(p: Value, n: nat): seq<Occurrence>
    requires p.Obj? && n <= |p.fields|
    decreases p, 0, n
  {
    if n == 0 then []
    else FieldOccurrences(p, n - 1) + Under(Prop(p.fields[n - 1].0), Occurrences(p.fields[n - 1].1))
  }

  /** The occurrences of registered tokens, in order, each with its name. */
  function Named(table: Table, occs: seq<Occurrence>): seq<Binder> {
    if |occs| == 0 then []
    else
      var last := occs[|occs| - 1];
      Named(table, occs[..|occs| - 1])
        + (if last.token in table then [(last.path, table[last.token])] else [])
  }

  /** Bind each name to the subject's part at the name's position, a later
      position overriding an earlier one. */
  function Gather(vars: seq<Binder>, s: Value): Bindings {
    if |vars| == 0 then map[]
    else
      var last := vars[|vars| - 1];
      Gather(vars[..|vars| - 1], s)[last.1 := Follow(s, last.0)]
  }

  // ---------------------------------------------------------------------
  // What Gather binds
  // ---------------------------------------------------------------------

  /** Gather binds exactly the names it is given. */
  lemma {:induction false} GatherDomain(vars: seq<Binder>, s: Value)
    ensures Gather(vars, s).Keys == set j | 0 <= j < |vars| :: vars[j].1
  {
    if |vars| > 0 {
      var front := vars[..|vars| - 1];
      GatherDomain(front, s);
      assert forall j :: 0 <= j < |front| ==> front[j] == vars[j];
    }
  }

  /** A name is bound to the subject's part at its last position. */
  lemma {:induction false} GatherLast(vars: seq<Binder>, s: Value, j: nat)
    requires j < |vars|
    requires forall k :: j < k < |vars| ==> vars[k].1 != vars[j].1
    ensures vars[j].1 in Gather(vars, s)
    ensures Gather(vars, s)[vars[j].1] == Follow(s, vars[j].0)
  {
    if j < |vars| - 1 {
      var front := vars[..|vars| - 1];
      assert front[j] == vars[j];
      GatherLast(front, s, j);
    }
  }

  // ---------------------------------------------------------------------
  // How Named and Gather distribute over the traversal
  // ---------------------------------------------------------------------

  lemma {:induction false} NamedAppend(table: Table, a: seq<Occurrence>, b: seq<Occurrence>)
    ensures Named(table, a + b) == Named(table, a) + Named(table, b)
    decreases |b|
  {
    if |b| == 0 {
      assert a + b == a;
    } else {
      var b' := b[..|b| - 1];
      assert (a + b)[..|a + b| - 1] == a + b';
      assert (a + b)[|a + b| - 1] == b[|b| - 1];
      NamedAppend(table, a, b');
    }
  }

  lemma {:induction false} NamedUnder(table: Table, seg: Segment, occs: seq<Occurrence>)
    ensures Named(table, Under(seg, occs)) == UnderVars(seg, Named(table, occs))
    decreases |occs|
  {
    if |occs| > 0 {
      var front := occs[..|occs| - 1];
      assert Under(seg, occs)[..|occs| - 1] == Under(seg, front);
      NamedUnder(table, seg, front);
      var last := occs[|occs| - 1];
      var tail := if last.token in table then [(last.path, table[last.token])] else [];
      assert Named(table, occs) == Named(table, front) + tail;
      assert UnderVars(seg, Named(table, front) + tail)
          == UnderVars(seg, Named(table, front)) + UnderVars(seg, tail);
    }
  }

  lemma {:induction false} GatherAppend(a: seq<Binder>, b: seq<Binder>, s: Value)
    ensures Gather(a + b, s) == Merge(Gather(a, s), Gather(b, s))
    decreases |b|
  {
    if |b| == 0 {
      assert a + b == a;
    } else {
      var b' := b[..|b| - 1];
      assert (a + b)[..|a + b| - 1] == a + b';
      assert (a + b)[|a + b| - 1] == b[|b| - 1];
      GatherAppend(a, b', s);
    }
  }

  lemma {:induction false} GatherUnder(seg: Segment, vars: seq<Binder>, s: Value)
    ensures Gather(UnderVars(seg, vars), s) == Gather(vars, Enter(s, seg))
    decreases |vars|
  {
    if |vars| > 0 {
      var front := vars[..|vars| - 1];
      assert UnderVars(seg, vars)[..|vars| - 1] == UnderVars(seg, front);
      GatherUnder(seg, front, s);
      var last := vars[|vars| - 1];
      assert ([seg] + last.0)[1..] == last.0;
    }
  }

  /** The bindings of one more sub-pattern, reached through `seg`. */
  lemma StepBindings(table: Table, before: seq<Occurrence>, seg: Segment, sub: Value, s: Value)
    ensures Gather(Named(table, before + Under(seg, Occurrences(sub))), s)
         == Merge(Gather(Named(table, before), s), Gather(Named(table, Occurrences(sub)), Enter(s, seg)))
  {
    var inner := Named(table, Occurrences(sub));
    NamedAppend(table, before, Under(seg, Occurrences(sub)));
    NamedUnder(table, seg, Occurrences(sub));
    GatherAppend(Named(table, before), UnderVars(seg, inner), s);
    GatherUnder(seg, inner, s);
  }

  // ---------------------------------------------------------------------
  // The matcher's bindings
  // ---------------------------------------------------------------------

  /** A successful match binds what Gather collects from the registered
      tokens of the pattern, visited in the matcher's order. */
  lemma {:induction false} MatchBindings(table: Table, p: Value, s: Value)
    requires Match(table, p, s).Success?
    ensures Match(table, p, s).bindings == Gather(Named(table, Occurrences(p)), s)
    decreases p, 1, 0
  {
    if p.Arr? {
      ElementBindings(table, p, s, |p.elems|);
    } else if p.Obj? {
      FieldBindings(table, p, s, |p.fields|);
    } else {
      LeafBindings(table, p, s);
    }
  }

  /** A pattern that is neither an array nor an object binds at most its
      own token's name, to the whole subject. */
  lemma LeafBindings(table: Table, p: Value, s: Value)
    requires !p.Arr? && !p.Obj? && Match(table, p, s).Success?
    ensures Match(table, p, s).bindings == Gather(Named(table, Occurrences(p)), s)
  {
    if p.Sym? {
      TokenBindings(table, p.token, s);
    } else {
      MatchPrimitive(table, p, s);
      assert Occurrences(p) == [];
    }
  }

  /** A symbol pattern binds its name when registered and nothing otherwise. */
  lemma TokenBindings(table: Table, t: Token, s: Value)
    requires Match(table, Sym(t), s).Success?
    ensures Match(table, Sym(t), s).bindings == Gather(Named(table, Occurrences(Sym(t))), s)
  {
    var occs := [Occurrence([], t)];
    assert Occurrences(Sym(t)) == occs;
    assert occs[..0] == [];
    if t in table {
      var vars := [([], table[t])];
      assert Named(table, occs) == vars;
      assert vars[..0] == [];
      assert Gather(vars, s) == map[table[t] := s];
      MatchToken(table, t, s);
    } else {
      assert Named(table, occs) == [];
      MatchPrimitive(table, Sym(t), s);
    }
  }

  lemma {:induction false} ElementBindings(table: Table, p: Value, s: Value, n: nat)
    requires p.Arr? && n <= |p.elems|
    requires MatchElements(table, p, s, n).Success?
    ensures MatchElements(table, p, s, n).bindings
         == Gather(Named(table, ElementOccurrences(p, n)), s)
    decreases p, 0, n
  {
    if n > 0 {
      var sub := p.elems[n - 1];
      ElementBindings(table, p, s, n - 1);
      MatchBindings(table, sub, Element(s, n - 1));
      StepBindings(table, ElementOccurrences(p, n - 1), Index(n - 1), sub, s);
    }
  }

  lemma {:induction false} FieldBindings(table: Table, p: Value, s: Value, n: nat)
    requires p.Obj? && n <= |p.fields|
    requires MatchFields(table, p, s, n).Success?
    ensures MatchFields(table, p, s, n).bindings
         == Gather(Named(table, FieldOccurrences(p, n)), s)
    decreases p, 0, n
  {
    if n > 0 {
      var (k, sub) := p.fields[n - 1];
      FieldBindings(table, p, s, n - 1);
      MatchBindings(table, sub, Get(s, k));
      StepBindings(table, FieldOccurrences(p, n - 1), Prop(k), sub, s);
    }
  }

  /** Some registered token of name `n` occurs among `occs`. */
  predicate Registers(table: Table, occs: seq<Occurrence>, n: string) {
    exists o :: o in occs && o.token in table && table[o.token] == n
  }

  /** Named reports a name exactly for each registered token among the
      occurrences. */
  lemma {:induction false} NamedNames(table: Table, occs: seq<Occurrence>)
    ensures forall j :: 0 <= j < |Named(table, occs)| ==> Registers(table, occs, Named(table, occs)[j].1)
    ensures forall o :: o in occs && o.token in table ==>
              exists j :: 0 <= j < |Named(table, occs)| && Named(table, occs)[j].1 == table[o.token]
  {
    if |occs| > 0 {
      var front := occs[..|occs| - 1];
      var last := occs[|occs| - 1];
      NamedNames(table, front);
      assert occs == front + [last];
      var nf := Named(table, front);
      var tail := if last.token in table then [(last.path, table[last.token])] else [];
      var vs := Named(table, occs);
      assert vs == nf + tail;
      forall j | 0 <= j < |vs|
        ensures Registers(table, occs, vs[j].1)
      {
        if j < |nf| {
          assert vs[j] == nf[j];
          assert Registers(table, front, nf[j].1);
          var o :| o in front && o.token in table && table[o.token] == nf[j].1;
          assert o in occs;
        } else {
          assert vs[j] == tail[0];
          assert last in occs;
        }
      }
      forall o | o in occs && o.token in table
        ensures exists j :: 0 <= j < |vs| && vs[j].1 == table[o.token]
      {
        if o in front {
          var j :| 0 <= j < |nf| && nf[j].1 == table[o.token];
          assert vs[j] == nf[j];
        } else {
          assert o == last;
          assert vs[|nf|] == tail[0];
        }
      }
    } else {
      assert Named(table, occs) == [];
    }
  }

  /** On success the binding's names are exactly the names of the
      registered tokens the pattern holds. */
  lemma MatchBindingNames(table: Table, p: Value, s: Value)
    requires Match(table, p, s).Success?
    ensures forall n :: n in Match(table, p, s).bindings <==> Registers(table, Occurrences(p), n)
  {
    var occs := Occurrences(p);
    var vars := Named(table, occs);
    var b := Gather(vars, s);
    MatchBindings(table, p, s);
    GatherDomain(vars, s);
    NamedNames(table, occs);
    forall n
      ensures n in b <==> Registers(table, occs, n)
    {
      if n in b {
        var j :| 0 <= j < |vars| && vars[j].1 == n;
        assert Registers(table, occs, vars[j].1);
      }
      if Registers(table, occs, n) {
        var o :| o in occs && o.token in table && table[o.token] == n;
        var j :| 0 <= j < |vars| && vars[j].1 == table[o.token];
        assert n in set j | 0 <= j < |vars| :: vars[j].1;
      }
    }
  }

  /** On success each name is bound to the subject's part at the last
      position where a token of that name stands: a repeated variable keeps
      its last value, whatever the earlier ones were. */
  lemma MatchBindsLastOccurrence(table: Table, p: Value, s: Value, j: nat)
    requires Match(table, p, s).Success?
    requires j < |Named(table, Occurrences(p))|
    requires var vars := Named(table, Occurrences(p));
             forall k :: j < k < |vars| ==> vars[k].1 != vars[j].1
    ensures var vars := Named(table, Occurrences(p));
            var b := Match(table, p, s).bindings;
            vars[j].1 in b && b[vars[j].1] == Follow(s, vars[j].0)
  {
    MatchBindings(table, p, s);
    GatherLast(Named(table, Occurrences(p)), s, j);
  }
}
