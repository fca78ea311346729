/**
 The scenarios of pattern-matcher.test.js, worked through the model. Where
 the code as written disagrees with a test's expectation, the lemma states
 what the code does and its comment names the expectation.
 */
module Scenarios {
  import opened Values
  import opened Outcomes
  import opened Matcher
  import opened Allocator

  /** `pattern` is called when symbols 0 ("measure") already exist. */
  const First: Token := 1

  function Slot(name: string, t: Template): (FieldKey, Template) {
    (Fixed(StrKey(name)), t)
  }

  function FieldOf(name: string, v: Value): (Key, Value) {
    (StrKey(name), v)
  }

  // pattern-matcher.test.js:4-20

  const CousinTemplate := Record([Slot("cousin", Var("name"))])
  const BobTemplate := Record([Slot("name", Lit(Str("Bob"))), Slot("relatives", CousinTemplate)])
  const CousinPattern := Obj([FieldOf("cousin", Sym(2))])
  const BobPattern := Obj([FieldOf("name", Str("Bob")), FieldOf("relatives", CousinPattern)])
  const JamesRelatives := Obj([FieldOf("cousin", Str("James"))])
  const BobSubject := Obj([FieldOf("name", Str("Bob")), FieldOf("relatives", JamesRelatives)])

  /** `sym("name")` allocates the first token after `$rest`; the table
      inverts that one allocation. */
  lemma BobCompiles()
    ensures Compile(BobTemplate, First) == Compiled(BobPattern, map[2 := "name"])
  {
    var r0 := Fresh(First);
    var r1 := Registry(map["name" := 2], 3);
    assert Intern(r0, "name") == (r1, 2);
    assert Build(r0, First, Var("name")) == (Sym(2), r1);
    assert CousinTemplate.fields[0] == (Fixed(StrKey("cousin")), Var("name"));
    assert BuildFields(r0, First, CousinTemplate, 0) == ([], r0);
    assert [] + [(StrKey("cousin"), Sym(2))] == [FieldOf("cousin", Sym(2))];
    assert BuildFields(r0, First, CousinTemplate, 1) == ([FieldOf("cousin", Sym(2))], r1);
    assert Build(r0, First, CousinTemplate) == (CousinPattern, r1);
    var t := BobTemplate;
    assert t.fields[0] == (Fixed(StrKey("name")), Lit(Str("Bob")));
    assert t.fields[1] == (Fixed(StrKey("relatives")), CousinTemplate);
    assert BuildFields(r0, First, t, 0) == ([], r0);
    assert [] + [(StrKey("name"), Str("Bob"))] == [FieldOf("name", Str("Bob"))];
    assert BuildFields(r0, First, t, 1) == ([FieldOf("name", Str("Bob"))], r0);
    assert [FieldOf("name", Str("Bob"))] + [(StrKey("relatives"), CousinPattern)] == BobPattern.fields;
    assert BuildFields(r0, First, t, 2) == (BobPattern.fields, r1);
    assert Build(r0, First, t) == (BobPattern, r1);
    assert Invert(r1) == map[2 := "name"];
  }

  lemma BobMatches()
    ensures Match(map[2 := "name"], BobPattern, BobSubject) == Success(map["name" := Str("James")])
  {
    var table: Table := map[2 := "name"];
    var p, s, q, sq := BobPattern, BobSubject, CousinPattern, JamesRelatives;
    assert HasOwn(s, StrKey("name")) && Get(s, StrKey("name")) == Str("Bob");
    assert HasOwn(s, StrKey("relatives")) && Get(s, StrKey("relatives")) == sq;
    assert HasOwn(sq, StrKey("cousin")) && Get(sq, StrKey("cousin")) == Str("James");
    assert MatchFields(table, q, sq, 1) == Success(map["name" := Str("James")]);
    assert Match(table, q, sq) == Success(map["name" := Str("James")]);
    assert MatchFields(table, p, s, 1) == Success(map[]);
    assert MatchFields(table, p, s, 2) == Success(map["name" := Str("James")]);
  }

  /** A variable nested in an object binds the subject's value at the same
      place. */
  lemma NestedObject()
    ensures Run(Compile(BobTemplate, First), BobSubject) == Success(map["name" := Str("James")])
  {
    BobCompiles();
    BobMatches();
  }

  /** pattern-matcher.test.js:52-68: a mismatching literal fails the match. */
  lemma WrongName()
    ensures Match(map[2 := "name"], BobPattern,
                  Obj([FieldOf("name", Str("WrongName")), FieldOf("relatives", JamesRelatives)]))
         == Failure
  {
    var s := Obj([FieldOf("name", Str("WrongName")), FieldOf("relatives", JamesRelatives)]);
    assert HasOwn(s, StrKey("name")) && Get(s, StrKey("name")) == Str("WrongName");
    assert MatchFields(map[2 := "name"], BobPattern, s, 1) == Failure;
  }

  // In the scenarios below `$rest` is token 1 (= First) and the names the
  // builder passes to `sym` get tokens 2, 3, ... in order of first use.

  /** pattern-matcher.test.js:22-31: `[sym("first"), $rest]`. */
  const ArrayRestTemplate := List([Var("first"), RestSym])
  const ArrayRestPattern := Arr([Sym(2), Sym(First)])

  /** `$rest` is placed as itself, an unregistered symbol; only "first" is
      entered in the table. */
  lemma ArrayRestCompiles()
    ensures Compile(ArrayRestTemplate, First) == Compiled(ArrayRestPattern, map[2 := "first"])
  {
    var t := ArrayRestTemplate;
    var r0 := Fresh(First);
    var r1 := Registry(map["first" := 2], 3);
    assert Intern(r0, "first") == (r1, 2);
    assert t.items[0] == Var("first") && t.items[1] == RestSym;
    assert BuildItems(r0, First, t, 0) == ([], r0);
    assert Build(r0, First, Var("first")) == (Sym(2), r1);
    assert [] + [Sym(2)] == [Sym(2)];
    assert BuildItems(r0, First, t, 1) == ([Sym(2)], r1);
    assert Build(r1, First, RestSym) == (Sym(First), r1);
    assert [Sym(2)] + [Sym(First)] == ArrayRestPattern.elems;
    assert BuildItems(r0, First, t, 2) == (ArrayRestPattern.elems, r1);
    assert Build(r0, First, t) == (ArrayRestPattern, r1);
    assert Invert(r1) == map[2 := "first"];
  }

  /** The test expects the tail to be captured. As written, `$rest` is
      compared by identity with "dos", so the match fails. */
  lemma ArrayRestIsNotCaptured()
    ensures Run(Compile(ArrayRestTemplate, First), Arr([Str("one"), Str("dos"), Str("drie")]))
         == Failure
  {
    ArrayRestCompiles();
    var p := ArrayRestPattern;
    var s := Arr([Str("one"), Str("dos"), Str("drie")]);
    assert MatchElements(map[2 := "first"], p, s, 1) == Success(map["first" := Str("one")]);
    assert Element(s, 1) == Str("dos");
    MatchPrimitive(map[2 := "first"], Sym(First), Str("dos"));
    assert Match(map[2 := "first"], p.elems[1], Element(s, 1)) == Failure;
    assert Match(map[2 := "first"], p, s) == Failure;
    assert Run(Compile(ArrayRestTemplate, First), s) == Match(map[2 := "first"], p, s);
  }

  /** pattern-matcher.test.js:34-50: `{name: "Sarah", [$rest]: sym("deets")}`. */
  const ObjectRestTemplate := Record([Slot("name", Lit(Str("Sarah"))), (RestKey, Var("deets"))])
  const ObjectRestPattern := Obj([FieldOf("name", Str("Sarah")), (SymKey(First), Sym(2))])
  const SarahSubject := Obj([FieldOf("name", Str("Sarah")), FieldOf("tel", Str("01234 567 980")),
                             FieldOf("address", Str("123 Keep Reading Me, Nowhere"))])

  /** The key `[$rest]` is `$rest` itself, a symbol key; the value
      `sym("deets")` is the only registered token. */
  lemma ObjectRestCompiles()
    ensures Compile(ObjectRestTemplate, First) == Compiled(ObjectRestPattern, map[2 := "deets"])
  {
    var t := ObjectRestTemplate;
    var r0 := Fresh(First);
    var r1 := Registry(map["deets" := 2], 3);
    assert Intern(r0, "deets") == (r1, 2);
    assert t.fields[0] == (Fixed(StrKey("name")), Lit(Str("Sarah")));
    assert t.fields[1] == (RestKey, Var("deets"));
    assert BuildKey(r0, First, RestKey) == (SymKey(First), r0);
    assert BuildFields(r0, First, t, 0) == ([], r0);
    assert [] + [(StrKey("name"), Str("Sarah"))] == [FieldOf("name", Str("Sarah"))];
    assert BuildFields(r0, First, t, 1) == ([FieldOf("name", Str("Sarah"))], r0);
    assert Build(r0, First, Var("deets")) == (Sym(2), r1);
    assert [FieldOf("name", Str("Sarah"))] + [(SymKey(First), Sym(2))] == ObjectRestPattern.fields;
    assert BuildFields(r0, First, t, 2) == (ObjectRestPattern.fields, r1);
    assert Build(r0, First, t) == (ObjectRestPattern, r1);
    assert Invert(r1) == map[2 := "deets"];
  }

  /** The test expects the remaining keys to be captured. As written,
      `[$rest]` is an ordinary symbol key the subject lacks, so the match
      fails. */
  lemma ObjectRestIsNotCaptured()
    ensures Run(Compile(ObjectRestTemplate, First), SarahSubject) == Failure
  {
    ObjectRestCompiles();
    var p, s := ObjectRestPattern, SarahSubject;
    assert HasOwn(s, StrKey("name")) && Get(s, StrKey("name")) == Str("Sarah");
    assert MatchFields(map[2 := "deets"], p, s, 1) == Success(map[]);
    assert !HasOwn(s, SymKey(First));
    assert Match(map[2 := "deets"], p, s) == Failure;
    assert Run(Compile(ObjectRestTemplate, First), s) == Match(map[2 := "deets"], p, s);
  }

  /** pattern-matcher.test.js:72-77 and 87-92: `{x: sym(name), y: sym(name)}`. */
  function TwiceTemplate(name: string): Template {
    Record([Slot("x", Var(name)), Slot("y", Var(name))])
  }

  const Twice := Obj([FieldOf("x", Sym(2)), FieldOf("y", Sym(2))])

  /** The second `sym(name)` returns the token the first one allocated. */
  lemma TwiceCompiles(name: string)
    ensures Compile(TwiceTemplate(name), First) == Compiled(Twice, map[2 := name])
  {
    var t := TwiceTemplate(name);
    var r0 := Fresh(First);
    var r1 := Registry(map[name := 2], 3);
    assert Intern(r0, name) == (r1, 2);
    assert Intern(r1, name) == (r1, 2);
    assert t.fields[0] == (Fixed(StrKey("x")), Var(name));
    assert t.fields[1] == (Fixed(StrKey("y")), Var(name));
    assert BuildFields(r0, First, t, 0) == ([], r0);
    assert Build(r0, First, Var(name)) == (Sym(2), r1);
    assert [] + [(StrKey("x"), Sym(2))] == [FieldOf("x", Sym(2))];
    assert BuildFields(r0, First, t, 1) == ([FieldOf("x", Sym(2))], r1);
    assert Build(r1, First, Var(name)) == (Sym(2), r1);
    assert [FieldOf("x", Sym(2))] + [(StrKey("y"), Sym(2))] == Twice.fields;
    assert BuildFields(r0, First, t, 2) == (Twice.fields, r1);
    assert Build(r0, First, t) == (Twice, r1);
    assert Invert(r1) == map[2 := name];
  }

  /** `{x: t, y: t}` against `{x: a, y: b}` binds `t`'s name to `b`. */
  lemma TwiceMatches(name: string, a: Value, b: Value)
    ensures Match(map[2 := name], Twice, Obj([FieldOf("x", a), FieldOf("y", b)]))
         == Success(map[name := b])
  {
    var s := Obj([FieldOf("x", a), FieldOf("y", b)]);
    assert HasOwn(s, StrKey("x")) && Get(s, StrKey("x")) == a;
    assert HasOwn(s, StrKey("y")) && Get(s, StrKey("y")) == b;
    assert MatchFields(map[2 := name], Twice, s, 1) == Success(map[name := a]);
  }

  /** pattern-matcher.test.js:71-83 expects disagreeing occurrences of one
      variable to fail. As written, the merge overwrites: the match succeeds
      and keeps the last value. */
  lemma RepeatedVariableOverwrites()
    ensures Run(Compile(TwiceTemplate("diff"), First), Obj([FieldOf("x", Int(1)), FieldOf("y", Int(2))]))
         == Success(map["diff" := Int(2)])
  {
    TwiceCompiles("diff");
    TwiceMatches("diff", Int(1), Int(2));
  }

  /** pattern-matcher.test.js:86-98: agreeing occurrences give one entry. */
  lemma RepeatedVariableAgrees()
    ensures Run(Compile(TwiceTemplate("same"), First), Obj([FieldOf("x", Int(1)), FieldOf("y", Int(1))]))
         == Success(map["same" := Int(1)])
  {
    TwiceCompiles("same");
    TwiceMatches("same", Int(1), Int(1));
  }

  /** pattern-matcher.test.js:101-113: `["one", sym("second"), $rest]`. */
  const OffsetTemplate := List([Lit(Str("one")), Var("second"), RestSym])
  const OffsetPattern := Arr([Str("one"), Sym(2), Sym(First)])

  lemma OffsetCompiles()
    ensures Compile(OffsetTemplate, First) == Compiled(OffsetPattern, map[2 := "second"])
  {
    var t := OffsetTemplate;
    var r0 := Fresh(First);
    var r1 := Registry(map["second" := 2], 3);
    assert Intern(r0, "second") == (r1, 2);
    assert t.items[0] == Lit(Str("one")) && t.items[1] == Var("second") && t.items[2] == RestSym;
    assert BuildItems(r0, First, t, 0) == ([], r0);
    assert [] + [Str("one")] == [Str("one")];
    assert BuildItems(r0, First, t, 1) == ([Str("one")], r0);
    assert Build(r0, First, Var("second")) == (Sym(2), r1);
    assert [Str("one")] + [Sym(2)] == [Str("one"), Sym(2)];
    assert BuildItems(r0, First, t, 2) == ([Str("one"), Sym(2)], r1);
    assert Build(r1, First, RestSym) == (Sym(First), r1);
    assert [Str("one"), Sym(2)] + [Sym(First)] == OffsetPattern.elems;
    assert BuildItems(r0, First, t, 3) == (OffsetPattern.elems, r1);
    assert Build(r0, First, t) == (OffsetPattern, r1);
    assert Invert(r1) == map[2 := "second"];
  }

  /** Matching is positional, so a subject whose first element differs
      fails even though the pattern occurs further on. */
  lemma NoOffsetSearch()
    ensures Run(Compile(OffsetTemplate, First), Arr([Str("badApple"), Str("one"), Str("dos"), Str("drie")]))
         == Failure
  {
    OffsetCompiles();
    var ps := OffsetPattern.elems;
    var s := Arr([Str("badApple"), Str("one"), Str("dos"), Str("drie")]);
    assert Match(map[2 := "second"], ps[0], Element(s, 0)) == Failure;
    MatchArrayFirstMismatch(map[2 := "second"], ps, s, 0);
    assert Match(map[2 := "second"], OffsetPattern, s) == Failure;
  }

  function Ast(kind: Value, value: Value): Value {
    Obj([FieldOf("type", kind), FieldOf("value", value)])
  }

  lemma TokenMatches(table: Table, kind: Value, pv: Value, sv: Value)
    requires !IsObject(kind) && !kind.Null? && (kind.Sym? ==> kind.token !in table)
    requires Match(table, pv, sv).Success?
    ensures Match(table, Ast(kind, pv), Ast(kind, sv)) == Match(table, pv, sv)
  {
    var p, s := Ast(kind, pv), Ast(kind, sv);
    assert HasOwn(s, StrKey("type")) && Get(s, StrKey("type")) == kind;
    assert HasOwn(s, StrKey("value")) && Get(s, StrKey("value")) == sv;
    MatchPrimitive(table, kind, kind);
    assert MatchFields(table, p, s, 1) == Success(map[]);
    assert Merge(map[], Match(table, pv, sv).bindings) == Match(table, pv, sv).bindings;
  }

  /** An object pattern naming only "value" ignores the subject's "type". */
  lemma ValueFieldMatches(table: Table, kind: Value, v: Value)
    requires !IsObject(v) && !v.Null? && !v.Sym?
    ensures Match(table, Obj([FieldOf("value", v)]), Ast(kind, v)) == Success(map[])
  {
    var p, s := Obj([FieldOf("value", v)]), Ast(kind, v);
    assert p.fields[0] == (StrKey("value"), v);
    assert HasOwn(s, StrKey("value")) && Get(s, StrKey("value")) == v;
    MatchPrimitive(table, v, v);
    assert MatchFields(table, p, s, 1) == Success(Merge(map[], map[]));
  }

  /** An array pattern of three elements whose elements each match. */
  lemma ThreeElements(table: Table, a: Value, b: Value, c: Value, x: Value, y: Value, z: Value)
    requires Match(table, a, x).Success? && Match(table, b, y).Success? && Match(table, c, z).Success?
    ensures Match(table, Arr([a, b, c]), Arr([x, y, z]))
         == Success(Merge(Merge(Match(table, a, x).bindings, Match(table, b, y).bindings),
                          Match(table, c, z).bindings))
  {
    var p, s := Arr([a, b, c]), Arr([x, y, z]);
    var ra, rb, rc := Match(table, a, x), Match(table, b, y), Match(table, c, z);
    assert p.elems[0] == a && p.elems[1] == b && p.elems[2] == c;
    assert Element(s, 0) == x && Element(s, 1) == y && Element(s, 2) == z;
    assert !IsNullish(s);
    MergeEmptyLeft(ra.bindings);
    assert MatchElements(table, p, s, 0) == Success(map[]);
    assert MatchElements(table, p, s, 1) == ra;
    assert MatchElements(table, p, s, 2) == Success(Merge(ra.bindings, rb.bindings));
    assert MatchElements(table, p, s, 3) == Success(Merge(Merge(ra.bindings, rb.bindings), rc.bindings));
  }

  /** pattern-matcher.test.js:116-132: several object children, each binding
      its own variable. */
  lemma MultipleObjectChildren()
    ensures Match(map[2 := "first", 3 := "second"],
                  Arr([Ast(Str("number"), Sym(2)), Ast(Str("operator"), Str("x")),
                       Ast(Str("number"), Sym(3))]),
                  Arr([Ast(Str("number"), Int(5)), Ast(Str("operator"), Str("x")),
                       Ast(Str("number"), Int(2))]))
         == Success(map["first" := Int(5), "second" := Int(2)])
  {
    var table: Table := map[2 := "first", 3 := "second"];
    TokenMatches(table, Str("number"), Sym(2), Int(5));
    TokenMatches(table, Str("operator"), Str("x"), Str("x"));
    TokenMatches(table, Str("number"), Sym(3), Int(2));
    ThreeElements(table, Ast(Str("number"), Sym(2)), Ast(Str("operator"), Str("x")),
                  Ast(Str("number"), Sym(3)), Ast(Str("number"), Int(5)),
                  Ast(Str("operator"), Str("x")), Ast(Str("number"), Int(2)));
  }

  /** pattern-matcher.test.js:149-170: a symbol created before `pattern`
      (token 0 here, `Symbol.for("measure")`) is compared by identity, and
      an object pattern ignores the subject's other keys. */
  lemma SpecificPattern()
    ensures Match(map[2 := "first", 3 := "second"],
                  Arr([Ast(Sym(0), Sym(2)), Obj([FieldOf("value", Str("x"))]), Ast(Sym(0), Sym(3))]),
                  Arr([Ast(Sym(0), Str("4cm")), Ast(Undefined, Str("x")),
                       Ast(Sym(0), Str("4.5cm"))]))
         == Success(map["first" := Str("4cm"), "second" := Str("4.5cm")])
  {
    var table: Table := map[2 := "first", 3 := "second"];
    var mid := Ast(Undefined, Str("x"));
    TokenMatches(table, Sym(0), Sym(2), Str("4cm"));
    TokenMatches(table, Sym(0), Sym(3), Str("4.5cm"));
    ValueFieldMatches(table, Undefined, Str("x"));
    ThreeElements(table, Ast(Sym(0), Sym(2)), Obj([FieldOf("value", Str("x"))]),
                  Ast(Sym(0), Sym(3)), Ast(Sym(0), Str("4cm")), mid,
                  Ast(Sym(0), Str("4.5cm")));
  }

  /** pattern-matcher.test.js:173-185 expects container patterns against
      undefined to fail without an error. As written, both throw. */
  lemma ContainerAgainstUndefinedThrows()
    ensures Match(map[], Obj([FieldOf("prop", Str(""))]), Undefined) == TypeError
    ensures Match(map[], Arr([Str("value")]), Undefined) == TypeError
  {
  }

  /** pattern-matcher.test.js:135-146: the arrow function's braces form a
      block, so `constructor:` labels the statement `sym("constructor")`,
      whose result is dropped, and the builder returns undefined. The name
      is entered in the table, but the pattern is `undefined`, which fails
      against an object by `===`. */
  const PrototypeTemplate := Then("constructor", Lit(Undefined))

  lemma PrototypeCompiles()
    ensures Compile(PrototypeTemplate, First) == Compiled(Undefined, map[2 := "constructor"])
  {
    var r0 := Fresh(First);
    var r1 := Registry(map["constructor" := 2], 3);
    assert Intern(r0, "constructor") == (r1, 2);
    assert Build(r0, First, PrototypeTemplate) == (Undefined, r1);
    assert Invert(r1) == map[2 := "constructor"];
  }

  lemma PrototypeScenario()
    ensures Run(Compile(PrototypeTemplate, First), Obj([])) == Failure
  {
    PrototypeCompiles();
  }
}
