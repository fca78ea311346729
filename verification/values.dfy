/**
 The JavaScript values the structural matcher works on. One datatype serves
 both as a pattern and as the subject being matched: the matcher of
 pattern-matcher.js dispatches on `typeof` and `Array.isArray`, and every
 value it can meet is one of the cases below.
 */
module Values {

  /** A JavaScript symbol. Every `Symbol()` call yields a new one; the model
      names them by natural numbers handed out in creation order. */
  type Token = nat

  datatype Option<T> = None | Some(value: T)

  /** A property key: a string or a symbol. */
  datatype Key = StrKey(name: string) | SymKey(token: Token)

  /** A JavaScript value. `Int` stands for the integral numbers; an `Obj`
      lists its own properties in the order `Reflect.ownKeys` reports them. */
  datatype Value =
    | Undefined
    | Null
    | Bool(b: bool)
    | Int(n: int)
    | Str(s: string)
    | Sym(token: Token)
    | Arr(elems: seq<Value>)
    | Obj(fields: seq<(Key, Value)>)

  /** `typeof v === "object" && v !== null`: the values that have properties. */
  predicate IsObject(v: Value) {
    v.Arr? || v.Obj?
  }

  /** The values whose properties cannot be read at all. */
  predicate IsNullish(v: Value) {
    v.Undefined? || v.Null?
  }

  // ---------------------------------------------------------------------
  // Array index keys: `obj[i]` reads the property named by the decimal
  // spelling of `i`.
  // ---------------------------------------------------------------------

  predicate IsDigit(c: char) {
    '0' <= c <= '9'
  }

  function DigitChar(d: nat): (c: char)
    requires d < 10
    ensures IsDigit(c)
  {
    ('0' as int + d) as char
  }

  function DigitValue(c: char): (d: nat)
    requires IsDigit(c)
    ensures d < 10 && DigitChar(d) == c
  {
    c as int - '0' as int
  }

  predicate AllDigits(k: string) {
    forall j :: 0 <= j < |k| ==> IsDigit(k[j])
  }

  /** A canonical decimal numeral: digits only, and no leading zero
      unless the numeral is "0" itself. */
  predicate Canonical(k: string) {
    |k| > 0 && AllDigits(k) && (|k| == 1 || k[0] != '0')
  }

  /** `String(i)` for a natural number `i`. */
  function IndexKey(i: nat): (k: string)
    ensures Canonical(k)
    ensures i > 0 ==> k[0] != '0'
  {
    if i < 10 then [DigitChar(i)] else IndexKey(i / 10) + [DigitChar(i % 10)]
  }

  /** The number a string of digits spells, most significant digit first. */
  function DecimalValue(k: string): nat
    requires AllDigits(k)
  {
    if |k| == 0 then 0 else DecimalValue(k[..|k| - 1]) * 10 + DigitValue(k[|k| - 1])
  }

  /** The index a property name denotes, if it is the canonical spelling of one. */
  function ParseIndex(k: string): Option<nat> {
    if Canonical(k) then Some(DecimalValue(k)) else None
  }

  lemma {:induction false} DecimalValueOfIndexKey(i: nat)
    ensures DecimalValue(IndexKey(i)) == i
  {
    if i >= 10 {
      var k := IndexKey(i);
      assert k[..|k| - 1] == IndexKey(i / 10);
      DecimalValueOfIndexKey(i / 10);
    }
  }

  /** Spelling an index and reading it back yields the index. */
  lemma ParseIndexKey(i: nat)
    ensures ParseIndex(IndexKey(i)) == Some(i)
  {
    DecimalValueOfIndexKey(i);
  }

  lemma {:induction false} PositiveLeadingDigit(k: string)
    requires Canonical(k) && k[0] != '0'
    ensures DecimalValue(k) > 0
  {
    if |k| > 1 {
      var k' := k[..|k| - 1];
      assert k'[0] == k[0];
      PositiveLeadingDigit(k');
    } else {
      assert DigitValue(k[0]) != 0;
    }
  }

  /** Every name ParseIndex accepts is the spelling of the index it returns. */
  lemma {:induction false} IndexKeyOfParse(k: string)
    requires ParseIndex(k).Some?
    ensures IndexKey(ParseIndex(k).value) == k
  {
    var v := DecimalValue(k);
    if |k| == 1 {
      assert k[..0] == [];
      assert DecimalValue(k[..0]) == 0;
      assert v == DigitValue(k[0]);
    } else {
      var k' := k[..|k| - 1];
      assert k'[0] == k[0];
      assert Canonical(k');
      PositiveLeadingDigit(k');
      IndexKeyOfParse(k');
      var d := DigitValue(k[|k| - 1]);
      assert v == DecimalValue(k') * 10 + d;
      assert v / 10 == DecimalValue(k') && v % 10 == d;
      assert k == k' + [k[|k| - 1]];
    }
  }

  // ---------------------------------------------------------------------
  // Property access
  // ---------------------------------------------------------------------

  /** The value of the first own property with key `k`, if there is one. */
  function Lookup(fields: seq<(Key, Value)>, k: Key): (r: Option<Value>)
    ensures r.Some? <==> exists j :: 0 <= j < |fields| && fields[j].0 == k
    ensures r.Some? ==> exists j :: 0 <= j < |fields| && fields[j] == (k, r.value)
  {
    if |fields| == 0 then None
    else if fields[0].0 == k then Some(fields[0].1)
    else
      var r := Lookup(fields[1..], k);
      assert forall j :: 1 <= j < |fields| ==> fields[j] == fields[1..][j - 1];
      r
  }

  /** Looking up in a concatenation consults the first part first. */
  lemma {:induction false} LookupAppend(gs: seq<(Key, Value)>, hs: seq<(Key, Value)>, k: Key)
    ensures Lookup(gs + hs, k) == if Lookup(gs, k).Some? then Lookup(gs, k) else Lookup(hs, k)
  {
    if |gs| > 0 {
      assert (gs + hs)[1..] == gs[1..] + hs;
      LookupAppend(gs[1..], hs, k);
    } else {
      assert gs + hs == hs;
    }
  }

  /** No two own keys of an object coincide. */
  predicate DistinctKeys(fs: seq<(Key, Value)>) {
    forall i, j :: 0 <= i < j < |fs| ==> fs[i].0 != fs[j].0
  }

  /** An integer-like key: the canonical spelling of an array index, that
      is, of an integer below 2^32 - 1. */
  predicate IsIndexKey(k: Key) {
    k.StrKey? && ParseIndex(k.name).Some? && ParseIndex(k.name).value < 0xFFFF_FFFF
  }

  /** The group `Reflect.ownKeys` reports a key in: integer-like keys,
      then the other strings, then symbols. */
  function KeyGroup(k: Key): nat {
    if IsIndexKey(k) then 0 else if k.StrKey? then 1 else 2
  }

  /** `a` may be reported before `b`: an earlier group, or ascending indices
      within the first group. Within the other two groups the order is the
      order of creation, which the listing itself records. */
  predicate ReportedBefore(a: Key, b: Key) {
    || KeyGroup(a) < KeyGroup(b)
    || (KeyGroup(a) == KeyGroup(b) == 0 && ParseIndex(a.name).value < ParseIndex(b.name).value)
    || (KeyGroup(a) == KeyGroup(b) > 0 && a != b)
  }

  /** A listing of own properties as `Reflect.ownKeys` reports them for an
      ordinary object: distinct keys, grouped and with ascending indices. */
  predicate OwnKeyOrdered(fs: seq<(Key, Value)>) {
    forall i, j :: 0 <= i < j < |fs| ==> ReportedBefore(fs[i].0, fs[j].0)
  }

  /** An ordered listing never repeats a key. */
  lemma OrderedDistinct(fs: seq<(Key, Value)>)
    requires OwnKeyOrdered(fs)
    ensures DistinctKeys(fs)
  {
  }

  /** The array index a key names, if any. */
  function IndexOfKey(k: Key): Option<nat> {
    if k.StrKey? then ParseIndex(k.name) else None
  }

  /** `k in v` for an object `v`, read as own-property membership: an array
      owns its indices and "length", a plain object the keys it lists. A
      primitive owns nothing; the matcher never asks it. */
  predicate HasOwn(v: Value, k: Key)
    ensures HasOwn(v, k) ==> IsObject(v)
    ensures v.Arr? && k == StrKey("length") ==> HasOwn(v, k)
    ensures v.Arr? ==>
              (HasOwn(v, k) <==>
                 (k == StrKey("length") || (IndexOfKey(k).Some? && IndexOfKey(k).value < |v.elems|)))
    ensures v.Obj? ==> (HasOwn(v, k) <==> exists j :: 0 <= j < |v.fields| && v.fields[j].0 == k)
  {
    match v
    case Arr(xs) =>
      || k == StrKey("length")
      || (IndexOfKey(k).Some? && IndexOfKey(k).value < |xs|)
    case Obj(fs) => Lookup(fs, k).Some?
    case _ => false
  }

  /** `v[k]` for an object `v`; an absent key reads as undefined. */
  function Get(v: Value, k: Key): (r: Value)
    ensures !HasOwn(v, k) ==> r == Undefined
    ensures v.Obj? && HasOwn(v, k) ==> exists j :: 0 <= j < |v.fields| && v.fields[j] == (k, r)
    ensures v.Arr? && HasOwn(v, k) && k != StrKey("length") ==> r in v.elems
    ensures v.Arr? && k == StrKey("length") ==> r == Int(|v.elems|)
    ensures (v.Arr? && IndexOfKey(k).Some? && IndexOfKey(k).value < |v.elems|) ==>
              r == v.elems[IndexOfKey(k).value]
  {
    match v
    case Arr(xs) =>
      if k == StrKey("length") then Int(|xs|)
      else if IndexOfKey(k).Some? && IndexOfKey(k).value < |xs| then xs[IndexOfKey(k).value]
      else Undefined
    case Obj(fs) =>
      (match Lookup(fs, k) case Some(x) => x case None => Undefined)
    case _ => Undefined
  }

  /** `v[i]` for a value that is neither undefined nor null: an array's
      element, a plain object's property named `String(i)`, a string's
      character, and undefined for every other primitive. */
  function Element(v: Value, i: nat): (r: Value)
    ensures IsObject(v) ==> r == Get(v, StrKey(IndexKey(i)))
    ensures v.Str? ==> (r != Undefined <==> i < |v.s|)
    ensures v.Str? && i < |v.s| ==> r == Str([v.s[i]])
    ensures !IsObject(v) && !v.Str? ==> r == Undefined
  {
    ParseIndexKey(i);
    match v
    case Arr(xs) => if i < |xs| then xs[i] else Undefined
    case Obj(_) => Get(v, StrKey(IndexKey(i)))
    case Str(s) => if i < |s| then Str([s[i]]) else Undefined
    case _ => Undefined
  }

  /** Element access on an object is property access with the index's
      decimal spelling, arrays included. */
  /** An array's own properties are "length", holding its length, and the
      decimal spellings of its indices, each holding that element. */
  lemma ArrayProperties(v: Value, k: Key)
    requires v.Arr?
    ensures HasOwn(v, k) <==>
              (k == StrKey("length") || exists i :: 0 <= i < |v.elems| && k == StrKey(IndexKey(i)))
    ensures Get(v, StrKey("length")) == Int(|v.elems|)
    ensures forall i :: 0 <= i < |v.elems| ==> Get(v, StrKey(IndexKey(i))) == v.elems[i]
  {
    if IndexOfKey(k).Some? && IndexOfKey(k).value < |v.elems| {
      IndexKeyOfParse(k.name);
      assert k == StrKey(IndexKey(IndexOfKey(k).value));
    }
    forall i | 0 <= i < |v.elems|
      ensures IndexOfKey(StrKey(IndexKey(i))) == Some(i)
    {
      ParseIndexKey(i);
    }
  }

  lemma ElementIsPropertyRead(v: Value, i: nat)
    requires IsObject(v)
    ensures Element(v, i) == Get(v, StrKey(IndexKey(i)))
    ensures v.Arr? ==> (HasOwn(v, StrKey(IndexKey(i))) <==> i < |v.elems|)
  {
    ParseIndexKey(i);
  }
}
