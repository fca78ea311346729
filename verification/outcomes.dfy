/**
 What one call of the matcher produces, and how the results of the
 sub-patterns of an array or object pattern add up.
 */
module Outcomes {
  import opened Values

  /** A successful match: variable name to the value it captured. */
  type Bindings = map<string, Value>

  /** `Failure` is the matcher's `undefined` sentinel; `TypeError` stands for
      the exception the code throws when it reads a property of undefined or
      null, or applies `in` to a primitive. */
  datatype Outcome = Success(bindings: Bindings) | Failure | TypeError

  /** `new Map([...acc, ...application])`: the entries of `app` are inserted
      after those of `acc`, so on a shared name the later value wins. */
  function Merge(acc: Bindings, app: Bindings): (m: Bindings)
    ensures m.Keys == acc.Keys + app.Keys
    ensures forall n :: n in app ==> m[n] == app[n]
    ensures forall n :: n in acc && n !in app ==> m[n] == acc[n]
  {
    acc + app
  }

  /** One turn of a reduce callback of the matcher: a failed accumulator is
      handed on unchanged, a failed sub-result replaces it, and two successes
      merge. */
  function Extend(acc: Outcome, next: Outcome): (r: Outcome)
    ensures r.Success? <==> acc.Success? && next.Success?
    ensures r.Success? ==> r.bindings.Keys == acc.bindings.Keys + next.bindings.Keys
    ensures !acc.Success? ==> r == acc
    ensures acc.Success? && !next.Success? ==> r == next
  {
    if !acc.Success? then acc
    else if next.Success? then Success(Merge(acc.bindings, next.bindings))
    else next
  }

  /** The whole of a left-to-right run of sub-results, read off directly:
      the first sub-result that is not a success, or else the union of all
      bindings with later ones overriding earlier ones. */
  function Combine(outs: seq<Outcome>): Outcome {
    if |outs| == 0 then Success(map[])
    else if !outs[0].Success? then outs[0]
    else match Combine(outs[1..])
      case Success(rest) => Success(Merge(outs[0].bindings, rest))
      case other => other
  }

  lemma MergeAssociative(a: Bindings, b: Bindings, c: Bindings)
    ensures Merge(a, Merge(b, c)) == Merge(Merge(a, b), c)
  {
  }

  lemma MergeEmptyLeft(a: Bindings)
    ensures Merge(map[], a) == a
  {
  }

  /** Folding `Extend` from the left computes `Combine`: appending one more
      sub-result to the run is one more turn of the reduce. */
  lemma {:induction false} CombineSnoc(outs: seq<Outcome>, o: Outcome)
    ensures Combine(outs + [o]) == Extend(Combine(outs), o)
  {
    if |outs| == 0 {
      assert outs + [o] == [o];
      assert [o][1..] == [];
      if o.Success? {
        MergeEmptyLeft(o.bindings);
        assert Merge(o.bindings, map[]) == o.bindings;
      }
    } else {
      var xs := outs + [o];
      assert xs[0] == outs[0];
      assert xs[1..] == outs[1..] + [o];
      CombineSnoc(outs[1..], o);
      if outs[0].Success? {
        var tail := Combine(outs[1..]);
        if tail.Success? && o.Success? {
          MergeAssociative(outs[0].bindings, tail.bindings, o.bindings);
        }
      }
    }
  }

  /** A run succeeds exactly when every sub-result does. */
  lemma {:induction false} CombineSuccess(outs: seq<Outcome>)
    ensures Combine(outs).Success? <==> forall i :: 0 <= i < |outs| ==> outs[i].Success?
  {
    if |outs| > 0 {
      CombineSuccess(outs[1..]);
      assert forall i :: 1 <= i < |outs| ==> outs[i] == outs[1..][i - 1];
    }
  }

  /** A run that does not succeed yields exactly its first sub-result that is
      not a success: a Failure or a TypeError, whichever comes first. */
  lemma {:induction false} CombineFirst(outs: seq<Outcome>, i: nat)
    requires i < |outs| && !outs[i].Success?
    requires forall j :: 0 <= j < i ==> outs[j].Success?
    ensures Combine(outs) == outs[i]
  {
    if i > 0 {
      assert forall j :: 0 <= j < i - 1 ==> outs[1..][j] == outs[j + 1];
      CombineFirst(outs[1..], i - 1);
    }
  }

  /** Once the accumulator has failed, no later turn changes it. */
  lemma ExtendAbsorbs(acc: Outcome, next: Outcome)
    requires !acc.Success?
    ensures Extend(acc, next) == acc
  {
  }
}
