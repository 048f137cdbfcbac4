/** Types shared by the models of the reconcilers. */
module Prelude {

  datatype Option<+T> = None | Some(value: T)

  /** The status of a Kubernetes condition. */
  datatype Truth = IsTrue | IsFalse | IsUnknown

  /** What a write to an API server may do, seen from the caller.
      `Ambiguous` is a write that took effect although the caller got an error
      (a timeout after the server had committed, for example). */
  datatype Outcome = Done | Refused | Ambiguous {
    predicate Effective() { !Refused? }
  }

  /** How many of the calls from `start` on, up to `end`, were answered with an error. */
  function Failures(answers: nat -> Outcome, start: nat, end: nat): nat
    requires start <= end
    decreases end - start
  {
    if start == end then 0 else Failures(answers, start, end - 1) + (if answers(end - 1).Done? then 0 else 1)
  }

  lemma {:induction false} FailuresJoin(answers: nat -> Outcome, a: nat, b: nat, c: nat)
    requires a <= b <= c
    ensures Failures(answers, a, c) == Failures(answers, a, b) + Failures(answers, b, c)
    decreases c
  {
    if b < c { FailuresJoin(answers, a, b, c - 1); }
  }

  lemma {:induction false} NoFailures(answers: nat -> Outcome, start: nat, end: nat)
    requires start <= end
    ensures Failures(answers, start, end) == 0 <==> forall k: nat :: start <= k < end ==> answers(k).Done?
    decreases end - start
  {
    if start < end { NoFailures(answers, start, end - 1); }
  }

  /** The elements of a sequence, as the `sets.New[string](...)` calls of the source build them. */
  function ToSet<T>(s: seq<T>): set<T> {
    set x | x in s
  }

  lemma {:induction false} ToSetSize<T>(s: seq<T>)
    ensures |ToSet(s)| <= |s|
  {
    if s != [] {
      ToSetSize(s[1..]);
      assert ToSet(s) == ToSet(s[1..]) + {s[0]};
    }
  }

  predicate Distinct<T(==)>(s: seq<T>) {
    forall i, j :: 0 <= i < j < |s| ==> s[i] != s[j]
  }

  lemma {:induction false} ToSetDistinct<T>(s: seq<T>)
    requires Distinct(s)
    ensures |ToSet(s)| == |s|
  {
    if s != [] {
      ToSetDistinct(s[1..]);
      assert ToSet(s) == ToSet(s[1..]) + {s[0]};
    }
  }

  lemma SubsetSize<T>(a: set<T>, b: set<T>)
    requires a <= b
    ensures |a| <= |b|
  {
    assert b == a + (b - a);
  }

  /** A List call: every object of the store once, in some order. */
  method ListAll<V>(store: map<string, V>) returns (items: seq<(string, V)>)
    ensures forall i :: 0 <= i < |items| ==> items[i].0 in store && items[i].1 == store[items[i].0]
    ensures forall n :: n in store ==> (n, store[n]) in items
    ensures forall i, j :: 0 <= i < j < |items| ==> items[i].0 != items[j].0
  {
    items := [];
    var rest := store.Keys;
    while rest != {}
      invariant rest <= store.Keys
      invariant forall i :: 0 <= i < |items| ==>
                  items[i].0 in store && items[i].0 !in rest && items[i].1 == store[items[i].0]
      invariant forall n :: n in store && n !in rest ==> (n, store[n]) in items
      invariant forall i, j :: 0 <= i < j < |items| ==> items[i].0 != items[j].0
      decreases rest
    {
      var n :| n in rest;
      items := items + [(n, store[n])];
      rest := rest - {n};
    }
  }

  /** The names of a listing. */
  method ListNames<V>(store: map<string, V>) returns (names: seq<string>)
    ensures forall n :: n in names <==> n in store
    ensures Distinct(names)
  {
    names := [];
    var rest := store.Keys;
    while rest != {}
      invariant rest <= store.Keys
      invariant forall n :: n in names <==> n in store && n !in rest
      invariant forall i, j :: 0 <= i < j < |names| ==> names[i] != names[j]
      decreases rest
    {
      var n :| n in rest;
      names := names + [n];
      rest := rest - {n};
    }
  }
}
