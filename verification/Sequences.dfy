/** Operations on sequences and small arithmetic that several modules share. */
module Sequences {

  function Flatten<T>(parts: seq<seq<T>>): seq<T> {
    if parts == [] then [] else Flatten(parts[..|parts| - 1]) + parts[|parts| - 1]
  }

  predicate IsPrefix(s: string, prefix: string) { |prefix| <= |s| && s[..|prefix|] == prefix }

  function Min(x: nat, y: nat): nat { if x <= y then x else y }

  predicate Increasing(ps: seq<nat>) { forall i, j :: 0 <= i < j < |ps| ==> ps[i] < ps[j] }

  lemma MulMonotone(n: nat, x: nat, y: nat)
    requires x <= y
    ensures n * x <= n * y
  {
  }

  /** The numbers below n that have a property, in order. */
  ghost function PlacesOf(n: nat, p: nat -> bool): (at: seq<nat>)
    ensures Increasing(at) && forall i: nat :: i in at <==> i < n && p(i)
  {
    if n == 0 then []
    else
      var at := PlacesOf(n - 1, p);
      assert forall i :: 0 <= i < |at| ==> at[i] in at;
      if p(n - 1) then at + [n - 1] else at
  }

  lemma {:induction false} NoPlaces(n: nat, p: nat -> bool)
    requires forall i: nat :: i < n ==> !p(i)
    ensures PlacesOf(n, p) == []
  {
    if n > 0 { NoPlaces(n - 1, p); }
  }

  // ---- keeping some items

  function Filter<T>(items: seq<T>, keep: T -> bool): seq<T> {
    if items == [] then []
    else if keep(items[|items| - 1]) then Filter(items[..|items| - 1], keep) + [items[|items| - 1]]
    else Filter(items[..|items| - 1], keep)
  }

  /** The places of the items kept, in order. */
  ghost predicate ArePlaces<T>(items: seq<T>, keep: T -> bool, at: seq<nat>) {
    Increasing(at) && forall p: nat :: p in at <==> p < |items| && keep(items[p])
  }

  ghost predicate StandsAt<T>(items: seq<T>, at: seq<nat>, out: seq<T>) {
    |out| == |at| && forall i :: 0 <= i < |at| ==> at[i] < |items| && out[i] == items[at[i]]
  }

  /** `out` are the items kept, each as often as it comes and in the order in which they come. */
  ghost predicate IsSelection<T>(items: seq<T>, keep: T -> bool, out: seq<T>) {
    exists at: seq<nat> :: ArePlaces(items, keep, at) && StandsAt(items, at, out)
  }

  lemma PlacesNext<T>(items: seq<T>, keep: T -> bool, at: seq<nat>)
    requires items != [] && ArePlaces(items[..|items| - 1], keep, at)
    ensures ArePlaces(items, keep, if keep(items[|items| - 1]) then at + [|items| - 1] else at)
  {
    var n := |items| - 1;
    assert forall i :: 0 <= i < |at| ==> at[i] in at;
    assert forall p: nat :: p < n ==> items[..n][p] == items[p];
  }

  lemma {:induction false} FilterSelects<T>(items: seq<T>, keep: T -> bool) returns (at: seq<nat>)
    ensures ArePlaces(items, keep, at) && StandsAt(items, at, Filter(items, keep))
  {
    if items == [] {
      at := [];
    } else {
      at := FilterSelects(items[..|items| - 1], keep);
      PlacesNext(items, keep, at);
      at := if keep(items[|items| - 1]) then at + [|items| - 1] else at;
    }
  }

  lemma {:induction false} FilterSplit<T>(a: seq<T>, b: seq<T>, keep: T -> bool)
    ensures Filter(a + b, keep) == Filter(a, keep) + Filter(b, keep)
  {
    if b == [] {
      assert a + b == a;
    } else {
      assert (a + b)[..|a + b| - 1] == a + b[..|b| - 1];
      FilterSplit(a, b[..|b| - 1], keep);
    }
  }
}
