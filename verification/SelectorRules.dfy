/** The documented rule for combining criteria, and the order of a selector (share/criteria.go). */
module SelectorRules {
  import opened Glob
  import opened Options
  import opened Selector
  import opened Sequences

  // ---- the documented rule

  /** 'or' if there is at least one positive criterion, 'and' if all are negative. */
  predicate Documented(vs: seq<Verdict>)
    requires AllEntries(vs)
  {
    if HasPositive(vs) then exists v <- vs :: v.met else forall v <- vs :: v.met
  }

  /** The code departs from its rule exactly when a positive entry follows negative ones of
      which some but not all are met, and nothing later is met. */
  lemma RuleDiffers(vs: seq<Verdict>)
    requires AllEntries(vs)
    ensures Combined(vs) != Documented(vs) <==>
            && HasPositive(vs)
            && (exists i :: 0 <= i < Leading(vs) && vs[i].met)
            && (exists i :: 0 <= i < Leading(vs) && !vs[i].met)
            && (forall i :: Leading(vs) <= i < |vs| ==> !vs[i].met)
  {
    var n := Leading(vs);
    if HasPositive(vs) {
      assert n < |vs|;
    }
    assert forall i :: 0 <= i < |vs| ==> vs[i] in vs;
    assert (exists v <- vs :: v.met) <==> exists i :: 0 <= i < |vs| && vs[i].met;
  }

  /** The documented rule for a whole selector: kinds of criteria are combined by 'and'. */
  ghost predicate DocumentedSelected(vs: seq<Verdict>) {
    && Stop !in vs
    && KeysOf(vs) != {}
    && forall k <- KeysOf(vs) :: AllEntries(ForKey(vs, k)) && Documented(ForKey(vs, k))
  }

  /** Not a, not b, or c. */
  const NOT_A_NOT_B_OR_C: seq<Criterion> :=
    [Criterion("image", "a", NotEqual), Criterion("image", "b", NotEqual), Criterion("image", "c", Equal)]

  function ImageB(): Workload { Workload("b", "", "", "", "", map[]) }

  lemma JudgedB(engine: Engine)
    ensures var key := Key("image");
            Verdicts(NOT_A_NOT_B_OR_C, Judgement(ImageB(), None, engine))
            == [Entry(key, true, false), Entry(key, false, false), Entry(key, false, true)]
  {
  }

  lemma MetThenUnmet(key: Key)
    ensures var es := [Entry(key, true, false), Entry(key, false, false), Entry(key, false, true)];
            AllEntries(es) && !Combined(es) && Documented(es)
  {
    var es := [Entry(key, true, false), Entry(key, false, false), Entry(key, false, true)];
    assert es[0] in es && es[2] in es;
    assert es[1..][1..] == [es[2]] && Leading(es[1..]) == 1;
    assert Leading(es) == 2;
  }

  lemma {:induction false} OneKey(vs: seq<Verdict>, key: Key)
    requires forall i :: 0 <= i < |vs| ==> IsFor(vs[i], key)
    ensures ForKey(vs, key) == vs && (vs != [] ==> KeysOf(vs) == {key})
  {
    if vs != [] {
      OneKey(vs[..|vs| - 1], key);
      assert vs == vs[..|vs| - 1] + [vs[|vs| - 1]];
      assert vs[0] in vs;
    }
  }

  /** A workload with image b is not selected by the criteria image not a, image not b, image c.
      The documented rule would select it: one criterion is positive, and the first one is met. */
  lemma DocumentedRuleFails(engine: Engine)
    ensures var vs := Verdicts(NOT_A_NOT_B_OR_C, Judgement(ImageB(), None, engine));
            !Selected(vs) && DocumentedSelected(vs)
  {
    var key := Key("image");
    var es := [Entry(key, true, false), Entry(key, false, false), Entry(key, false, true)];
    JudgedB(engine);
    OneKey(es, key);
    MetThenUnmet(key);
    assert key in KeysOf(es);
  }

  /** A selector for one key with these polarities and these results. */
  function Make(polarity: seq<bool>, met: seq<bool>): (vs: seq<Verdict>)
    requires |polarity| == |met|
    ensures AllEntries(vs)
  {
    seq(|met|, i requires 0 <= i < |met| => Entry(Key(""), met[i], polarity[i]))
  }

  /** Of the first entries only the first is met. */
  function FirstMet(n: nat): seq<bool> { seq(n, i => i == 0) }

  /** The order of polarities is safe for every outcome exactly when there is no positive entry
      or at most one negative entry precedes the first positive one. */
  lemma RuleHoldsByPolarity(polarity: seq<bool>)
    ensures (forall met: seq<bool> | |met| == |polarity| :: Combined(Make(polarity, met)) == Documented(Make(polarity, met)))
            <==> (true !in polarity || (|polarity| > 0 && polarity[0]) || (|polarity| > 1 && polarity[1]))
  {
    var ok := true !in polarity || (|polarity| > 0 && polarity[0]) || (|polarity| > 1 && polarity[1]);
    if ok {
      forall met: seq<bool> | |met| == |polarity|
        ensures Combined(Make(polarity, met)) == Documented(Make(polarity, met))
      {
        var vs := Make(polarity, met);
        RuleDiffers(vs);
        if HasPositive(vs) {
          var v :| v in vs && v.positive;
          assert Leading(vs) <= 1;
        }
      }
    } else {
      var met := FirstMet(|polarity|);
      var vs := Make(polarity, met);
      RuleDiffers(vs);
      var i :| 0 <= i < |polarity| && polarity[i];
      assert vs[i] in vs && vs[i].positive;
      assert Leading(vs) >= 2;
      assert vs[0].met && !vs[1].met;
      assert Combined(vs) != Documented(vs);
    }
  }

  // ---- reordering

  lemma HasMember(a: seq<nat>)
    ensures a == [] || exists p: nat :: p in a
  {
    if a != [] { assert a[0] in a; }
  }

  lemma LastIsLargest(a: seq<nat>, p: nat)
    requires Increasing(a) && a != []
    ensures var n := |a| - 1;
            (p in a ==> p <= a[n]) && (p in a[..n] <==> p in a && p != a[n])
  {
    var n := |a| - 1;
    assert a == a[..n] + [a[n]];
    if p in a[..n] {
      var i :| 0 <= i < n && a[..n][i] == p;
      assert a[i] < a[n];
    }
  }

  /** An increasing sequence is determined by its members. */
  lemma {:induction false} IncreasingIsUnique(a: seq<nat>, b: seq<nat>)
    requires Increasing(a) && Increasing(b) && forall p: nat :: p in a <==> p in b
    ensures a == b
  {
    if a == [] || b == [] {
      HasMember(a);
      HasMember(b);
    } else {
      var x, y := a[|a| - 1], b[|b| - 1];
      assert x in b && y in a;
      LastIsLargest(b, x);
      LastIsLargest(a, y);
      assert x == y;
      var a', b' := a[..|a| - 1], b[..|b| - 1];
      forall p: nat
        ensures p in a' <==> p in b'
      {
        LastIsLargest(a, p);
        LastIsLargest(b, p);
      }
      IncreasingIsUnique(a', b');
      assert a == a' + [x] && b == b' + [y];
    }
  }

  /** Each of 0 to n - 1 once, in some order. */
  ghost predicate Rearranges(perm: seq<nat>, n: nat) {
    && |perm| == n
    && (forall p: nat :: p in perm <==> p < n)
    && forall i, j :: 0 <= i < j < n ==> perm[i] != perm[j]
  }

  /** Criteria with the same effective key keep their order. */
  predicate KeepsOrder(perm: seq<nat>, vs: seq<Verdict>)
    requires |perm| == |vs|
  {
    forall i, j :: 0 <= i < j < |vs| && vs[i].Entry? && vs[j].Entry? && vs[i].key == vs[j].key ==> perm[i] < perm[j]
  }

  /** The verdicts `vs'` are `vs` in another order. */
  ghost predicate Reordered(vs: seq<Verdict>, vs': seq<Verdict>, perm: seq<nat>) {
    && |vs'| == |vs| && Rearranges(perm, |vs|) && KeepsOrder(perm, vs')
    && forall i :: 0 <= i < |vs| ==> perm[i] < |vs| && vs'[i] == vs[perm[i]]
  }

  /** Where the entries of a key stood before. */
  ghost function Origins(vs: seq<Verdict>, vs': seq<Verdict>, perm: seq<nat>, key: Key): (qs: seq<nat>)
    requires Reordered(vs, vs', perm)
    ensures |qs| == |Positions(vs', key)|
    ensures forall i :: 0 <= i < |qs| ==> Positions(vs', key)[i] < |vs| && qs[i] == perm[Positions(vs', key)[i]]
  {
    var ps' := Positions(vs', key);
    assert forall i :: 0 <= i < |ps'| ==> ps'[i] in ps';
    seq(|ps'|, i requires 0 <= i < |ps'| => perm[ps'[i]])
  }

  lemma OriginsIncrease(vs: seq<Verdict>, vs': seq<Verdict>, perm: seq<nat>, key: Key)
    requires Reordered(vs, vs', perm)
    ensures Increasing(Origins(vs, vs', perm, key))
  {
    var ps', qs := Positions(vs', key), Origins(vs, vs', perm, key);
    forall i, j | 0 <= i < j < |qs|
      ensures qs[i] < qs[j]
    {
      assert ps'[i] in ps' && ps'[j] in ps';
      assert IsFor(vs'[ps'[i]], key) && IsFor(vs'[ps'[j]], key);
    }
  }

  lemma OriginsMembers(vs: seq<Verdict>, vs': seq<Verdict>, perm: seq<nat>, key: Key, p: nat)
    requires Reordered(vs, vs', perm)
    ensures p in Origins(vs, vs', perm, key) <==> p in Positions(vs, key)
  {
    var ps', qs := Positions(vs', key), Origins(vs, vs', perm, key);
    if p in Positions(vs, key) {
      assert p in perm;
      var i :| 0 <= i < |perm| && perm[i] == p;
      assert i in ps';
      var j :| 0 <= j < |ps'| && ps'[j] == i;
      assert qs[j] == p;
    }
    if p in qs {
      var j :| 0 <= j < |qs| && qs[j] == p;
      assert ps'[j] in ps';
      assert vs'[ps'[j]] == vs[p];
    }
  }

  lemma ReorderKeepsEntries(vs: seq<Verdict>, vs': seq<Verdict>, perm: seq<nat>, key: Key)
    requires Reordered(vs, vs', perm)
    ensures ForKey(vs', key) == ForKey(vs, key)
  {
    var ps, ps', qs := Positions(vs, key), Positions(vs', key), Origins(vs, vs', perm, key);
    forall p: nat
      ensures p in qs <==> p in ps
    {
      OriginsMembers(vs, vs', perm, key, p);
    }
    OriginsIncrease(vs, vs', perm, key);
    IncreasingIsUnique(qs, ps);
    ForKeyAt(vs, key);
    ForKeyAt(vs', key);
    forall i | 0 <= i < |ps|
      ensures ForKey(vs', key)[i] == ForKey(vs, key)[i]
    {
      assert vs'[ps'[i]] == vs[qs[i]];
    }
  }

  lemma ReorderKeepsStop(vs: seq<Verdict>, vs': seq<Verdict>, perm: seq<nat>)
    requires Reordered(vs, vs', perm)
    ensures Stop in vs <==> Stop in vs'
  {
    if Stop in vs {
      var p :| 0 <= p < |vs| && vs[p] == Stop;
      assert p in perm;
      var i :| 0 <= i < |perm| && perm[i] == p;
      assert vs'[i] == Stop;
    }
    if Stop in vs' {
      var i :| 0 <= i < |vs'| && vs'[i] == Stop;
      assert vs[perm[i]] == Stop;
    }
  }

  /** A selector rearranged so that criteria with the same effective key keep their order selects
      the same. */
  lemma ReorderAcrossKeys(selector: seq<Criterion>, selector': seq<Criterion>, perm: seq<nat>, judge: Criterion -> Verdict)
    requires |selector'| == |selector| && Rearranges(perm, |selector|)
    requires forall i :: 0 <= i < |selector| ==> perm[i] < |selector| && selector'[i] == selector[perm[i]]
    requires KeepsOrder(perm, Verdicts(selector', judge))
    ensures Selected(Verdicts(selector, judge)) <==> Selected(Verdicts(selector', judge))
  {
    var vs, vs' := Verdicts(selector, judge), Verdicts(selector', judge);
    assert Reordered(vs, vs', perm);
    forall k
      ensures ForKey(vs, k) == ForKey(vs', k)
    {
      ReorderKeepsEntries(vs, vs', perm, k);
    }
    ReorderKeepsStop(vs, vs', perm);
    SameEntriesSameSelection(vs, vs');
  }
}
