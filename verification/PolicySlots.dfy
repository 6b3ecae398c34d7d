/** Reassembling a policy rule list from its slots (agent/system.go).

    The list is spread over slots so that slot i of s holds rules i, i + s, i + 2s
    and so on. Slots that are missing or cannot be decoded leave zero values. */
module PolicySlots {
  import opened Options
  import opened Sequences

  // ---- positions

  /** Where rule `idx` of slot `i` goes. */
  function Place(s: nat, i: nat, idx: nat): nat { s * idx + i }

  /** Every position belongs to one slot, at one index. */
  lemma Position(s: nat, i: nat, idx: nat)
    requires i < s
    ensures Place(s, i, idx) % s == i && Place(s, i, idx) / s == idx
  {
    var k := Place(s, i, idx);
    var q, r := k / s, k % s;
    assert k == s * q + r && 0 <= r < s;
    if q < idx {
      MulMonotone(s, q + 1, idx);
      assert false;
    }
    if idx < q {
      MulMonotone(s, idx + 1, q);
      assert false;
    }
  }

  lemma PositionBack(s: nat, k: nat)
    requires s > 0
    ensures Place(s, k % s, k / s) == k && k % s < s
  {
  }

  // ---- what the slots say

  function SlotLen<T>(slot: Option<seq<T>>): nat { if slot.Some? then |slot.value| else 0 }

  /** The rule the slots give for position k. */
  function Slotted<T>(slots: seq<Option<seq<T>>>, k: nat, zero: T): T {
    if |slots| > 0 && k / |slots| < SlotLen(slots[k % |slots|]) then slots[k % |slots|].value[k / |slots|] else zero
  }

  /** Every rule of every slot has its place in the list. */
  ghost predicate Fits<T>(slots: seq<Option<seq<T>>>, len: nat) {
    forall i, idx :: 0 <= i < |slots| && 0 <= idx < SlotLen(slots[i]) ==> Place(|slots|, i, idx) < len
  }

  /** Rule idx of slot i stands at its place, and nothing but zero values stands where no slot has a rule. */
  ghost predicate Reassembled<T>(slots: seq<Option<seq<T>>>, pols: seq<T>, zero: T) {
    && (forall i, idx :: 0 <= i < |slots| && 0 <= idx < SlotLen(slots[i]) ==>
          && Place(|slots|, i, idx) < |pols|
          && pols[Place(|slots|, i, idx)] == slots[i].value[idx])
    && forall k :: 0 <= k < |pols| && (forall i, idx :: 0 <= i < |slots| && 0 <= idx < SlotLen(slots[i]) ==> Place(|slots|, i, idx) != k)
                   ==> pols[k] == zero
  }

  lemma SlottedReassembles<T>(slots: seq<Option<seq<T>>>, pols: seq<T>, zero: T)
    requires Fits(slots, |pols|) && forall k :: 0 <= k < |pols| ==> pols[k] == Slotted(slots, k, zero)
    ensures Reassembled(slots, pols, zero)
  {
    forall i, idx | 0 <= i < |slots| && 0 <= idx < SlotLen(slots[i])
      ensures Place(|slots|, i, idx) < |pols| && pols[Place(|slots|, i, idx)] == slots[i].value[idx]
    {
      Position(|slots|, i, idx);
    }
    forall k | 0 <= k < |pols| && pols[k] != zero
      ensures exists i, idx :: 0 <= i < |slots| && 0 <= idx < SlotLen(slots[i]) && Place(|slots|, i, idx) == k
    {
      PositionBack(|slots|, k);
      assert Place(|slots|, k % |slots|, k / |slots|) == k;
    }
  }

  // ---- the reassembly

  /** Positions written once slots before `i` and the first `idx` rules of slot `i` are done. */
  predicate Written(s: nat, i: nat, idx: nat, k: nat)
    requires s > 0
  {
    k % s < i || (k % s == i && k / s < idx)
  }

  ghost predicate Progress<T>(slots: seq<Option<seq<T>>>, pols: seq<T>, zero: T, i: nat, idx: nat)
    requires |slots| > 0
  {
    forall k :: 0 <= k < |pols| ==> pols[k] == if Written(|slots|, i, idx, k) then Slotted(slots, k, zero) else zero
  }

  lemma WriteOne<T>(slots: seq<Option<seq<T>>>, pols: seq<T>, zero: T, i: nat, idx: nat)
    requires |slots| > 0 && i < |slots| && idx < SlotLen(slots[i]) && Place(|slots|, i, idx) < |pols|
    requires Progress(slots, pols, zero, i, idx)
    ensures Progress(slots, pols[Place(|slots|, i, idx) := slots[i].value[idx]], zero, i, idx + 1)
  {
    var s := |slots|;
    var t := Place(s, i, idx);
    var pols' := pols[t := slots[i].value[idx]];
    Position(s, i, idx);
    forall k | 0 <= k < |pols'|
      ensures pols'[k] == if Written(s, i, idx + 1, k) then Slotted(slots, k, zero) else zero
    {
      PositionBack(s, k);
      if Written(s, i, idx + 1, k) && !Written(s, i, idx, k) {
        assert k == t;
      }
    }
  }

  lemma SlotDone<T>(slots: seq<Option<seq<T>>>, pols: seq<T>, zero: T, i: nat)
    requires i < |slots| && Progress(slots, pols, zero, i, SlotLen(slots[i]))
    ensures Progress(slots, pols, zero, i + 1, 0)
  {
    forall k | 0 <= k < |pols|
      ensures pols[k] == if Written(|slots|, i + 1, 0, k) then Slotted(slots, k, zero) else zero
    {
      var q, r := k / |slots|, k % |slots|;
      assert Written(|slots|, i, SlotLen(slots[i]), k) <==> r < i || (r == i && q < SlotLen(slots[i]));
    }
  }

  /** Writes each slot's rules into a preallocated list, slot by slot; false stands for the run-time
      panic of a write outside the list. */
  method GetPolicyConfig<T>(slots: seq<Option<seq<T>>>, len: nat, zero: T) returns (ok: bool, pols: array<T>)
    ensures ok <==> Fits(slots, len)
    ensures ok ==> fresh(pols) && pols.Length == len && forall k :: 0 <= k < len ==> pols[k] == Slotted(slots, k, zero)
    ensures ok ==> Reassembled(slots, pols[..], zero)
  {
    pols := new T[len](_ => zero);
    for i := 0 to |slots|
      invariant |slots| > 0 ==> Progress(slots, pols[..], zero, i, 0)
      invariant |slots| == 0 ==> forall k :: 0 <= k < len ==> pols[k] == zero
      invariant forall a, b :: 0 <= a < i && 0 <= b < SlotLen(slots[a]) ==> Place(|slots|, a, b) < len
    {
      if slots[i].Some? {
        var pol := slots[i].value;
        for idx := 0 to |pol|
          invariant Progress(slots, pols[..], zero, i, idx)
          invariant forall b :: 0 <= b < idx ==> Place(|slots|, i, b) < len
        {
          var tidx := |slots| * idx + i;
          assert tidx == Place(|slots|, i, idx);
          if tidx >= len {
            return false, pols;
          }
          WriteOne(slots, pols[..], zero, i, idx);
          pols[tidx] := pol[idx];
        }
      }
      SlotDone(slots, pols[..], zero, i);
    }
    if |slots| > 0 {
      forall k | 0 <= k < len
        ensures pols[k] == Slotted(slots, k, zero)
      {
        PositionBack(|slots|, k);
        assert pols[..][k] == pols[k];
      }
    }
    SlottedReassembles(slots, pols[..], zero);
    ok := true;
  }

  // ---- the round trip

  /** Rules i, i + s, i + 2s and so on. */
  function SlotOf<T>(rules: seq<T>, s: nat, i: nat): seq<T>
    requires s > 0
    decreases |rules| - i
  {
    if i >= |rules| then [] else [rules[i]] + SlotOf(rules, s, i + s)
  }

  function Spread<T>(rules: seq<T>, s: nat): seq<Option<seq<T>>>
    requires s > 0
  {
    seq(s, i requires 0 <= i < s => Some(SlotOf(rules, s, i)))
  }

  lemma {:induction false} SlotOfAt<T>(rules: seq<T>, s: nat, i: nat, idx: nat)
    requires s > 0
    ensures idx < |SlotOf(rules, s, i)| <==> Place(s, i, idx) < |rules|
    ensures idx < |SlotOf(rules, s, i)| ==> SlotOf(rules, s, i)[idx] == rules[Place(s, i, idx)]
    decreases idx
  {
    if i >= |rules| {
      MulMonotone(s, 0, idx);
    } else if idx > 0 {
      SlotOfAt(rules, s, i + s, idx - 1);
      assert Place(s, i + s, idx - 1) == Place(s, i, idx);
    }
  }

  /** A list spread over any number of slots fits, and every position gets its own rule back. */
  lemma SpreadRoundTrip<T>(rules: seq<T>, s: nat, zero: T)
    requires s > 0
    ensures Fits(Spread(rules, s), |rules|)
    ensures forall k :: 0 <= k < |rules| ==> Slotted(Spread(rules, s), k, zero) == rules[k]
  {
    var slots := Spread(rules, s);
    forall i, idx | 0 <= i < s && 0 <= idx < SlotLen(slots[i])
      ensures Place(s, i, idx) < |rules|
    {
      SlotOfAt(rules, s, i, idx);
    }
    forall k | 0 <= k < |rules|
      ensures Slotted(slots, k, zero) == rules[k]
    {
      PositionBack(s, k);
      SlotOfAt(rules, s, k % s, k / s);
    }
  }

  // ---- folding the workload slots

  const DEFAULT_GROUP_RULE_ID: nat := 0

  /** A rule's source addresses; None is a nil entry. */
  datatype Policy<A> = Policy(id: nat, from: seq<Option<A>>)

  function Present<A>(from: seq<Option<A>>): seq<Option<A>> {
    if from == [] then []
    else if from[|from| - 1].Some? then Present(from[..|from| - 1]) + [from[|from| - 1]]
    else Present(from[..|from| - 1])
  }

  function Addresses<A>(rules: seq<Policy<A>>): seq<Option<A>> {
    if rules == [] then [] else Addresses(rules[..|rules| - 1]) + Present(rules[|rules| - 1].from)
  }

  /** The leading workload rules become one rule with all their addresses; the others follow unchanged.
      False stands for the panic of more workload slots than rules. */
  method MergeWlPolicyConfig<A>(rules: seq<Policy<A>>, wlslots: nat) returns (ok: bool, merged: seq<Policy<A>>)
    ensures ok <==> wlslots <= |rules|
    ensures ok ==> merged == [Policy(DEFAULT_GROUP_RULE_ID, Addresses(rules[..wlslots]))] + rules[wlslots..]
  {
    merged := [];
    if wlslots > |rules| {
      return false, merged;
    }
    var from: seq<Option<A>> := [];
    for i := 0 to wlslots
      invariant from == Addresses(rules[..i])
    {
      ghost var before := from;
      var addrs := rules[i].from;
      for j := 0 to |addrs|
        invariant from == before + Present(addrs[..j])
      {
        assert addrs[..j + 1][..j] == addrs[..j];
        if addrs[j].Some? {
          from := from + [addrs[j]];
        }
      }
      assert addrs[..|addrs|] == addrs && rules[..i + 1][..i] == rules[..i];
    }
    merged := [Policy(DEFAULT_GROUP_RULE_ID, from)] + rules[wlslots..];
    ok := true;
  }

  function Occurrences<A(==)>(rules: seq<Policy<A>>, a: Option<A>): nat {
    if rules == [] then 0 else Occurrences(rules[..|rules| - 1], a) + multiset(rules[|rules| - 1].from)[a]
  }

  lemma {:induction false} PresentKept<A>(from: seq<Option<A>>, a: Option<A>)
    requires a.Some?
    ensures multiset(Present(from))[a] == multiset(from)[a]
    ensures forall x <- Present(from) :: x.Some?
  {
    if from != [] {
      assert from == from[..|from| - 1] + [from[|from| - 1]];
      PresentKept(from[..|from| - 1], a);
    }
  }

  /** No address of a workload rule is lost or duplicated. */
  lemma {:induction false} AddressesKept<A>(rules: seq<Policy<A>>, a: Option<A>)
    requires a.Some?
    ensures multiset(Addresses(rules))[a] == Occurrences(rules, a)
    ensures forall x <- Addresses(rules) :: x.Some?
  {
    if rules != [] {
      AddressesKept(rules[..|rules| - 1], a);
      PresentKept(rules[|rules| - 1].from, a);
    }
  }
}
