/** Subnet lists that arrive in several messages (dp/ctrl.c).

    Internal subnets and policy addresses are configured by one routine that gathers
    the parts of a list in a static pointer and installs the list when its last part
    arrives. The class below is that routine over an explicit heap of blocks; the
    abstract state next to it says what the lists are, without any memory. */
module SubnetConfig {
  import opened Options

  /** `internal` is the target; `first` and `last` are the start and end flags; `alloc` and
      `allocJoined` say whether the two allocations succeed. */
  datatype Flags = Flags(internal: bool, first: bool, last: bool, alloc: bool, allocJoined: bool)

  datatype Msg<T> = Msg(flags: Flags, part: seq<T>)

  // ---- what the lists are

  /** The parts gathered since the last start, whether they have been installed, and the two installed lists. */
  datatype Lists<T> = Lists(gathered: Option<seq<T>>, closed: bool, internal: Option<seq<T>>, policy: Option<seq<T>>)

  /** A continuation right after an end has nothing left to continue. */
  predicate Illegal<T>(a: Lists<T>, m: Msg<T>) {
    m.flags.alloc && !m.flags.first && a.gathered.Some? && a.closed && m.flags.allocJoined
  }

  predicate Joins<T>(a: Lists<T>, m: Msg<T>) {
    m.flags.alloc && (m.flags.first || (a.gathered.Some? && m.flags.allocJoined))
  }

  function Receive<T>(a: Lists<T>, m: Msg<T>): Lists<T> {
    if !Joins(a, m) then a
    else
      var gathered := if m.flags.first then m.part else a.gathered.value + m.part;
      if !m.flags.last then a.(gathered := Some(gathered), closed := false)
      else if m.flags.internal then Lists(Some(gathered), true, Some(gathered), a.policy)
      else Lists(Some(gathered), true, a.internal, Some(gathered))
  }

  function ReceiveAll<T>(a: Lists<T>, ms: seq<Msg<T>>): Lists<T> {
    if ms == [] then a else Receive(ReceiveAll(a, ms[..|ms| - 1]), ms[|ms| - 1])
  }

  function Unset<T>(): Lists<T> { Lists(None, false, None, None) }

  /** No message of the sequence is a continuation right after an end. */
  predicate Legal<T>(a: Lists<T>, ms: seq<Msg<T>>) {
    ms == [] || (Legal(a, ms[..|ms| - 1]) && !Illegal(ReceiveAll(a, ms[..|ms| - 1]), ms[|ms| - 1]))
  }

  // ---- the routine

  class Config<T> {
    var heap: map<nat, seq<T>>
    var nextBlock: nat
    var gathering: Option<nat>
    var internal: Option<nat>
    var policy: Option<nat>
    /** Set when a block that is not allocated is read or freed. */
    var fault: bool
    ghost var closed: bool

    ghost predicate Live(b: Option<nat>)
      reads this
    {
      b.Some? ==> b.value in heap
    }

    /** Both installed blocks and the gathering block are allocated; the gathering block is
        an installed one exactly after an end. */
    ghost predicate Valid()
      reads this
    {
      && !fault && (forall b <- heap :: b < nextBlock)
      && Live(gathering) && Live(internal) && Live(policy)
      && (internal.Some? ==> internal != policy)
      && (closed ==> gathering.Some? && (gathering == internal || gathering == policy))
      && (!closed && gathering.Some? ==> gathering != internal && gathering != policy)
    }

    ghost function Content(b: Option<nat>): Option<seq<T>>
      reads this
      requires Live(b)
    {
      if b.Some? then Some(heap[b.value]) else None
    }

    ghost function View(): Lists<T>
      reads this
      requires Valid()
    {
      Lists(Content(gathering), closed, Content(internal), Content(policy))
    }

    constructor ()
      ensures Valid() && View() == Unset()
    {
      heap, nextBlock, gathering, internal, policy, fault, closed := map[], 0, None, None, None, false, false;
    }

    method Calloc(list: seq<T>) returns (b: nat)
      modifies this`heap, this`nextBlock
      ensures b == old(nextBlock) && nextBlock == b + 1 && heap == old(heap)[b := list]
    {
      b := nextBlock;
      heap, nextBlock := heap[b := list], nextBlock + 1;
    }

    method Free(b: nat)
      modifies this`heap, this`fault
      ensures heap == old(heap) - {b} && fault == (old(fault) || b !in old(heap))
    {
      fault := fault || b !in heap;
      heap := heap - {b};
    }

    /** Allocates the part and joins it to what is gathered; None on an error return. */
    method Gather(m: Msg<T>) returns (block: Option<nat>)
      requires Valid()
      modifies this`heap, this`nextBlock, this`gathering, this`fault
      ensures block.Some? <==> Joins(old(View()), m)
      ensures forall b <- heap :: b < nextBlock
      ensures block.None? ==> gathering == old(gathering) && !fault && forall b <- old(heap) :: b in heap && heap[b] == old(heap[b])
      ensures block.Some? ==>
                && gathering == block && block.value >= old(nextBlock) && block.value in heap && !fault
                && heap[block.value] == (if m.flags.first then m.part else old(heap[gathering.value]) + m.part)
                && (forall b <- old(heap) :: m.flags.first || Some(b) != old(gathering) ==> b in heap && heap[b] == old(heap[b]))
                && (!m.flags.first ==> old(gathering.value) !in heap)
    {
      if !m.flags.alloc {
        return None;
      }
      var subnet := Calloc(m.part);
      if m.flags.first {
        gathering := Some(subnet);
        return Some(subnet);
      }
      if gathering.None? {
        Free(subnet);
        return None;
      }
      if !m.flags.allocJoined {
        return None;
      }
      var joined := Calloc(heap[gathering.value] + heap[subnet]);
      Free(subnet);
      Free(gathering.value);
      gathering := Some(joined);
      return Some(joined);
    }

    /** Swaps the installed block and frees the one it replaces, after the grace period. */
    method Install(toInternal: bool, block: nat)
      modifies this`heap, this`internal, this`policy, this`fault
      ensures internal == (if toInternal then Some(block) else old(internal))
      ensures policy == (if toInternal then old(policy) else Some(block))
      ensures var was := if toInternal then old(internal) else old(policy);
              && heap == (if was.Some? then old(heap) - {was.value} else old(heap))
              && fault == (old(fault) || (was.Some? && was.value !in old(heap)))
    {
      var was := if toInternal then internal else policy;
      if toInternal {
        internal := Some(block);
      } else {
        policy := Some(block);
      }
      if was.Some? {
        Free(was.value);
      }
    }

    /** Under every legal message memory stays sound and the lists become what the message says;
        an illegal one frees the block that is still installed. */
    method CfgInternalNet(m: Msg<T>) returns (ret: int)
      requires Valid()
      modifies this
      ensures !Illegal(old(View()), m) ==> Valid() && View() == Receive(old(View()), m)
      ensures Illegal(old(View()), m) ==> fault || !(Live(internal) && Live(policy))
      ensures ret == (if Joins(old(View()), m) then 0 else -1)
    {
      var block := Gather(m);
      if block.None? {
        return -1;
      }
      closed := m.flags.last;
      if m.flags.last {
        Install(m.flags.internal, block.value);
      }
      return 0;
    }
  }

  // ---- message sequences

  lemma {:induction false} IllegalStays<T>(a: Lists<T>, ms: seq<Msg<T>>, n: nat)
    requires n <= |ms| && !Legal(a, ms[..n])
    ensures !Legal(a, ms)
    decreases |ms|
  {
    if n == |ms| {
      assert ms[..n] == ms;
    } else {
      assert ms[..|ms| - 1][..n] == ms[..n];
      IllegalStays(a, ms[..|ms| - 1], n);
    }
  }

  /** Handles messages until memory is unsound, which happens in exactly the sequences that
      continue a list right after its end. */
  method Replay<T>(ms: seq<Msg<T>>) returns (config: Config<T>, sound: bool)
    ensures sound <==> Legal(Unset(), ms)
    ensures sound ==> config.Valid() && config.View() == ReceiveAll(Unset(), ms)
  {
    config := new Config<T>();
    sound := true;
    var i := 0;
    while i < |ms| && sound
      invariant 0 <= i <= |ms|
      invariant sound ==> Legal(Unset(), ms[..i]) && config.Valid() && config.View() == ReceiveAll(Unset(), ms[..i])
      invariant !sound ==> !Legal(Unset(), ms)
      invariant fresh(config)
      decreases |ms| - i
    {
      assert ms[..i + 1][..i] == ms[..i];
      var _ := config.CfgInternalNet(ms[i]);
      i := i + 1;
      sound := !config.fault
               && (config.internal.Some? ==> config.internal.value in config.heap)
               && (config.policy.Some? ==> config.policy.value in config.heap);
      if !sound { IllegalStays(Unset(), ms, i); }
    }
    assert ms[..|ms|] == ms;
  }

  lemma Append<T>(a: Lists<T>, ms: seq<Msg<T>>, m: Msg<T>)
    ensures ReceiveAll(a, ms + [m]) == Receive(ReceiveAll(a, ms), m)
    ensures Legal(a, ms + [m]) <==> Legal(a, ms) && !Illegal(ReceiveAll(a, ms), m)
  {
    assert (ms + [m])[..|ms|] == ms;
  }

  /** A list sent whole and then continued is not legal. */
  lemma ContinuationAfterEnd<T>(x: T, y: T)
    ensures var whole, more := Flags(true, true, true, true, true), Flags(true, false, true, true, true);
            !Legal(Unset(), [Msg(whole, [x])] + [Msg(more, [y])])
  {
    var m1, m2 := Msg(Flags(true, true, true, true, true), [x]), Msg(Flags(true, false, true, true, true), [y]);
    Append(Unset(), [], m1);
    assert [] + [m1] == [m1];
    Append(Unset(), [m1], m2);
  }
}
