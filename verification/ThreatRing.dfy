/** The per-thread threat log ring of the data plane (dp/ctrl.c).

    One data-plane thread appends threat logs, the control thread drains them;
    neither takes a lock. The two routines are modelled twice: as the steps two
    threads can interleave in any order, and as the methods of a thread's data,
    each proved to be an uninterrupted run of its own steps. */
module ThreatRing {

  const MAX_LOG_ENTRIES: nat := 128

  /** A slot is torn while the copy into it is under way. */
  datatype Slot<E> = Whole(entry: E) | Torn

  function Wholes<E>(entries: seq<E>): seq<Slot<E>> {
    seq(|entries|, i requires 0 <= i < |entries| => Whole(entries[i]))
  }

  datatype WriterPc<E> = WIdle | WChecked(log: E) | WCopying(log: E) | WCopied(log: E)

  datatype ReaderPc = RIdle | RChecked(next: nat) | RClaimed

  /** `accepted` and `delivered` record the logs published and the slots handed on. */
  datatype State<E> = State(
    slots: seq<Slot<E>>, reader: nat, writer: nat,
    wpc: WriterPc<E>, rpc: ReaderPc,
    accepted: seq<E>, delivered: seq<Slot<E>>)

  datatype Step<E> =
    | WCheck(log: E) | WCopyBegin | WCopyEnd | WPublish
    | RCheck | RClaim | RDeliver

  function Next(i: nat): nat { (i + 1) % MAX_LOG_ENTRIES }

  predicate WellFormed<E>(s: State<E>) {
    |s.slots| == MAX_LOG_ENTRIES && s.reader < MAX_LOG_ENTRIES && s.writer < MAX_LOG_ENTRIES
    && (s.rpc.RChecked? ==> s.rpc.next < MAX_LOG_ENTRIES)
  }

  /** One step of one thread; a step whose program counter does not fit changes nothing. */
  function Apply<E>(s: State<E>, step: Step<E>): (r: State<E>)
    requires WellFormed(s)
    ensures WellFormed(r)
  {
    match step
    case WCheck(log) =>
      if s.wpc.WIdle? && s.writer != s.reader then s.(wpc := WChecked(log)) else s
    case WCopyBegin =>
      if s.wpc.WChecked? then s.(slots := s.slots[s.writer := Torn], wpc := WCopying(s.wpc.log)) else s
    case WCopyEnd =>
      if s.wpc.WCopying? then s.(slots := s.slots[s.writer := Whole(s.wpc.log)], wpc := WCopied(s.wpc.log)) else s
    case WPublish =>
      if s.wpc.WCopied? then
        s.(writer := Next(s.writer), wpc := WIdle, accepted := s.accepted + [s.wpc.log])
      else s
    case RCheck =>
      if s.rpc.RIdle? && Next(s.reader) != s.writer then s.(rpc := RChecked(Next(s.reader))) else s
    case RClaim =>
      if s.rpc.RChecked? then s.(reader := s.rpc.next, rpc := RClaimed) else s
    case RDeliver =>
      if s.rpc.RClaimed? then s.(delivered := s.delivered + [s.slots[s.reader]], rpc := RIdle) else s
  }

  /** Every interleaving is a sequence of steps. */
  function Run<E>(s: State<E>, steps: seq<Step<E>>): (r: State<E>)
    requires WellFormed(s)
    ensures WellFormed(r)
    decreases |steps|
  {
    if steps == [] then s else Apply(Run(s, steps[..|steps| - 1]), steps[|steps| - 1])
  }

  predicate Init<E>(s: State<E>) {
    |s.slots| == MAX_LOG_ENTRIES && s.reader == MAX_LOG_ENTRIES - 1 && s.writer == 0
    && s.wpc.WIdle? && s.rpc.RIdle? && s.accepted == [] && s.delivered == []
  }

  function Claimed<E>(s: State<E>): nat {
    |s.delivered| + if s.rpc.RClaimed? then 1 else 0
  }

  ghost predicate Inv<E>(s: State<E>) {
    && WellFormed(s)
    && Claimed(s) <= |s.accepted| < Claimed(s) + MAX_LOG_ENTRIES
    && s.writer == |s.accepted| % MAX_LOG_ENTRIES
    && s.reader == (Claimed(s) + MAX_LOG_ENTRIES - 1) % MAX_LOG_ENTRIES
    && (!s.wpc.WIdle? ==> |s.accepted| + 1 < Claimed(s) + MAX_LOG_ENTRIES)
    && (s.wpc.WCopied? ==> s.slots[s.writer] == Whole(s.wpc.log))
    && (s.rpc.RChecked? ==> s.rpc.next == Claimed(s) % MAX_LOG_ENTRIES && Claimed(s) < |s.accepted|)
    && (forall k :: 0 <= k < |s.accepted| && Claimed(s) <= k + 1 ==>
          s.slots[k % MAX_LOG_ENTRIES] == Whole(s.accepted[k]))
    && (forall k :: 0 <= k < |s.delivered| ==> s.delivered[k] == Whole(s.accepted[k]))
  }

  /** Fewer than a full turn apart, two positions never share a slot. */
  lemma DistinctSlots(a: nat, b: nat)
    requires a < b < a + MAX_LOG_ENTRIES
    ensures a % MAX_LOG_ENTRIES != b % MAX_LOG_ENTRIES
  {
  }

  /** The index tests, in terms of how many positions were claimed and published. */
  lemma IndexTests(claimed: nat, published: nat)
    requires claimed <= published < claimed + MAX_LOG_ENTRIES
    ensures var reader := (claimed + MAX_LOG_ENTRIES - 1) % MAX_LOG_ENTRIES;
            && Next(reader) == claimed % MAX_LOG_ENTRIES
            && (published % MAX_LOG_ENTRIES == reader <==> published - claimed == MAX_LOG_ENTRIES - 1)
            && (claimed % MAX_LOG_ENTRIES == published % MAX_LOG_ENTRIES <==> claimed == published)
  {
    if claimed < published { DistinctSlots(claimed, published); }
    if published < claimed + MAX_LOG_ENTRIES - 1 { DistinctSlots(published, claimed + MAX_LOG_ENTRIES - 1); }
  }

  /** The reader's index is the position claimed last. */
  lemma LastClaimed(k: nat)
    ensures (k + 1 + MAX_LOG_ENTRIES - 1) % MAX_LOG_ENTRIES == k % MAX_LOG_ENTRIES
  {
  }

  lemma WriteKeepsWaiting<E>(s: State<E>, slot: Slot<E>)
    requires Inv(s) && !s.wpc.WIdle?
    ensures forall k :: 0 <= k < |s.accepted| && Claimed(s) <= k + 1 ==>
              s.slots[s.writer := slot][k % MAX_LOG_ENTRIES] == Whole(s.accepted[k])
  {
    forall k | 0 <= k < |s.accepted| && Claimed(s) <= k + 1
      ensures s.slots[s.writer := slot][k % MAX_LOG_ENTRIES] == Whole(s.accepted[k])
    {
      DistinctSlots(k, |s.accepted|);
    }
  }

  lemma WriterStepKeepsInv<E>(s: State<E>, step: Step<E>)
    requires Inv(s)
    requires step.WCheck? || step.WCopyBegin? || step.WCopyEnd?
    ensures Inv(Apply(s, step))
  {
    match step
    case WCheck(log) =>
      IndexTests(Claimed(s), |s.accepted|);
    case WCopyBegin => if s.wpc.WChecked? { WriteKeepsWaiting(s, Torn); }
    case WCopyEnd => if s.wpc.WCopying? { WriteKeepsWaiting(s, Whole(s.wpc.log)); }
  }

  lemma PublishKeepsInv<E>(s: State<E>)
    requires Inv(s) && s.wpc.WCopied?
    ensures Inv(Apply(s, WPublish))
  {
    var t := Apply(s, WPublish);
    assert t.accepted[|s.accepted|] == s.wpc.log;
    assert forall k :: 0 <= k < |s.accepted| ==> t.accepted[k] == s.accepted[k];
  }

  lemma EmptyCheckKeepsInv<E>(s: State<E>)
    requires Inv(s)
    ensures Inv(Apply(s, RCheck))
  {
    IndexTests(Claimed(s), |s.accepted|);
  }

  lemma ClaimKeepsInv<E>(s: State<E>)
    requires Inv(s) && s.rpc.RChecked?
    ensures Inv(Apply(s, RClaim))
  {
    LastClaimed(Claimed(s));
    assert Claimed(Apply(s, RClaim)) == Claimed(s) + 1;
  }

  lemma DeliverKeepsInv<E>(s: State<E>)
    requires Inv(s) && s.rpc.RClaimed?
    ensures Inv(Apply(s, RDeliver))
  {
    var t := Apply(s, RDeliver);
    var k := |s.delivered|;
    LastClaimed(k);
    assert s.slots[k % MAX_LOG_ENTRIES] == Whole(s.accepted[k]);
    assert t.delivered[k] == Whole(s.accepted[k]);
    assert Claimed(t) == Claimed(s);
  }

  lemma StepKeepsInv<E>(s: State<E>, step: Step<E>)
    requires Inv(s)
    ensures Inv(Apply(s, step))
  {
    match step
    case WPublish => if s.wpc.WCopied? { PublishKeepsInv(s); }
    case WCheck(_) => WriterStepKeepsInv(s, step);
    case WCopyBegin => WriterStepKeepsInv(s, step);
    case WCopyEnd => WriterStepKeepsInv(s, step);
    case RCheck => EmptyCheckKeepsInv(s);
    case RClaim => if s.rpc.RChecked? { ClaimKeepsInv(s); }
    case RDeliver => if s.rpc.RClaimed? { DeliverKeepsInv(s); }
  }

  lemma {:induction false} RunKeepsInv<E>(s: State<E>, steps: seq<Step<E>>)
    requires Inv(s)
    ensures Inv(Run(s, steps))
    decreases |steps|
  {
    if steps != [] {
      RunKeepsInv(s, steps[..|steps| - 1]);
      StepKeepsInv(Run(s, steps[..|steps| - 1]), steps[|steps| - 1]);
    }
  }

  /** What the two threads rely on: the slot being copied is not the slot being
      read; logs come out whole, in order, none lost or repeated; at most
      MAX_LOG_ENTRIES - 1 wait; and the two index tests mean exactly full and empty. */
  ghost predicate Safe<E>(s: State<E>) {
    && WellFormed(s)
    && (!s.wpc.WIdle? ==> s.writer != s.reader)
    && |s.delivered| <= |s.accepted|
    && s.delivered == Wholes(s.accepted[..|s.delivered|])
    && (s.rpc.RClaimed? ==> |s.delivered| < |s.accepted| && s.slots[s.reader] == Whole(s.accepted[|s.delivered|]))
    && 0 <= |s.accepted| - Claimed(s) <= MAX_LOG_ENTRIES - 1
    && (s.writer == s.reader <==> |s.accepted| - Claimed(s) == MAX_LOG_ENTRIES - 1)
    && (Next(s.reader) == s.writer <==> |s.accepted| == Claimed(s))
  }

  lemma InvIsSafe<E>(s: State<E>)
    requires Inv(s)
    ensures Safe(s)
  {
    IndexTests(Claimed(s), |s.accepted|);
    if s.rpc.RClaimed? {
      LastClaimed(|s.delivered|);
    }
  }

  lemma EveryRunIsSafe<E>(init: State<E>, steps: seq<Step<E>>)
    requires Init(init)
    ensures Safe(Run(init, steps))
  {
    RunKeepsInv(init, steps);
    InvIsSafe(Run(init, steps));
  }

  lemma RunAppend<E>(s: State<E>, steps: seq<Step<E>>, step: Step<E>)
    requires WellFormed(s)
    ensures Run(s, steps + [step]) == Apply(Run(s, steps), step)
  {
    assert (steps + [step])[..|steps|] == steps;
  }

  function LogSteps<E>(log: E): seq<Step<E>> { [WCheck(log)] + [WCopyBegin] + [WCopyEnd] + [WPublish] }

  function ConsumeSteps<E>(n: nat): seq<Step<E>> {
    if n == 0 then [] else ConsumeSteps(n - 1) + [RCheck] + [RClaim] + [RDeliver]
  }

  lemma LogRun<E>(s: State<E>, log: E)
    requires WellFormed(s) && s.wpc.WIdle?
    ensures Run(s, LogSteps(log)) ==
            if s.writer == s.reader then s
            else s.(slots := s.slots[s.writer := Whole(log)], writer := Next(s.writer), accepted := s.accepted + [log])
  {
    assert Run(s, []) == s;
    RunAppend(s, [], WCheck(log));
    assert [] + [WCheck(log)] == [WCheck(log)];
    RunAppend(s, [WCheck(log)], WCopyBegin);
    RunAppend(s, [WCheck(log)] + [WCopyBegin], WCopyEnd);
    RunAppend(s, [WCheck(log)] + [WCopyBegin] + [WCopyEnd], WPublish);
  }

  lemma ConsumeRun<E>(s: State<E>, n: nat)
    requires WellFormed(s)
    requires Run(s, ConsumeSteps(n)).rpc.RIdle?
    ensures var t := Run(s, ConsumeSteps(n));
            Run(s, ConsumeSteps(n + 1)) ==
            if Next(t.reader) == t.writer then t
            else t.(reader := Next(t.reader), delivered := t.delivered + [t.slots[Next(t.reader)]])
  {
    var steps := ConsumeSteps(n);
    RunAppend(s, steps, RCheck);
    RunAppend(s, steps + [RCheck], RClaim);
    RunAppend(s, steps + [RCheck] + [RClaim], RDeliver);
  }

  lemma ConsumeOne<E>(start: State<E>, ring: seq<E>, reader: nat, sent: seq<E>)
    requires WellFormed(start) && start.rpc.RIdle? && start.slots == Wholes(ring)
    requires reader < MAX_LOG_ENTRIES && Next(reader) != start.writer
    requires Run(start, ConsumeSteps(|sent|)) == start.(reader := reader, delivered := Wholes(sent))
    ensures Run(start, ConsumeSteps(|sent| + 1)) ==
            start.(reader := Next(reader), delivered := Wholes(sent + [ring[Next(reader)]]))
  {
    ConsumeRun(start, |sent|);
    assert Wholes(sent + [ring[Next(reader)]]) == Wholes(sent) + [Whole(ring[Next(reader)])];
  }

  function Unread(reader: nat, writer: nat): nat
    requires reader < MAX_LOG_ENTRIES
  {
    if writer > reader then writer - reader - 1 else writer + MAX_LOG_ENTRIES - reader - 1
  }

  lemma UnreadShrinks(reader: nat, writer: nat)
    requires reader < MAX_LOG_ENTRIES && writer < MAX_LOG_ENTRIES && Next(reader) != writer
    ensures Unread(Next(reader), writer) < Unread(reader, writer)
  {
    assert Next(reader) == if reader + 1 == MAX_LOG_ENTRIES then 0 else reader + 1;
  }

  class ThreadData<E> {
    var logRing: array<E>
    var logReader: nat
    var logWriter: nat

    ghost predicate Valid()
      reads this
    {
      logRing.Length == MAX_LOG_ENTRIES && logReader < MAX_LOG_ENTRIES && logWriter < MAX_LOG_ENTRIES
    }

    /** The ring as the step machine sees it between two calls. */
    ghost function View(): (s: State<E>)
      reads this, logRing
      requires Valid()
      ensures WellFormed(s)
    {
      State(Wholes(logRing[..]), logReader, logWriter, WIdle, RIdle, [], [])
    }

    constructor (ring: array<E>)
      requires ring.Length == MAX_LOG_ENTRIES
      ensures Valid() && logRing == ring && Init(View())
    {
      logRing, logReader, logWriter := ring, MAX_LOG_ENTRIES - 1, 0;
    }

    method ThreatLog(log: E) returns (ret: int)
      requires Valid()
      modifies this`logWriter, logRing
      ensures Valid()
      ensures var r := Run(old(View()), LogSteps(log));
              View() == r.(accepted := []) && ret == (if r.accepted == [log] then 0 else -1)
    {
      LogRun(View(), log);
      if logWriter == logReader {
        return -1;
      }
      logRing[logWriter] := log;
      logWriter := (logWriter + 1) % MAX_LOG_ENTRIES;
      return 0;
    }

    /** Hands on what waits, oldest first, until the ring is empty. */
    method ConsumeThreatLog() returns (sent: seq<E>)
      requires Valid()
      modifies this`logReader
      ensures Valid() && Next(logReader) == logWriter
      ensures var r := Run(old(View()), ConsumeSteps(|sent|));
              && View() == r.(delivered := [])
              && r.delivered == Wholes(sent)
    {
      sent := [];
      ghost var start := View();
      while true
        invariant logReader < MAX_LOG_ENTRIES
        invariant Run(start, ConsumeSteps(|sent|)) == start.(reader := logReader, delivered := Wholes(sent))
        decreases Unread(logReader, logWriter)
      {
        var next := (logReader + 1) % MAX_LOG_ENTRIES;
        if next == logWriter {
          break;
        }
        ConsumeOne(start, logRing[..], logReader, sent);
        UnreadShrinks(logReader, logWriter);
        logReader := next;
        sent := sent + [logRing[logReader]];
      }
    }
  }
}
