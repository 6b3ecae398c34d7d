/** What the connection maps conserve, over every run of their steps (dp/ctrl.c). */
module ConnectLedger {
  import opened Counters
  import opened ConnectMap

  // ---- conservation

  function Counter(f: Field): Node -> nat { (n: Node) => Of(n.amounts, f) }

  function IsNode(id: nat): Node -> nat { (n: Node) => if n.id == id then 1 else 0 }

  function Weight(ns: seq<Node>, w: Node -> nat): nat {
    if ns == [] then 0 else Weight(ns[..|ns| - 1], w) + w(ns[|ns| - 1])
  }

  function DpWeight(d: Dp, w: Node -> nat): nat
    requires |d.maps| == 2
  {
    Weight(d.maps[0], w) + Weight(d.maps[1], w)
  }

  function DpsWeight(ds: seq<Dp>, w: Node -> nat): nat
    requires forall d <- ds :: |d.maps| == 2
  {
    if ds == [] then 0 else DpsWeight(ds[..|ds| - 1], w) + DpWeight(ds[|ds| - 1], w)
  }

  function SentWeight(msgs: seq<seq<Node>>, w: Node -> nat): nat {
    if msgs == [] then 0 else SentWeight(msgs[..|msgs| - 1], w) + Weight(msgs[|msgs| - 1], w)
  }

  /** What is in the maps, in the buffer and in messages already sent. */
  function StateWeight(s: State, w: Node -> nat): nat
    requires Shape(s)
  {
    DpsWeight(s.dps, w) + Weight(s.buffer, w) + SentWeight(s.sent, w)
  }

  lemma WeightAppend(ns: seq<Node>, n: Node, w: Node -> nat)
    ensures Weight(ns + [n], w) == Weight(ns, w) + w(n)
  {
    assert (ns + [n])[..|ns|] == ns;
  }

  lemma {:induction false} WeightSplit(a: seq<Node>, b: seq<Node>, w: Node -> nat)
    ensures Weight(a + b, w) == Weight(a, w) + Weight(b, w)
  {
    if b == [] {
      assert a + b == a;
    } else {
      assert (a + b)[..|a + b| - 1] == a + b[..|b| - 1];
      WeightSplit(a, b[..|b| - 1], w);
    }
  }

  lemma WeightAt(ns: seq<Node>, i: nat, n: Node, w: Node -> nat)
    requires i < |ns|
    ensures Weight(ns[..i] + ns[i + 1..], w) + w(ns[i]) == Weight(ns, w)
    ensures Weight(ns[i := n], w) + w(ns[i]) == Weight(ns, w) + w(n)
  {
    assert ns == ns[..i] + [ns[i]] + ns[i + 1..];
    assert ns[i := n] == ns[..i] + [n] + ns[i + 1..];
    WeightSplit(ns[..i] + [ns[i]], ns[i + 1..], w);
    WeightSplit(ns[..i] + [n], ns[i + 1..], w);
    WeightSplit(ns[..i], ns[i + 1..], w);
    WeightAppend(ns[..i], ns[i], w);
    WeightAppend(ns[..i], n, w);
  }

  lemma {:induction false} DpsWeightAt(ds: seq<Dp>, t: nat, d: Dp, w: Node -> nat)
    requires t < |ds| && |d.maps| == 2 && forall x <- ds :: |x.maps| == 2
    ensures DpsWeight(ds[t := d], w) + DpWeight(ds[t], w) == DpsWeight(ds, w) + DpWeight(d, w)
  {
    var last := |ds| - 1;
    if t == last {
      assert ds[t := d][..last] == ds[..last];
    } else {
      assert ds[t := d][..last] == ds[..last][t := d];
      DpsWeightAt(ds[..last], t, d, w);
    }
  }

  lemma MapWeight(d: Dp, idx: nat, m: seq<Node>, w: Node -> nat)
    requires |d.maps| == 2 && idx < 2
    ensures DpWeight(SetMap(d, idx, m), w) + Weight(d.maps[idx], w) == DpWeight(d, w) + Weight(m, w)
  {
  }

  lemma SentAppend(msgs: seq<seq<Node>>, m: seq<Node>, w: Node -> nat)
    ensures SentWeight(msgs + [m], w) == SentWeight(msgs, w) + Weight(m, w)
  {
    assert (msgs + [m])[..|msgs|] == msgs;
  }

  lemma SendMoves(s: State, w: Node -> nat)
    requires Shape(s)
    ensures StateWeight(Send(s), w) == StateWeight(s, w)
  {
    SentAppend(s.sent, s.buffer, w);
  }

  lemma HitWeight(s: State, t: nat, r: Report, pick: nat, w: Node -> nat)
    requires Shape(s) && t < |s.dps| && s.dps[t].pc.Holding? && pick < |s.dps[t].maps[s.dps[t].pc.idx]|
    ensures var n := s.dps[t].maps[s.dps[t].pc.idx][pick];
            var n' := n.(amounts := WrapPlus(n.amounts, r.amounts, WIDTH));
            StateWeight(ApplyHit(s, t, r, pick), w) + w(n) == StateWeight(s, w) + w(n')
  {
    var d := s.dps[t];
    var m := d.maps[d.pc.idx];
    var n' := m[pick].(amounts := WrapPlus(m[pick].amounts, r.amounts, WIDTH));
    WeightAt(m, pick, n', w);
    MapWeight(d, d.pc.idx, m[pick := n'], w);
    DpsWeightAt(s.dps, t, SetMap(d, d.pc.idx, m[pick := n']).(pc := Inside), w);
  }

  lemma AddWeight(s: State, t: nat, r: Report, w: Node -> nat)
    requires Shape(s) && t < |s.dps| && s.dps[t].pc.Holding?
    ensures StateWeight(AddNode(s, t, r), w) == StateWeight(s, w) + w(NewNode(s, r))
  {
    var d := s.dps[t];
    var m := d.maps[d.pc.idx] + [NewNode(s, r)];
    WeightAppend(d.maps[d.pc.idx], NewNode(s, r), w);
    MapWeight(d, d.pc.idx, m, w);
    DpsWeightAt(s.dps, t, SetMap(d, d.pc.idx, m).(pc := Adding(d.pc.idx)), w);
  }

  lemma TakeMoves(s: State, t: nat, idx: nat, pick: nat, w: Node -> nat)
    requires Shape(s) && t < |s.dps| && idx < 2 && pick < |s.dps[t].maps[idx]|
    ensures var m := s.dps[t].maps[idx];
            StateWeight(SetDp(s, t, SetMap(s.dps[t], idx, m[..pick] + m[pick + 1..])).(buffer := s.buffer + [m[pick]]), w)
            == StateWeight(s, w)
  {
    var d := s.dps[t];
    var m := d.maps[idx];
    var m' := m[..pick] + m[pick + 1..];
    WeightAt(m, pick, m[pick], w);
    MapWeight(d, idx, m', w);
    DpsWeightAt(s.dps, t, SetMap(d, idx, m'), w);
    WeightAppend(s.buffer, m[pick], w);
  }

  lemma DrainMoves(s: State, pick: nat, w: Node -> nat)
    requires Shape(s) && Enabled(s, CtrlDrain(pick))
    ensures StateWeight(ApplyDrain(s, pick), w) == StateWeight(s, w)
  {
    var d := s.dps[s.ctrl.thr];
    var m := d.maps[s.ctrl.idx];
    var m' := m[..pick] + m[pick + 1..];
    TakeMoves(s, s.ctrl.thr, s.ctrl.idx, pick, w);
    SendMoves(SetDp(s, s.ctrl.thr, SetMap(d, s.ctrl.idx, m')).(buffer := s.buffer + [m[pick]]), w);
  }

  lemma SameMaps(s: State, t: nat, s': State, w: Node -> nat)
    requires Shape(s) && Shape(s') && t < |s.dps| == |s'.dps| && s'.dps == s.dps[t := s'.dps[t]]
    requires s'.dps[t].maps == s.dps[t].maps && s'.buffer == s.buffer && s'.sent == s.sent
    ensures StateWeight(s', w) == StateWeight(s, w)
  {
    DpsWeightAt(s.dps, t, s'.dps[t], w);
  }

  /** Steps other than a report neither create, change nor lose an entry. */
  lemma OtherStepMoves(s: State, step: Step, w: Node -> nat)
    requires Shape(s) && !step.Hit? && !step.Miss?
    ensures StateWeight(Apply(s, step), w) == StateWeight(s, w)
  {
    if Enabled(s, step) {
      match step
      case CtrlDrain(pick) => DrainMoves(s, pick, w);
      case CtrlFlush => SendMoves(s.(ctrl := Idle), w);
      case CtrlFlip => SameMaps(s, s.ctrl.thr, Apply(s, step), w);
      case CtrlDrained => SameMaps(s, s.ctrl.thr, Apply(s, step), w);
      case BeginSection(t) => SameMaps(s, t, Apply(s, step), w);
      case EndSection(t) => SameMaps(s, t, Apply(s, step), w);
      case LoadCur(t) => SameMaps(s, t, Apply(s, step), w);
      case CountNode(t) => SameMaps(s, t, Apply(s, step), w);
      case _ =>
    }
  }

  ghost predicate Ledger(s: State, f: Field, id: nat)
    requires Shape(s)
  {
    && Accounts(Of(s.accepted, f), StateWeight(s, Counter(f)), Of(WIDTH, f))
    && StateWeight(s, IsNode(id)) == if id < s.nextId then 1 else 0
  }

  lemma HitHoldsNode(s: State, t: nat, pick: nat, w: Node -> nat)
    requires Shape(s) && t < |s.dps| && s.dps[t].pc.Holding? && pick < |s.dps[t].maps[s.dps[t].pc.idx]|
    ensures w(s.dps[t].maps[s.dps[t].pc.idx][pick]) <= StateWeight(s, w)
  {
    var d := s.dps[t];
    var m := d.maps[d.pc.idx];
    WeightAt(m, pick, m[pick], w);
    DpsWeightAt(s.dps, t, d.(maps := [[], []]), w);
  }

  lemma HitKeepsLedger(s: State, t: nat, r: Report, pick: nat, f: Field, id: nat)
    requires Shape(s) && t < |s.dps| && s.dps[t].pc.Holding? && pick < |s.dps[t].maps[s.dps[t].pc.idx]|
    requires Ledger(s, f, id)
    ensures Ledger(ApplyHit(s, t, r, pick), f, id)
  {
    var a := Of(s.dps[t].maps[s.dps[t].pc.idx][pick].amounts, f);
    HitWeight(s, t, r, pick, Counter(f));
    HitWeight(s, t, r, pick, IsNode(id));
    HitHoldsNode(s, t, pick, Counter(f));
    AccountsAdd(Of(s.accepted, f), StateWeight(s, Counter(f)) - a, a, Of(r.amounts, f), Of(WIDTH, f));
  }

  /** A change that leaves all entries, what was accepted and the next identity alone. */
  lemma SameEntriesKeepLedger(s: State, t: nat, s': State, f: Field, id: nat)
    requires Shape(s) && Shape(s') && t < |s.dps| == |s'.dps| && s'.dps == s.dps[t := s'.dps[t]]
    requires s'.dps[t].maps == s.dps[t].maps && s'.buffer == s.buffer && s'.sent == s.sent
    requires s'.accepted == s.accepted && s'.nextId == s.nextId && Ledger(s, f, id)
    ensures Ledger(s', f, id)
  {
    SameMaps(s, t, s', Counter(f));
    SameMaps(s, t, s', IsNode(id));
  }

  lemma AddAccepts(s: State, t: nat, r: Report, f: Field)
    requires Shape(s) && t < |s.dps| && s.dps[t].pc.Holding?
    ensures Of(AddNode(s, t, r).accepted, f) == Of(s.accepted, f) + Of(r.amounts, f)
    ensures Of(WIDTH, f) > 0 && Of(NewNode(s, r).amounts, f) == Of(r.amounts, f) % Of(WIDTH, f)
  {
    assert Of(ZERO, f) == 0;
  }

  lemma AddWeighs(s: State, t: nat, r: Report, f: Field)
    requires Shape(s) && t < |s.dps| && s.dps[t].pc.Holding?
    ensures Of(WIDTH, f) > 0
    ensures StateWeight(AddNode(s, t, r), Counter(f)) == StateWeight(s, Counter(f)) + Of(r.amounts, f) % Of(WIDTH, f)
  {
    AddAccepts(s, t, r, f);
    AddWeight(s, t, r, Counter(f));
  }

  lemma AddIdentifies(s: State, t: nat, r: Report, id: nat)
    requires Shape(s) && t < |s.dps| && s.dps[t].pc.Holding?
    requires StateWeight(s, IsNode(id)) == if id < s.nextId then 1 else 0
    ensures StateWeight(AddNode(s, t, r), IsNode(id)) == if id < AddNode(s, t, r).nextId then 1 else 0
  {
    AddWeight(s, t, r, IsNode(id));
  }

  lemma AddBalances(total: nat, weight: nat, x: nat, width: nat, total': nat, weight': nat)
    requires width > 0 && Accounts(total, weight, width) && total' == total + x && weight' == weight + x % width
    ensures Accounts(total', weight', width)
  {
    AccountsEntry(total, weight, x, width);
  }

  lemma AddKeepsLedger(s: State, t: nat, r: Report, f: Field, id: nat)
    requires Shape(s) && t < |s.dps| && s.dps[t].pc.Holding? && Ledger(s, f, id)
    ensures Ledger(AddNode(s, t, r), f, id)
  {
    AddIdentifies(s, t, r, id);
    AddAccepts(s, t, r, f);
    AddWeighs(s, t, r, f);
    AddBalances(Of(s.accepted, f), StateWeight(s, Counter(f)), Of(r.amounts, f), Of(WIDTH, f),
                Of(AddNode(s, t, r).accepted, f), StateWeight(AddNode(s, t, r), Counter(f)));
  }

  lemma MissKeepsLedger(s: State, t: nat, r: Report, now: nat, alloc: bool, f: Field, id: nat)
    requires Shape(s) && t < |s.dps| && s.dps[t].pc.Holding? && Ledger(s, f, id)
    ensures Ledger(ApplyMiss(s, t, r, now, alloc), f, id)
  {
    var s1 := Limit(s, t, r, now);
    SameEntriesKeepLedger(s, t, s1, f, id);
    if Admitted(s, t, r, now) && alloc {
      AddKeepsLedger(s1, t, r, f, id);
    } else {
      SameEntriesKeepLedger(s1, t, Drop(s1, t, r, Admitted(s, t, r, now)), f, id);
    }
  }

  lemma StepKeepsLedger(s: State, step: Step, f: Field, id: nat)
    requires Shape(s) && Ledger(s, f, id)
    ensures Ledger(Apply(s, step), f, id)
  {
    if Enabled(s, step) {
      match step
      case Hit(t, r, _, pick) => HitKeepsLedger(s, t, r, pick, f, id);
      case Miss(t, r, _, now, alloc) => MissKeepsLedger(s, t, r, now, alloc, f, id);
      case _ =>
        OtherStepMoves(s, step, Counter(f));
        OtherStepMoves(s, step, IsNode(id));
    }
  }

  // ---- messages

  /** Messages sent are never empty nor over-full, nothing lingers in the buffer between
      passes, and a high-priority report is lost only for want of memory. */
  predicate Batched(s: State) {
    && |s.buffer| < CONNECTS_PER_MSG
    && (forall m <- s.sent :: 0 < |m| <= CONNECTS_PER_MSG)
    && (s.ctrl.Idle? ==> s.buffer == [])
    && (forall d <- s.dropped :: HighPriority(d.0) ==> d.1)
  }

  lemma MissKeepsBatched(s: State, t: nat, r: Report, now: nat, alloc: bool)
    requires Shape(s) && t < |s.dps| && s.dps[t].pc.Holding? && Batched(s)
    ensures Batched(ApplyMiss(s, t, r, now, alloc))
  {
  }

  lemma DrainKeepsBatched(s: State, pick: nat)
    requires Shape(s) && Enabled(s, CtrlDrain(pick)) && Batched(s)
    ensures Batched(ApplyDrain(s, pick))
  {
  }

  lemma StepKeepsBatched(s: State, step: Step)
    requires Shape(s) && Batched(s)
    ensures Batched(Apply(s, step))
  {
    if Enabled(s, step) {
      match step
      case Miss(t, r, _, now, alloc) => MissKeepsBatched(s, t, r, now, alloc);
      case CtrlDrain(pick) => DrainKeepsBatched(s, pick);
      case _ =>
    }
  }

  lemma {:induction false} EmptyWeight(ds: seq<Dp>, w: Node -> nat)
    requires forall d <- ds :: d.maps == [[], []]
    ensures DpsWeight(ds, w) == 0
  {
    if ds != [] { EmptyWeight(ds[..|ds| - 1], w); }
  }

  lemma {:induction false} InitLedger(s: State, f: Field, id: nat)
    requires Init(s)
    ensures Ledger(s, f, id)
  {
    EmptyWeight(s.dps, Counter(f));
    EmptyWeight(s.dps, IsNode(id));
    AccountsZero(0, Of(WIDTH, f));
  }

  lemma {:induction false} RunKeepsBooks(init: State, steps: seq<Step>, f: Field, id: nat)
    requires Init(init)
    ensures Ledger(Run(init, steps), f, id) && Batched(Run(init, steps))
  {
    if steps == [] {
      InitLedger(init, f, id);
    } else {
      var before := Run(init, steps[..|steps| - 1]);
      RunKeepsBooks(init, steps[..|steps| - 1], f, id);
      StepKeepsLedger(before, steps[|steps| - 1], f, id);
      StepKeepsBatched(before, steps[|steps| - 1]);
    }
  }

  // ---- exactness

  function Width(f: Field): (w: nat)
    ensures w == 0x1_0000_0000
  {
    Of(WIDTH, f)
  }

  /** What an entry's counter does not show of a report: the sum it takes in, less what fits. */
  function StepCarry(s: State, step: Step, f: Field): nat
    requires Shape(s)
  {
    if !Enabled(s, step) then 0
    else
      match step
      case Hit(t, r, _, pick) => Carry(Of(s.dps[t].maps[s.dps[t].pc.idx][pick].amounts, f) + Of(r.amounts, f), Width(f))
      case Miss(t, r, _, now, alloc) => if Admitted(s, t, r, now) && alloc then Carry(Of(r.amounts, f), Width(f)) else 0
      case _ => 0
  }

  lemma HitCarries(s: State, t: nat, r: Report, pick: nat, f: Field)
    requires Shape(s) && t < |s.dps| && s.dps[t].pc.Holding? && pick < |s.dps[t].maps[s.dps[t].pc.idx]|
    ensures var a := Of(s.dps[t].maps[s.dps[t].pc.idx][pick].amounts, f);
            var s' := ApplyHit(s, t, r, pick);
            && Of(s'.accepted, f) == Of(s.accepted, f) + Of(r.amounts, f)
            && StateWeight(s', Counter(f)) + a == StateWeight(s, Counter(f)) + (a + Of(r.amounts, f)) % Width(f)
  {
    HitWeight(s, t, r, pick, Counter(f));
  }

  lemma MissCarries(s: State, t: nat, r: Report, now: nat, alloc: bool, f: Field)
    requires Shape(s) && t < |s.dps| && s.dps[t].pc.Holding?
    ensures var s' := ApplyMiss(s, t, r, now, alloc);
            if Admitted(s, t, r, now) && alloc then
              && Of(s'.accepted, f) == Of(s.accepted, f) + Of(r.amounts, f)
              && StateWeight(s', Counter(f)) == StateWeight(s, Counter(f)) + Of(r.amounts, f) % Width(f)
            else
              s'.accepted == s.accepted && StateWeight(s', Counter(f)) == StateWeight(s, Counter(f))
  {
    var s1 := Limit(s, t, r, now);
    SameMaps(s, t, s1, Counter(f));
    if Admitted(s, t, r, now) && alloc {
      AddAccepts(s1, t, r, f);
      AddWeighs(s1, t, r, f);
    } else {
      SameMaps(s1, t, Drop(s1, t, r, Admitted(s, t, r, now)), Counter(f));
    }
  }

  lemma OtherStepAccepts(s: State, step: Step)
    requires Shape(s) && !step.Hit? && !step.Miss?
    ensures Apply(s, step).accepted == s.accepted
  {
  }

  /** Between two states more is accepted, and all of it found except what is carried. */
  predicate Grows(s: State, s': State, f: Field, carry: nat)
    requires Shape(s) && Shape(s')
  {
    Of(s'.accepted, f) + StateWeight(s, Counter(f)) == Of(s.accepted, f) + StateWeight(s', Counter(f)) + carry
  }

  lemma HitGrows(s: State, step: Step, f: Field)
    requires Shape(s) && step.Hit? && Enabled(s, step)
    ensures Grows(s, Apply(s, step), f, StepCarry(s, step, f))
  {
    HitCarries(s, step.t, step.r, step.pick, f);
  }

  lemma MissGrows(s: State, step: Step, f: Field)
    requires Shape(s) && step.Miss? && Enabled(s, step)
    ensures Grows(s, Apply(s, step), f, StepCarry(s, step, f))
  {
    MissCarries(s, step.t, step.r, step.now, step.alloc, f);
  }

  lemma OtherGrows(s: State, step: Step, f: Field)
    requires Shape(s) && !step.Hit? && !step.Miss?
    ensures Grows(s, Apply(s, step), f, 0)
  {
    OtherStepMoves(s, step, Counter(f));
    OtherStepAccepts(s, step);
  }

  /** Each step adds to what is not shown exactly what it carries. */
  lemma StepCarries(s: State, step: Step, f: Field)
    requires Shape(s)
    ensures Grows(s, Apply(s, step), f, StepCarry(s, step, f))
  {
    if Enabled(s, step) && step.Hit? {
      HitGrows(s, step, f);
    } else if Enabled(s, step) && step.Miss? {
      MissGrows(s, step, f);
    } else if Enabled(s, step) {
      OtherGrows(s, step, f);
    }
  }

  /** All that was carried in a run. */
  function Carried(init: State, steps: seq<Step>, f: Field): nat
    requires Shape(init)
  {
    if steps == [] then 0
    else
      var before := steps[..|steps| - 1];
      Carried(init, before, f) + StepCarry(Run(init, before), steps[|steps| - 1], f)
  }

  /** A report takes the counter of its entry past its width. */
  predicate Overflows(s: State, step: Step, f: Field)
    requires Shape(s)
  {
    && Enabled(s, step)
    && match step
       case Hit(t, r, _, pick) => Of(s.dps[t].maps[s.dps[t].pc.idx][pick].amounts, f) + Of(r.amounts, f) >= Width(f)
       case Miss(t, r, _, now, alloc) => Admitted(s, t, r, now) && alloc && Of(r.amounts, f) >= Width(f)
       case _ => false
  }

  predicate NeverOverflows(init: State, steps: seq<Step>, f: Field)
    requires Shape(init)
  {
    steps == [] ||
    var before := steps[..|steps| - 1];
    NeverOverflows(init, before, f) && !Overflows(Run(init, before), steps[|steps| - 1], f)
  }

  lemma OverflowCarries(s: State, step: Step, f: Field)
    requires Shape(s)
    ensures StepCarry(s, step, f) > 0 <==> Overflows(s, step, f)
  {
    if Enabled(s, step) {
      match step
      case Hit(t, r, _, pick) => CarriesWhenFull(Of(s.dps[t].maps[s.dps[t].pc.idx][pick].amounts, f) + Of(r.amounts, f), Width(f));
      case Miss(t, r, _, _, _) => CarriesWhenFull(Of(r.amounts, f), Width(f));
      case _ =>
    }
  }

  lemma {:induction false} RunCarries(init: State, steps: seq<Step>, f: Field)
    requires Init(init)
    ensures var s := Run(init, steps); Of(s.accepted, f) == StateWeight(s, Counter(f)) + Carried(init, steps, f)
    ensures Carried(init, steps, f) == 0 <==> NeverOverflows(init, steps, f)
  {
    if steps == [] {
      EmptyWeight(init.dps, Counter(f));
    } else {
      var before, step := steps[..|steps| - 1], steps[|steps| - 1];
      RunCarries(init, before, f);
      StepCarries(Run(init, before), step, f);
      OverflowCarries(Run(init, before), step, f);
    }
  }

  /** In every run what was accepted is in the maps, the buffer or the messages, up to what the
      32-bit counters of single entries could not hold: the two are equal if and only if no report
      takes the counter of its entry past its width, and otherwise differ by whole turns. */
  lemma EveryRunConserves(init: State, steps: seq<Step>, f: Field)
    requires Init(init)
    ensures var s := Run(init, steps);
            && Of(s.accepted, f) == StateWeight(s, Counter(f)) + Carried(init, steps, f)
            && Accounts(Of(s.accepted, f), StateWeight(s, Counter(f)), Width(f))
            && (Of(s.accepted, f) == StateWeight(s, Counter(f)) <==> NeverOverflows(init, steps, f))
            && (Of(s.accepted, f) < Width(f) ==> NeverOverflows(init, steps, f))
  {
    var s := Run(init, steps);
    RunKeepsBooks(init, steps, f, 0);
    RunCarries(init, steps, f);
    if Of(s.accepted, f) < Width(f) { AccountsExactly(Of(s.accepted, f), StateWeight(s, Counter(f)), Width(f)); }
  }

  /** Every entry ever added is in exactly one place: a map, the buffer, or one message, once. */
  lemma EveryEntryGoesOutOnce(init: State, steps: seq<Step>, id: nat)
    requires Init(init)
    ensures var s := Run(init, steps);
            && DpsWeight(s.dps, IsNode(id)) + Weight(s.buffer, IsNode(id)) + SentWeight(s.sent, IsNode(id))
               == (if id < s.nextId then 1 else 0)
            && (forall m <- s.sent :: 0 < |m| <= CONNECTS_PER_MSG)
            && (s.ctrl.Idle? ==> s.buffer == [])
            && (forall d <- s.dropped :: HighPriority(d.0) ==> d.1)
  {
    RunKeepsBooks(init, steps, Bytes, id);
  }
}
