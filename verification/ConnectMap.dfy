/** The double-buffered connection maps between the data-plane threads and the
    control thread (dp/ctrl.c).

    A data-plane thread reports connections inside RCU read sections, into the
    map it finds current. The control thread flips a thread's current map, waits
    for a grace period, and drains the other map into messages. Every step below
    is one such action of one thread, and a run is any interleaving of them. */
module ConnectMap {
  import opened Counters
  import RL = RateLimiter

  const DP_POLICY_ACTION_LEARN: nat := 1
  const DP_POLICY_ACTION_VIOLATE: nat := 6

  /** Message size, less the two headers of 4 bytes, in entries of 96 bytes. */
  const CONNECTS_PER_MSG: nat := (8192 - 4 - 4) / 96

  /** All three counters of an entry are 32 bits wide. */
  const WIDTH := Amounts(0x1_0000_0000, 0x1_0000_0000, 0x1_0000_0000)

  datatype Key = Key(polId: nat, client: nat, server: nat, port: nat, ipproto: nat, ingress: bool)

  /** A map entry. `id` is the identity of the allocated node. */
  datatype Node = Node(id: nat, key: Key, application: nat, amounts: Amounts)

  datatype Report = Report(key: Key, application: nat, action: nat, amounts: Amounts)

  /** Inside a read section a thread may hold a map index; `Adding` is the gap
      between adding a node and counting it. */
  datatype DpPc = Outside | Inside | Holding(idx: nat) | Adding(idx: nat)

  datatype Dp = Dp(maps: seq<seq<Node>>, cnt: seq<nat>, cur: nat, pc: DpPc, rl: RL.Limiter)

  datatype CtrlPc =
    | Idle
    | At(thr: nat)
    | Flipping(thr: nat, idx: nat)
    | Waiting(thr: nat, idx: nat, readers: set<nat>)
    | Draining(thr: nat, idx: nat)

  datatype State = State(
    dps: seq<Dp>, ctrl: CtrlPc,
    buffer: seq<Node>, sent: seq<seq<Node>>,
    accepted: Amounts, dropped: seq<(Report, bool)>, nextId: nat)

  datatype Step =
    | BeginSection(t: nat) | EndSection(t: nat) | LoadCur(t: nat)
      // the lookup key carries an uninitialised application value
    | Hit(t: nat, r: Report, garbage: nat, pick: nat)
    | Miss(t: nat, r: Report, garbage: nat, now: nat, alloc: bool)
    | CountNode(t: nat)
    | CtrlStart | CtrlCheck | CtrlFlip | CtrlGrace | CtrlDrain(pick: nat) | CtrlDrained | CtrlFlush

  predicate Matches(n: Node, key: Key, application: nat) {
    n.key == key && n.application == application
  }

  predicate HighPriority(r: Report) {
    r.action == DP_POLICY_ACTION_LEARN || r.action >= DP_POLICY_ACTION_VIOLATE
  }

  predicate InSection(d: Dp) { !d.pc.Outside? }

  predicate DpShape(d: Dp) {
    && |d.maps| == 2 && |d.cnt| == 2 && d.cur < 2 && RL.Valid(d.rl)
    && (d.pc.Holding? || d.pc.Adding? ==> d.pc.idx < 2)
  }

  predicate Shape(s: State) {
    && (forall t :: 0 <= t < |s.dps| ==> DpShape(s.dps[t]))
    && (s.ctrl.At? ==> s.ctrl.thr <= |s.dps|)
    && (s.ctrl.Flipping? || s.ctrl.Waiting? || s.ctrl.Draining? ==> s.ctrl.thr < |s.dps| && s.ctrl.idx < 2)
  }

  predicate Enabled(s: State, step: Step)
    requires Shape(s)
  {
    match step
    case BeginSection(t) => t < |s.dps| && s.dps[t].pc.Outside?
    case EndSection(t) => t < |s.dps| && s.dps[t].pc.Inside?
    case LoadCur(t) => t < |s.dps| && s.dps[t].pc.Inside?
    case Hit(t, r, garbage, pick) =>
      && t < |s.dps| && s.dps[t].pc.Holding?
      && var m := s.dps[t].maps[s.dps[t].pc.idx];
      pick < |m| && Matches(m[pick], r.key, garbage)
    case Miss(t, r, garbage, _, _) =>
      && t < |s.dps| && s.dps[t].pc.Holding?
      && forall n <- s.dps[t].maps[s.dps[t].pc.idx] :: !Matches(n, r.key, garbage)
    case CountNode(t) => t < |s.dps| && s.dps[t].pc.Adding?
    case CtrlStart => s.ctrl.Idle?
    case CtrlCheck => s.ctrl.At? && s.ctrl.thr < |s.dps|
    case CtrlFlip => s.ctrl.Flipping?
    case CtrlGrace => s.ctrl.Waiting? && s.ctrl.readers == {}
    case CtrlDrain(pick) => s.ctrl.Draining? && pick < |s.dps[s.ctrl.thr].maps[s.ctrl.idx]|
    case CtrlDrained => s.ctrl.Draining? && s.dps[s.ctrl.thr].maps[s.ctrl.idx] == []
    case CtrlFlush => s.ctrl.At? && s.ctrl.thr == |s.dps|
  }

  function SetDp(s: State, t: nat, d: Dp): State
    requires t < |s.dps|
  {
    s.(dps := s.dps[t := d])
  }

  function SetMap(d: Dp, idx: nat, m: seq<Node>): Dp
    requires idx < |d.maps|
  {
    d.(maps := d.maps[idx := m])
  }

  /** Send the buffered entries as one message. */
  function Send(s: State): State {
    s.(sent := s.sent + [s.buffer], buffer := [])
  }

  function NewNode(s: State, r: Report): Node {
    Node(s.nextId, r.key, r.application, WrapPlus(ZERO, r.amounts, WIDTH))
  }

  function AddNode(s: State, t: nat, r: Report): (s': State)
    requires Shape(s) && t < |s.dps| && s.dps[t].pc.Holding?
    ensures Shape(s')
  {
    var d := s.dps[t];
    SetDp(s, t, SetMap(d, d.pc.idx, d.maps[d.pc.idx] + [NewNode(s, r)]).(pc := Adding(d.pc.idx)))
      .(accepted := Plus(s.accepted, r.amounts), nextId := s.nextId + 1)
  }

  function Drop(s: State, t: nat, r: Report, admitted: bool): (s': State)
    requires Shape(s) && t < |s.dps|
    ensures Shape(s')
  {
    SetDp(s, t, s.dps[t].(pc := Inside)).(dropped := s.dropped + [(r, admitted)])
  }

  /** High-priority reports do not go through the limiter. */
  function Limit(s: State, t: nat, r: Report, now: nat): (s': State)
    requires Shape(s) && t < |s.dps|
    ensures Shape(s')
  {
    if HighPriority(r) then s else SetDp(s, t, s.dps[t].(rl := RL.Check(s.dps[t].rl, now)))
  }

  predicate Admits(d: Dp, r: Report, now: nat)
    requires DpShape(d)
  {
    HighPriority(r) || RL.Passed(d.rl, now)
  }

  predicate Admitted(s: State, t: nat, r: Report, now: nat)
    requires Shape(s) && t < |s.dps|
  {
    Admits(s.dps[t], r, now)
  }

  /** A report that finds no entry. */
  function ApplyMiss(s: State, t: nat, r: Report, now: nat, alloc: bool): (s': State)
    requires Shape(s) && t < |s.dps| && s.dps[t].pc.Holding?
    ensures Shape(s')
  {
    var s1 := Limit(s, t, r, now);
    if Admitted(s, t, r, now) && alloc then AddNode(s1, t, r) else Drop(s1, t, r, Admitted(s, t, r, now))
  }

  function ApplyHit(s: State, t: nat, r: Report, pick: nat): (s': State)
    requires Shape(s) && t < |s.dps| && s.dps[t].pc.Holding? && pick < |s.dps[t].maps[s.dps[t].pc.idx]|
    ensures Shape(s')
  {
    var d := s.dps[t];
    var m := d.maps[d.pc.idx];
    var n := m[pick].(amounts := WrapPlus(m[pick].amounts, r.amounts, WIDTH));
    SetDp(s, t, SetMap(d, d.pc.idx, m[pick := n]).(pc := Inside)).(accepted := Plus(s.accepted, r.amounts))
  }

  function ApplyDp(s: State, step: Step): (s': State)
    requires Shape(s) && Enabled(s, step)
    requires step.BeginSection? || step.EndSection? || step.LoadCur? || step.Hit? || step.Miss? || step.CountNode?
    ensures Shape(s')
  {
    match step
    case BeginSection(t) => SetDp(s, t, s.dps[t].(pc := Inside))
    case EndSection(t) =>
      var s1 := SetDp(s, t, s.dps[t].(pc := Outside));
      if s.ctrl.Waiting? then s1.(ctrl := s.ctrl.(readers := s.ctrl.readers - {t})) else s1
    case LoadCur(t) => SetDp(s, t, s.dps[t].(pc := Holding(s.dps[t].cur)))
    case Hit(t, r, _, pick) => ApplyHit(s, t, r, pick)
    case Miss(t, r, _, now, alloc) => ApplyMiss(s, t, r, now, alloc)
    case CountNode(t) =>
      var d := s.dps[t];
      SetDp(s, t, d.(cnt := d.cnt[d.pc.idx := d.cnt[d.pc.idx] + 1], pc := Inside))
  }

  /** Move one entry of the retired map into the buffer; a full buffer is sent. */
  function ApplyDrain(s: State, pick: nat): (s': State)
    requires Shape(s) && s.ctrl.Draining? && pick < |s.dps[s.ctrl.thr].maps[s.ctrl.idx]|
    ensures Shape(s')
  {
    var d := s.dps[s.ctrl.thr];
    var m := d.maps[s.ctrl.idx];
    var s1 := SetDp(s, s.ctrl.thr, SetMap(d, s.ctrl.idx, m[..pick] + m[pick + 1..])).(buffer := s.buffer + [m[pick]]);
    if |s1.buffer| == CONNECTS_PER_MSG then Send(s1) else s1
  }

  function ApplyCtrl(s: State, step: Step): (s': State)
    requires Shape(s) && Enabled(s, step)
    requires step.CtrlStart? || step.CtrlCheck? || step.CtrlFlip? || step.CtrlGrace?
             || step.CtrlDrain? || step.CtrlDrained? || step.CtrlFlush?
    ensures Shape(s')
  {
    match step
    case CtrlStart => s.(ctrl := At(0))
    case CtrlCheck =>
      var d := s.dps[s.ctrl.thr];
      if d.cnt[d.cur] == 0 then s.(ctrl := At(s.ctrl.thr + 1)) else s.(ctrl := Flipping(s.ctrl.thr, d.cur))
    case CtrlFlip =>
      var d := s.dps[s.ctrl.thr];
      var readers := set t | 0 <= t < |s.dps| && InSection(s.dps[t]);
      SetDp(s, s.ctrl.thr, d.(cur := 1 - d.cur)).(ctrl := Waiting(s.ctrl.thr, s.ctrl.idx, readers))
    case CtrlGrace => s.(ctrl := Draining(s.ctrl.thr, s.ctrl.idx))
    case CtrlDrain(pick) => ApplyDrain(s, pick)
    case CtrlDrained =>
      var d := s.dps[s.ctrl.thr];
      SetDp(s, s.ctrl.thr, d.(cnt := d.cnt[s.ctrl.idx := 0])).(ctrl := At(s.ctrl.thr + 1))
    case CtrlFlush =>
      var s1 := s.(ctrl := Idle);
      if |s.buffer| > 0 then Send(s1) else s1
  }

  /** A step that is not enabled leaves the state alone. */
  function Apply(s: State, step: Step): (s': State)
    requires Shape(s)
    ensures Shape(s')
  {
    if !Enabled(s, step) then s
    else if step.BeginSection? || step.EndSection? || step.LoadCur? || step.Hit? || step.Miss? || step.CountNode?
    then ApplyDp(s, step)
    else ApplyCtrl(s, step)
  }

  function Run(s: State, steps: seq<Step>): (s': State)
    requires Shape(s)
    ensures Shape(s')
  {
    if steps == [] then s else Apply(Run(s, steps[..|steps| - 1]), steps[|steps| - 1])
  }

  predicate Init(s: State) {
    && Shape(s) && s.ctrl.Idle? && s.buffer == [] && s.sent == [] && s.accepted == ZERO && s.dropped == []
    && s.nextId == 0
    && forall t :: 0 <= t < |s.dps| ==> s.dps[t].maps == [[], []] && s.dps[t].cnt == [0, 0] && s.dps[t].cur == 0
                                        && s.dps[t].pc.Outside?
  }

  // ---- mutual exclusion and counting

  /** The control thread is between flipping thread t's map `idx` away and finishing its drain. */
  predicate Retired(s: State, t: nat, idx: nat) {
    (s.ctrl.Waiting? || s.ctrl.Draining?) && s.ctrl.thr == t && s.ctrl.idx == idx
  }

  predicate Writing(d: Dp, idx: nat) {
    (d.pc.Holding? || d.pc.Adding?) && d.pc.idx == idx
  }

  predicate CountInv(s: State, t: nat, i: nat)
    requires Shape(s) && t < |s.dps| && i < 2
  {
    var d := s.dps[t];
    if s.ctrl == Draining(t, i) then |d.maps[i]| <= d.cnt[i]
    else d.cnt[i] + (if d.pc == Adding(i) then 1 else 0) == |d.maps[i]|
  }

  predicate DpInv(s: State, t: nat)
    requires Shape(s) && t < |s.dps|
  {
    var d := s.dps[t];
    && (s.ctrl.Flipping? && s.ctrl.thr == t ==> s.ctrl.idx == d.cur)
    && !Retired(s, t, d.cur)
    && (Writing(d, 1 - d.cur) ==> s.ctrl.Waiting? && s.ctrl.thr == t && t in s.ctrl.readers)
    && (!Retired(s, t, 1 - d.cur) ==> d.maps[1 - d.cur] == [])
    && (forall i :: 0 <= i < 2 ==> CountInv(s, t, i))
  }

  predicate Exclusive(s: State) {
    && Shape(s)
    && forall t :: 0 <= t < |s.dps| ==> DpInv(s, t)
  }

  /** A step of thread t that leaves the control thread alone concerns only thread t. */
  lemma LocalStep(s: State, t: nat, s': State)
    requires Exclusive(s) && Shape(s') && t < |s.dps| == |s'.dps|
    requires s'.ctrl == s.ctrl && s'.dps == s.dps[t := s'.dps[t]]
    requires DpInv(s', t)
    ensures Exclusive(s')
  {
    forall u | 0 <= u < |s'.dps|
      ensures DpInv(s', u)
    {
      if u != t {
        assert DpInv(s, u) && s'.dps[u] == s.dps[u];
        assert forall i :: 0 <= i < 2 ==> CountInv(s, u, i) ==> CountInv(s', u, i);
      }
    }
  }

  lemma SectionStepKeepsExclusive(s: State, step: Step)
    requires Exclusive(s) && Enabled(s, step)
    requires step.BeginSection? || step.LoadCur? || step.CountNode?
    ensures Exclusive(ApplyDp(s, step))
  {
    var s' := ApplyDp(s, step);
    var t := step.t;
    assert DpInv(s, t) && CountInv(s, t, 0) && CountInv(s, t, 1);
    assert CountInv(s', t, 0) && CountInv(s', t, 1);
    LocalStep(s, t, s');
  }

  lemma HitKeepsExclusive(s: State, t: nat, r: Report, pick: nat)
    requires Exclusive(s) && t < |s.dps| && s.dps[t].pc.Holding? && pick < |s.dps[t].maps[s.dps[t].pc.idx]|
    ensures Exclusive(ApplyHit(s, t, r, pick))
  {
    var s' := ApplyHit(s, t, r, pick);
    assert DpInv(s, t) && CountInv(s, t, 0) && CountInv(s, t, 1);
    assert CountInv(s', t, 0) && CountInv(s', t, 1);
    LocalStep(s, t, s');
  }

  lemma LimitKeepsExclusive(s: State, t: nat, r: Report, now: nat)
    requires Exclusive(s) && t < |s.dps|
    ensures Exclusive(Limit(s, t, r, now))
  {
    var s' := Limit(s, t, r, now);
    assert DpInv(s, t) && CountInv(s, t, 0) && CountInv(s, t, 1);
    assert CountInv(s', t, 0) && CountInv(s', t, 1);
    LocalStep(s, t, s');
  }

  lemma AddKeepsExclusive(s: State, t: nat, r: Report)
    requires Exclusive(s) && t < |s.dps| && s.dps[t].pc.Holding?
    ensures Exclusive(AddNode(s, t, r))
  {
    var s' := AddNode(s, t, r);
    assert DpInv(s, t) && CountInv(s, t, 0) && CountInv(s, t, 1);
    assert CountInv(s', t, 0) && CountInv(s', t, 1);
    LocalStep(s, t, s');
  }

  lemma DropKeepsExclusive(s: State, t: nat, r: Report, admitted: bool)
    requires Exclusive(s) && t < |s.dps| && s.dps[t].pc.Holding?
    ensures Exclusive(Drop(s, t, r, admitted))
  {
    var s' := Drop(s, t, r, admitted);
    assert DpInv(s, t) && CountInv(s, t, 0) && CountInv(s, t, 1);
    assert CountInv(s', t, 0) && CountInv(s', t, 1);
    LocalStep(s, t, s');
  }

  lemma MissKeepsExclusive(s: State, t: nat, r: Report, now: nat, alloc: bool)
    requires Exclusive(s) && t < |s.dps| && s.dps[t].pc.Holding?
    ensures Exclusive(ApplyMiss(s, t, r, now, alloc))
  {
    var s1 := Limit(s, t, r, now);
    LimitKeepsExclusive(s, t, r, now);
    if Admitted(s, t, r, now) && alloc {
      AddKeepsExclusive(s1, t, r);
    } else {
      DropKeepsExclusive(s1, t, r, Admitted(s, t, r, now));
    }
  }

  lemma EndSectionAt(s: State, t: nat, u: nat)
    requires Shape(s) && Enabled(s, EndSection(t)) && u < |s.dps| && DpInv(s, u)
    ensures DpInv(ApplyDp(s, EndSection(t)), u)
  {
    var s' := ApplyDp(s, EndSection(t));
    assert CountInv(s, u, 0) && CountInv(s, u, 1);
    assert CountInv(s', u, 0) && CountInv(s', u, 1);
  }

  lemma EndSectionKeepsExclusive(s: State, t: nat)
    requires Exclusive(s) && Enabled(s, EndSection(t))
    ensures Exclusive(ApplyDp(s, EndSection(t)))
  {
    forall u | 0 <= u < |s.dps|
      ensures DpInv(ApplyDp(s, EndSection(t)), u)
    {
      EndSectionAt(s, t, u);
    }
  }

  /** No map is retired before or after, and no thread's tables change. */
  lemma IdleMove(s: State, s': State)
    requires Exclusive(s) && Shape(s') && s'.dps == s.dps
    requires !s.ctrl.Waiting? && !s.ctrl.Draining? && !s'.ctrl.Waiting? && !s'.ctrl.Draining?
    requires s'.ctrl.Flipping? ==> s'.ctrl.idx == s.dps[s'.ctrl.thr].cur
    ensures Exclusive(s')
  {
    forall u | 0 <= u < |s'.dps|
      ensures DpInv(s', u)
    {
      assert DpInv(s, u) && CountInv(s, u, 0) && CountInv(s, u, 1);
      assert CountInv(s', u, 0) && CountInv(s', u, 1);
    }
  }

  lemma MoveKeepsExclusive(s: State, step: Step)
    requires Exclusive(s) && Enabled(s, step)
    requires step.CtrlStart? || step.CtrlCheck? || step.CtrlFlush?
    ensures Exclusive(ApplyCtrl(s, step))
  {
    IdleMove(s, ApplyCtrl(s, step));
  }

  lemma GraceKeepsExclusive(s: State, step: Step)
    requires Exclusive(s) && Enabled(s, step)
    requires step.CtrlFlip? || step.CtrlGrace?
    ensures Exclusive(ApplyCtrl(s, step))
  {
    var s' := ApplyCtrl(s, step);
    forall u | 0 <= u < |s'.dps|
      ensures DpInv(s', u)
    {
      assert DpInv(s, u) && CountInv(s, u, 0) && CountInv(s, u, 1);
      assert CountInv(s', u, 0) && CountInv(s', u, 1);
    }
  }

  lemma DrainedKeepsExclusive(s: State, step: Step)
    requires Exclusive(s) && Enabled(s, step)
    requires step.CtrlDrained?
    ensures Exclusive(ApplyCtrl(s, step))
  {
    var s' := ApplyCtrl(s, step);
    forall u | 0 <= u < |s'.dps|
      ensures DpInv(s', u)
    {
      assert DpInv(s, u) && CountInv(s, u, 0) && CountInv(s, u, 1);
      assert CountInv(s', u, 0) && CountInv(s', u, 1);
    }
  }

  lemma DrainKeepsExclusive(s: State, pick: nat)
    requires Exclusive(s) && Enabled(s, CtrlDrain(pick))
    ensures Exclusive(ApplyDrain(s, pick))
  {
    var s' := ApplyDrain(s, pick);
    var t := s.ctrl.thr;
    assert DpInv(s, t) && CountInv(s, t, 0) && CountInv(s, t, 1);
    assert CountInv(s', t, 0) && CountInv(s', t, 1);
    LocalStep(s, t, s');
  }

  lemma StepKeepsExclusive(s: State, step: Step)
    requires Exclusive(s)
    ensures Exclusive(Apply(s, step))
  {
    if Enabled(s, step) {
      match step
      case EndSection(t) => EndSectionKeepsExclusive(s, t);
      case BeginSection(_) => SectionStepKeepsExclusive(s, step);
      case LoadCur(_) => SectionStepKeepsExclusive(s, step);
      case CountNode(_) => SectionStepKeepsExclusive(s, step);
      case Hit(t, r, _, pick) => HitKeepsExclusive(s, t, r, pick);
      case Miss(t, r, _, now, alloc) => MissKeepsExclusive(s, t, r, now, alloc);
      case CtrlDrain(pick) => DrainKeepsExclusive(s, pick);
      case CtrlDrained => DrainedKeepsExclusive(s, step);
      case CtrlFlip => GraceKeepsExclusive(s, step);
      case CtrlGrace => GraceKeepsExclusive(s, step);
      case _ => MoveKeepsExclusive(s, step);
    }
  }

  lemma InitExclusive(s: State)
    requires Init(s)
    ensures Exclusive(s)
  {
    forall t | 0 <= t < |s.dps|
      ensures DpInv(s, t)
    {
      assert CountInv(s, t, 0) && CountInv(s, t, 1);
    }
  }

  lemma {:induction false} RunKeepsExclusive(init: State, steps: seq<Step>)
    requires Init(init)
    ensures Exclusive(Run(init, steps))
  {
    if steps == [] {
      InitExclusive(init);
    } else {
      RunKeepsExclusive(init, steps[..|steps| - 1]);
      StepKeepsExclusive(Run(init, steps[..|steps| - 1]), steps[|steps| - 1]);
    }
  }

  /** The map being drained is not being written, nothing unsent hides outside a
      thread's current map unless its other map is being retired, and an entry count
      of zero means an empty map once no thread is adding to it. */
  ghost predicate Separated(s: State)
    requires Shape(s)
  {
    && (s.ctrl.Draining? ==> !Writing(s.dps[s.ctrl.thr], s.ctrl.idx))
    && (forall t :: 0 <= t < |s.dps| && !Retired(s, t, 1 - s.dps[t].cur) ==> s.dps[t].maps[1 - s.dps[t].cur] == [])
    && (forall t :: 0 <= t < |s.dps| && !s.dps[t].pc.Adding? && s.dps[t].cnt[s.dps[t].cur] == 0 ==>
          s.dps[t].maps[s.dps[t].cur] == [])
  }

  lemma ExclusiveSeparates(s: State)
    requires Exclusive(s)
    ensures Separated(s)
  {
    forall t | 0 <= t < |s.dps|
      ensures !Retired(s, t, 1 - s.dps[t].cur) ==> s.dps[t].maps[1 - s.dps[t].cur] == []
      ensures !s.dps[t].pc.Adding? && s.dps[t].cnt[s.dps[t].cur] == 0 ==> s.dps[t].maps[s.dps[t].cur] == []
    {
      assert DpInv(s, t) && CountInv(s, t, s.dps[t].cur);
    }
    if s.ctrl.Draining? {
      assert DpInv(s, s.ctrl.thr);
    }
  }

  lemma EveryRunIsExclusive(init: State, steps: seq<Step>)
    requires Init(init)
    ensures Separated(Run(init, steps))
  {
    RunKeepsExclusive(init, steps);
    ExclusiveSeparates(Run(init, steps));
  }
}
