/** Report spacing across the agent and the controller (agent/timer.go, controller/grpc.go).

    Every five seconds the agent's timer starts a goroutine that advances the report
    tick and reports connections if they are due; the controller's answer sets the
    interval to the next report. */
module ReportSpacing {
  import opened Options

  const REPORT_INTERVAL: nat := 5
  const REPORT_CHAN_SIZE: nat := 128

  // ---- the controller's answer

  datatype Action = Done | Resend

  datatype Reply = Reply(action: Action, interval: nat)

  /** Division that truncates toward zero. */
  function TruncDiv(a: int, b: nat): int
    requires b > 0
  {
    if a >= 0 then a / b else -((-a) / b)
  }

  function Interval(hosts: nat): int {
    if hosts > 100 then 50 else TruncDiv(hosts - 1, 10) * 5 + 5
  }

  function Answer(leader: bool, hosts: nat, queued: nat): Reply {
    if !leader then Reply(Resend, 0)
    else if queued >= REPORT_CHAN_SIZE then Reply(Resend, Interval(hosts) + 25)
    else Reply(Done, Interval(hosts))
  }

  predicate ValidInterval(i: nat) { i % 5 == 0 && 5 <= i <= 75 }

  /** Whatever the cluster size and load, an interval is a multiple of 5 from 5 to 75 seconds. */
  lemma AnswerSpacing(leader: bool, hosts: nat, queued: nat)
    ensures Interval(hosts) >= 0
    ensures leader ==> ValidInterval(Answer(leader, hosts, queued).interval)
    ensures !leader ==> Answer(leader, hosts, queued).interval == 0
  {
  }

  /** The interval is five seconds for every ten hosts or part of ten, up to fifty seconds. */
  lemma IntervalMeans(hosts: nat)
    ensures var n := Interval(hosts) / 5;
            && Interval(hosts) == 5 * n && 1 <= n <= 10
            && (hosts <= 10 * n || n == 10) && (n > 1 ==> 10 * (n - 1) < hosts)
  {
    var n := if hosts > 100 then 10 else if hosts == 0 then 1 else (hosts - 1) / 10 + 1;
    assert Interval(hosts) == 5 * n;
    if 1 <= hosts <= 100 { assert hosts - 1 == 10 * ((hosts - 1) / 10) + (hosts - 1) % 10; }
  }

  /** More hosts never shorten the interval. */
  lemma IntervalGrows(hosts: nat, hosts': nat)
    requires hosts <= hosts'
    ensures Interval(hosts) <= Interval(hosts')
  {
    if 1 <= hosts && hosts' <= 100 { assert (hosts - 1) / 10 <= (hosts' - 1) / 10; }
  }

  /** A full channel asks for a resend, 25 seconds later than a leader with room would ask for the next report. */
  lemma FullIsSlower(hosts: nat, queued: nat, queued': nat)
    requires queued < REPORT_CHAN_SIZE <= queued'
    ensures Answer(true, hosts, queued).action.Done? && Answer(true, hosts, queued').action.Resend?
    ensures Answer(true, hosts, queued').interval == Answer(true, hosts, queued).interval + 25
    ensures Answer(true, hosts, queued).interval == Interval(hosts)
  {
    AnswerSpacing(true, hosts, queued);
  }

  class AgentService<T> {
    var reportCh: seq<T>

    /** A batch is queued exactly when the answer is Done; a full queue or a follower asks to resend. */
    method ReportConnections(batch: T, leader: bool, hosts: nat) returns (reply: Reply)
      requires |reportCh| <= REPORT_CHAN_SIZE
      modifies this
      ensures |reportCh| <= REPORT_CHAN_SIZE
      ensures reportCh == if reply.action.Done? then old(reportCh) + [batch] else old(reportCh)
      ensures reply.action.Done? <==> leader && |old(reportCh)| < REPORT_CHAN_SIZE
      ensures reply == Answer(leader, hosts, |old(reportCh)|)
      ensures reply.interval != 0 ==> ValidInterval(reply.interval)
    {
      AnswerSpacing(leader, hosts, |reportCh|);
      if !leader {
        return Reply(Resend, 0);
      }
      var interval := TruncDiv(hosts - 1, 10) * 5 + 5;
      if hosts > 100 {
        interval := 50;
      }
      if |reportCh| >= REPORT_CHAN_SIZE {
        interval := interval + 25;
        return Reply(Resend, interval);
      }
      reportCh := reportCh + [batch];
      return Reply(Done, interval);
    }
  }

  // ---- the agent's ticks

  datatype Load = Load(leader: bool, hosts: nat, queued: nat)

  /** A goroutine has advanced the tick, or has found a report due and is sending it. */
  datatype Phase = Ticked | Sending

  /** A report begun at tick `at` when `due` was the tick to report at. */
  datatype Report = Report(at: nat, due: nat)

  datatype State = State(tick: nat, next: nat, interval: nat, running: seq<Phase>, reports: seq<Report>, gaps: seq<nat>)

  const INIT := State(0, REPORT_INTERVAL, REPORT_INTERVAL, [], [], [])

  /** `Finish` carries what the controller's answer depends on, or None when nothing was
      sent or no answer came back. */
  datatype Step = Begin | Look(i: nat) | Finish(i: nat, answer: Option<Load>)

  predicate Enabled(s: State, step: Step) {
    match step
    case Begin => true
    case Look(i) => i < |s.running| && s.running[i].Ticked?
    case Finish(i, _) => i < |s.running| && s.running[i].Sending?
  }

  function NewInterval(interval: nat, answer: Option<Load>): nat {
    match answer
    case None => interval
    case Some(l) =>
      var reply := Answer(l.leader, l.hosts, l.queued);
      if reply.interval != 0 then reply.interval else interval
  }

  function Remove(running: seq<Phase>, i: nat): seq<Phase>
    requires i < |running|
  {
    running[..i] + running[i + 1..]
  }

  function Apply(s: State, step: Step): State {
    if !Enabled(s, step) then s else
    match step
    case Begin => s.(tick := s.tick + REPORT_INTERVAL, running := s.running + [Ticked])
    case Look(i) =>
      if s.tick < s.next then s.(running := Remove(s.running, i))
      else s.(running := s.running[i := Sending], reports := s.reports + [Report(s.tick, s.next)])
    case Finish(i, answer) =>
      var interval := NewInterval(s.interval, answer);
      s.(running := Remove(s.running, i), interval := interval, next := s.next + interval, gaps := s.gaps + [interval])
  }

  function Run(steps: seq<Step>): State {
    if steps == [] then INIT else Apply(Run(steps[..|steps| - 1]), steps[|steps| - 1])
  }

  /** No tick begins before the previous one has ended. */
  predicate NonOverlapping(steps: seq<Step>) {
    steps == [] ||
    var before := steps[..|steps| - 1];
    NonOverlapping(before) && (steps[|steps| - 1].Begin? ==> Run(before).running == [])
  }

  /** Reports happen when due, spaced by the interval then in force, and none is overdue. */
  predicate Spaced(s: State) {
    && (forall r <- s.reports :: r.at == r.due)
    && (forall g <- s.gaps :: ValidInterval(g))
    && |s.gaps| <= |s.reports|
    && (forall i, j :: 0 <= i && j == i + 1 < |s.reports| ==> i < |s.gaps| && s.reports[j].at == s.reports[i].at + s.gaps[i])
    && (s.running == [] ==> s.tick < s.next <= s.tick + 75)
  }

  /** No report is being sent. */
  predicate Free(s: State) { forall p <- s.running :: p.Ticked? }

  /** Every goroutine looks while no other is sending, and before a tick later than the due one. */
  predicate OnTime(steps: seq<Step>) {
    steps == [] ||
    var before, step := steps[..|steps| - 1], steps[|steps| - 1];
    var s := Run(before);
    OnTime(before) && (step.Look? && Enabled(s, step) ==> Free(s) && s.tick <= s.next)
  }

  predicate Inv(s: State) {
    && Spaced(s)
    && s.tick % 5 == 0 && s.next % 5 == 0 && ValidInterval(s.interval) && s.next <= s.tick + 75
    && (forall i, j :: 0 <= i < j < |s.running| ==> s.running[i].Ticked? || s.running[j].Ticked?)
    && (!Free(s) ==> s.next <= s.tick && s.reports != [])
    && (Ticked !in s.running && !Free(s) ==> s.next == s.tick)
    && |s.reports| == |s.gaps| + (if Free(s) then 0 else 1)
    && (s.reports != [] ==>
          s.next == s.reports[|s.reports| - 1].at + if Free(s) then s.gaps[|s.gaps| - 1] else 0)
  }

  lemma RemoveKeepsTicked(running: seq<Phase>, i: nat)
    requires i < |running| && running[i].Sending?
    ensures Ticked in running ==> Ticked in Remove(running, i)
  {
    if Ticked in running {
      var j :| 0 <= j < |running| && running[j] == Ticked;
      assert Remove(running, i)[if j < i then j else j - 1] == Ticked;
    }
  }

  lemma FinishKeepsInv(s: State, i: nat, answer: Option<Load>)
    requires Inv(s) && Enabled(s, Finish(i, answer))
    ensures Inv(Apply(s, Finish(i, answer)))
  {
    if answer.Some? { AnswerSpacing(answer.value.leader, answer.value.hosts, answer.value.queued); }
    var s' := Apply(s, Finish(i, answer));
    assert ValidInterval(NewInterval(s.interval, answer));
    assert !Free(s) by { assert s.running[i] in s.running; }
    assert Free(s');
    RemoveKeepsTicked(s.running, i);
  }

  lemma LookKeepsInv(s: State, i: nat)
    requires Inv(s) && Enabled(s, Look(i)) && Free(s) && s.tick <= s.next
    ensures Inv(Apply(s, Look(i)))
  {
    var s' := Apply(s, Look(i));
    if s.tick == s.next {
      assert s'.running[i] == Sending && s'.running[i] in s'.running;
      assert !Free(s');
    } else {
      assert Free(s');
    }
  }

  lemma BeginKeepsInv(s: State)
    requires Inv(s)
    ensures Inv(Apply(s, Begin))
  {
    var s' := Apply(s, Begin);
    assert s'.running[|s.running|] == Ticked;
    assert forall p <- s.running :: p in s'.running;
    assert Free(s') <==> Free(s);
  }

  lemma StepKeepsInv(s: State, step: Step)
    requires Inv(s) && (step.Look? && Enabled(s, step) ==> Free(s) && s.tick <= s.next)
    ensures Inv(Apply(s, step))
  {
    if Enabled(s, step) {
      match step
      case Begin => BeginKeepsInv(s);
      case Look(i) => LookKeepsInv(s, i);
      case Finish(i, answer) => FinishKeepsInv(s, i, answer);
    }
  }

  lemma {:induction false} OnTimeKeepsInv(steps: seq<Step>)
    requires OnTime(steps)
    ensures Inv(Run(steps))
  {
    if steps != [] {
      OnTimeKeepsInv(steps[..|steps| - 1]);
      StepKeepsInv(Run(steps[..|steps| - 1]), steps[|steps| - 1]);
    }
  }

  /** Some report started late, or together with the one before it. */
  ghost predicate Late(s: State) {
    || (exists r <- s.reports :: r.at != r.due)
    || exists i, j :: 0 <= i && j == i + 1 < |s.reports| && s.reports[i].at == s.reports[j].at
  }

  lemma LateStaysLate(s: State, step: Step)
    requires Late(s)
    ensures Late(Apply(s, step))
  {
    var s' := Apply(s, step);
    assert forall r <- s.reports :: r in s'.reports;
    assert forall i :: 0 <= i < |s.reports| ==> s'.reports[i] == s.reports[i];
  }

  lemma SpacedIsNotLate(s: State)
    requires Spaced(s)
    ensures !Late(s)
  {
    forall i, j | 0 <= i && j == i + 1 < |s.reports|
      ensures s.reports[i].at != s.reports[j].at
    {
      assert s.reports[j].at > s.reports[i].at by { assert s.reports[j].at == s.reports[i].at + s.gaps[i] && s.gaps[i] in s.gaps; }
    }
  }

  lemma OverrunIsLate(s: State, i: nat)
    requires Inv(s) && Enabled(s, Look(i)) && !(Free(s) && s.tick <= s.next)
    ensures Late(Apply(s, Look(i)))
  {
    var s', n := Apply(s, Look(i)), |s.reports|;
    assert s'.reports[n] == Report(s.tick, s.next) && s'.reports[n] in s'.reports;
    if s.tick == s.next {
      assert s'.reports[n - 1].at == s'.reports[n].at;
    }
  }

  lemma {:induction false} NotOnTimeIsLate(steps: seq<Step>)
    requires !OnTime(steps)
    ensures Late(Run(steps))
  {
    var before, step := steps[..|steps| - 1], steps[|steps| - 1];
    if OnTime(before) {
      OnTimeKeepsInv(before);
      OverrunIsLate(Run(before), step.i);
    } else {
      NotOnTimeIsLate(before);
      LateStaysLate(Run(before), step);
    }
  }

  /** Reports start exactly when due, spaced by controller-approved intervals and never in a
      burst, in exactly the runs where every goroutine looks on time. */
  lemma SpacedExactlyOnTime(steps: seq<Step>)
    ensures Spaced(Run(steps)) <==> OnTime(steps)
  {
    if OnTime(steps) {
      OnTimeKeepsInv(steps);
    } else {
      NotOnTimeIsLate(steps);
      if Spaced(Run(steps)) { SpacedIsNotLate(Run(steps)); }
    }
  }

  /** When ticks do not overlap at most one goroutine is about, and it has not missed its tick. */
  predicate Alone(s: State) {
    |s.running| <= 1 && (s.running == [Ticked] ==> s.tick <= s.next)
  }

  lemma AloneLooksOnTime(s: State, step: Step)
    requires Inv(s) && Alone(s) && (step.Begin? ==> s.running == [])
    ensures Alone(Apply(s, step))
    ensures step.Look? && Enabled(s, step) ==> Free(s) && s.tick <= s.next
  {
    if step.Look? && Enabled(s, step) {
      assert s.running == [Ticked] && s.running[step.i := Sending] == [Sending];
    }
  }

  lemma {:induction false} NonOverlappingIsOnTime(steps: seq<Step>)
    requires NonOverlapping(steps)
    ensures OnTime(steps) && Alone(Run(steps))
  {
    if steps != [] {
      var before := steps[..|steps| - 1];
      NonOverlappingIsOnTime(before);
      OnTimeKeepsInv(before);
      AloneLooksOnTime(Run(before), steps[|steps| - 1]);
    }
  }

  /** So it is whenever each tick's work ends before the next tick. */
  lemma NonOverlappingRunsAreSpaced(steps: seq<Step>)
    requires NonOverlapping(steps)
    ensures Spaced(Run(steps))
  {
    NonOverlappingIsOnTime(steps);
    SpacedExactlyOnTime(steps);
  }

  lemma RunAppend(steps: seq<Step>, step: Step)
    ensures Run(steps + [step]) == Apply(Run(steps), step)
  {
    assert (steps + [step])[..|steps|] == steps;
  }

  /** Without that assumption the spacing fails: a tick that begins while a report is
      still being sent reports again, five seconds after it was due. */
  lemma OverlapBursts()
    ensures exists steps :: Run(steps).reports == [Report(5, 5), Report(10, 5)]
  {
    RunAppend([], Begin);
    RunAppend([] + [Begin], Look(0));
    RunAppend([] + [Begin] + [Look(0)], Begin);
    RunAppend([] + [Begin] + [Look(0)] + [Begin], Look(1));
  }

  // ---- the controller sets the pace

  /** The interval in force: the last one used, or the first default. */
  function InForce(s: State): nat { if s.gaps == [] then REPORT_INTERVAL else s.gaps[|s.gaps| - 1] }

  lemma {:induction false} IntervalInForce(steps: seq<Step>)
    ensures Run(steps).interval == InForce(Run(steps))
  {
    if steps != [] { IntervalInForce(steps[..|steps| - 1]); }
  }

  /** In every run the time to the next report is what the leader answered to this one. Without an answer,
      or with that of a follower, it is what it was. */
  lemma GapsFollowAnswers(steps: seq<Step>, i: nat, answer: Option<Load>)
    requires Enabled(Run(steps), Finish(i, answer))
    ensures var s, s' := Run(steps), Run(steps + [Finish(i, answer)]);
            && |s'.gaps| == |s.gaps| + 1 && s'.next == s.next + s'.gaps[|s.gaps|]
            && s'.gaps[|s.gaps|] ==
               if answer.None? || !answer.value.leader then InForce(s)
               else Interval(answer.value.hosts) + if answer.value.queued >= REPORT_CHAN_SIZE then 25 else 0
  {
    IntervalInForce(steps);
    assert (steps + [Finish(i, answer)])[..|steps|] == steps;
    if answer.Some? { AnswerSpacing(answer.value.leader, answer.value.hosts, answer.value.queued); }
  }
}
