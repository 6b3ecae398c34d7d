/** Which reports become entries of the connection maps, and whose counts they carry (dp/ctrl.c). */
module ConnectEntries {
  import opened ConnectLedger
  import opened ConnectMap
  import opened Counters
  import RL = RateLimiter

  // ---- each connection's own counts

  /** LEARN, and VIOLATE and everything above it. */
  predicate Urgent(r: Report) { r.action == DP_POLICY_ACTION_LEARN || r.action >= DP_POLICY_ACTION_VIOLATE }

  /** A report without an entry gets one if there is memory and it is urgent or passes the limiter. */
  predicate GoesIn(s: State, step: Step)
    requires Shape(s)
  {
    step.Miss? && Enabled(s, step) && step.alloc && (Urgent(step.r) || RL.Passed(s.dps[step.t].rl, step.now))
  }

  predicate Counts(s: State, step: Step)
    requires Shape(s)
  {
    (step.Hit? && Enabled(s, step)) || GoesIn(s, step)
  }

  /** What a step takes in for a connection. */
  function StepTakes(s: State, step: Step, key: Key, f: Field): nat
    requires Shape(s)
  {
    if Counts(s, step) && step.r.key == key then Of(step.r.amounts, f) else 0
  }

  function TakenIn(init: State, steps: seq<Step>, key: Key, f: Field): nat
    requires Shape(init)
  {
    if steps == [] then 0
    else
      var before := steps[..|steps| - 1];
      TakenIn(init, before, key, f) + StepTakes(Run(init, before), steps[|steps| - 1], key, f)
  }

  function CounterOf(key: Key, f: Field): Node -> nat { (n: Node) => if n.key == key then Of(n.amounts, f) else 0 }

  function CarryFor(s: State, step: Step, key: Key, f: Field): nat
    requires Shape(s)
  {
    if (step.Hit? || step.Miss?) && step.r.key == key then StepCarry(s, step, f) else 0
  }

  lemma MoreCounts(n: Node, x: Amounts, key: Key, f: Field)
    ensures var n' := n.(amounts := WrapPlus(n.amounts, x, WIDTH));
            CounterOf(key, f)(n') + (if n.key == key then Carry(Of(n.amounts, f) + Of(x, f), Width(f)) else 0) ==
            CounterOf(key, f)(n) + if n.key == key then Of(x, f) else 0
  {
  }

  lemma HitCounts(s: State, t: nat, r: Report, pick: nat, key: Key, f: Field)
    requires Shape(s) && t < |s.dps| && s.dps[t].pc.Holding? && pick < |s.dps[t].maps[s.dps[t].pc.idx]|
    requires s.dps[t].maps[s.dps[t].pc.idx][pick].key == r.key
    ensures var n, w := s.dps[t].maps[s.dps[t].pc.idx][pick], CounterOf(key, f);
            StateWeight(ApplyHit(s, t, r, pick), w) +
            (if r.key == key then Carry(Of(n.amounts, f) + Of(r.amounts, f), Width(f)) else 0)
            == StateWeight(s, w) + if r.key == key then Of(r.amounts, f) else 0
  {
    HitWeight(s, t, r, pick, CounterOf(key, f));
    MoreCounts(s.dps[t].maps[s.dps[t].pc.idx][pick], r.amounts, key, f);
  }

  lemma HitTakes(s: State, step: Step, key: Key, f: Field)
    requires Shape(s) && step.Hit? && Enabled(s, step)
    ensures StateWeight(Apply(s, step), CounterOf(key, f)) + CarryFor(s, step, key, f) ==
            StateWeight(s, CounterOf(key, f)) + StepTakes(s, step, key, f)
  {
    HitCounts(s, step.t, step.r, step.pick, key, f);
    assert Apply(s, step) == ApplyHit(s, step.t, step.r, step.pick);
  }

  lemma NewNodeCounts(s: State, r: Report, key: Key, f: Field)
    ensures CounterOf(key, f)(NewNode(s, r)) == if r.key == key then Of(r.amounts, f) % Width(f) else 0
  {
    assert Of(ZERO, f) == 0;
  }

  lemma MissCounts(s: State, t: nat, r: Report, now: nat, alloc: bool, key: Key, f: Field)
    requires Shape(s) && t < |s.dps| && s.dps[t].pc.Holding?
    ensures StateWeight(ApplyMiss(s, t, r, now, alloc), CounterOf(key, f)) == StateWeight(s, CounterOf(key, f)) +
            if Admitted(s, t, r, now) && alloc && r.key == key then Of(r.amounts, f) % Width(f) else 0
  {
    var w := CounterOf(key, f);
    var s1 := Limit(s, t, r, now);
    SameMaps(s, t, s1, w);
    if Admitted(s, t, r, now) && alloc {
      AddWeight(s1, t, r, w);
      NewNodeCounts(s1, r, key, f);
    } else {
      SameMaps(s1, t, Drop(s1, t, r, Admitted(s, t, r, now)), w);
    }
  }

  lemma MissTakes(s: State, step: Step, key: Key, f: Field)
    requires Shape(s) && step.Miss? && Enabled(s, step)
    ensures StateWeight(Apply(s, step), CounterOf(key, f)) + CarryFor(s, step, key, f) ==
            StateWeight(s, CounterOf(key, f)) + StepTakes(s, step, key, f)
  {
    MissCounts(s, step.t, step.r, step.now, step.alloc, key, f);
    assert Apply(s, step) == ApplyMiss(s, step.t, step.r, step.now, step.alloc);
  }

  lemma EachStepTakes(s: State, step: Step, key: Key, f: Field)
    requires Shape(s)
    ensures StateWeight(Apply(s, step), CounterOf(key, f)) + CarryFor(s, step, key, f) ==
            StateWeight(s, CounterOf(key, f)) + StepTakes(s, step, key, f)
    ensures CarryFor(s, step, key, f) <= StepCarry(s, step, f)
  {
    if Enabled(s, step) {
      if step.Hit? {
        HitTakes(s, step, key, f);
      } else if step.Miss? {
        MissTakes(s, step, key, f);
      } else {
        OtherStepMoves(s, step, CounterOf(key, f));
      }
    }
  }

  function CarriedFor(init: State, steps: seq<Step>, key: Key, f: Field): nat
    requires Shape(init)
  {
    if steps == [] then 0
    else
      var before := steps[..|steps| - 1];
      CarriedFor(init, before, key, f) + CarryFor(Run(init, before), steps[|steps| - 1], key, f)
  }

  lemma {:induction false} RunTakes(init: State, steps: seq<Step>, key: Key, f: Field)
    requires Init(init)
    ensures TakenIn(init, steps, key, f) == StateWeight(Run(init, steps), CounterOf(key, f)) + CarriedFor(init, steps, key, f)
    ensures CarriedFor(init, steps, key, f) <= Carried(init, steps, f)
  {
    if steps == [] {
      EmptyWeight(init.dps, CounterOf(key, f));
    } else {
      var before, step := steps[..|steps| - 1], steps[|steps| - 1];
      RunTakes(init, before, key, f);
      EachStepTakes(Run(init, before), step, key, f);
    }
  }

  /** In every run the entries of a connection, in the maps, the buffer and the messages, show what its
      own reports brought, all of it unless some entry's counter was taken past its width. */
  lemma EveryConnectionConserved(init: State, steps: seq<Step>, key: Key, f: Field)
    requires Init(init)
    ensures TakenIn(init, steps, key, f) >= StateWeight(Run(init, steps), CounterOf(key, f))
    ensures NeverOverflows(init, steps, f) ==>
              TakenIn(init, steps, key, f) == StateWeight(Run(init, steps), CounterOf(key, f))
  {
    RunTakes(init, steps, key, f);
    RunCarries(init, steps, f);
  }

  // ---- where entries come from

  function EntryOf(key: Key, application: nat): Node -> nat {
    (n: Node) => if n.key == key && n.application == application then 1 else 0
  }

  /** How many entries the reports of a connection and application have made. */
  function Made(init: State, steps: seq<Step>, key: Key, application: nat): nat
    requires Shape(init)
  {
    if steps == [] then 0
    else
      var before, step := steps[..|steps| - 1], steps[|steps| - 1];
      Made(init, before, key, application) +
      if GoesIn(Run(init, before), step) && step.r.key == key && step.r.application == application then 1 else 0
  }

  lemma StepMakes(s: State, step: Step, key: Key, application: nat)
    requires Shape(s)
    ensures StateWeight(Apply(s, step), EntryOf(key, application)) ==
            StateWeight(s, EntryOf(key, application)) +
            if GoesIn(s, step) && step.r.key == key && step.r.application == application then 1 else 0
  {
    var w := EntryOf(key, application);
    if Enabled(s, step) {
      if step.Hit? {
        HitWeight(s, step.t, step.r, step.pick, w);
      } else if step.Miss? {
        var t, r := step.t, step.r;
        var s1 := Limit(s, t, r, step.now);
        SameMaps(s, t, s1, w);
        if Admitted(s, t, r, step.now) && step.alloc {
          AddWeight(s1, t, r, w);
        } else {
          SameMaps(s1, t, Drop(s1, t, r, Admitted(s, t, r, step.now)), w);
        }
      } else {
        OtherStepMoves(s, step, w);
      }
    }
  }

  /** In every run there are exactly as many entries of a connection and application as its reports made. */
  lemma {:induction false} EntriesAreMade(init: State, steps: seq<Step>, key: Key, application: nat)
    requires Init(init)
    ensures StateWeight(Run(init, steps), EntryOf(key, application)) == Made(init, steps, key, application)
  {
    if steps == [] {
      EmptyWeight(init.dps, EntryOf(key, application));
    } else {
      EntriesAreMade(init, steps[..|steps| - 1], key, application);
      StepMakes(Run(init, steps[..|steps| - 1]), steps[|steps| - 1], key, application);
    }
  }

  // ---- what the limiter sees

  /** A report of thread t without an entry that has to pass the limiter. */
  predicate AsksLimiter(s: State, step: Step, t: nat)
    requires Shape(s)
  {
    step.Miss? && step.t == t && Enabled(s, step) && !Urgent(step.r)
  }

  /** When the limiter of thread t was asked. */
  function Asked(init: State, steps: seq<Step>, t: nat): seq<nat>
    requires Shape(init)
  {
    if steps == [] then []
    else
      var before, step := steps[..|steps| - 1], steps[|steps| - 1];
      Asked(init, before, t) + if AsksLimiter(Run(init, before), step, t) then [step.now] else []
  }

  /** How many reports that had to pass the limiter got an entry of thread t in the times [a, b]. */
  function Entered(init: State, steps: seq<Step>, t: nat, a: nat, b: nat): nat
    requires Shape(init)
  {
    if steps == [] then 0
    else
      var before, step := steps[..|steps| - 1], steps[|steps| - 1];
      var s := Run(init, before);
      Entered(init, before, t, a, b) + if AsksLimiter(s, step, t) && GoesIn(s, step) && a <= step.now <= b then 1 else 0
  }

  lemma StepAsks(s: State, step: Step, t: nat)
    requires Shape(s) && t < |s.dps|
    ensures |Apply(s, step).dps| == |s.dps|
    ensures Apply(s, step).dps[t].rl == if AsksLimiter(s, step, t) then RL.Check(s.dps[t].rl, step.now) else s.dps[t].rl
  {
  }

  lemma AfterNext(l: RL.Limiter, times: seq<nat>, now: nat, a: nat, b: nat)
    requires RL.Valid(l)
    ensures RL.After(l, times + [now]) == RL.Check(RL.After(l, times), now)
    ensures RL.Passes(l, times + [now], a, b) ==
            RL.Passes(l, times, a, b) + if a <= now <= b && RL.Passed(RL.After(l, times), now) then 1 else 0
  {
    assert (times + [now])[..|times|] == times;
  }

  /** The limiter has been asked at these times, and let through at least this many in [a, b]. */
  predicate Limits(s: State, t: nat, l: RL.Limiter, asked: seq<nat>, a: nat, b: nat, entered: nat) {
    t < |s.dps| && RL.Valid(l) && s.dps[t].rl == RL.After(l, asked) && entered <= RL.Passes(l, asked, a, b)
  }

  lemma StepLimits(s: State, step: Step, t: nat, l: RL.Limiter, asked: seq<nat>, a: nat, b: nat, entered: nat)
    requires Shape(s) && Limits(s, t, l, asked, a, b, entered)
    ensures Limits(Apply(s, step), t, l, if AsksLimiter(s, step, t) then asked + [step.now] else asked, a, b,
                   entered + if AsksLimiter(s, step, t) && GoesIn(s, step) && a <= step.now <= b then 1 else 0)
  {
    StepAsks(s, step, t);
    if AsksLimiter(s, step, t) { AfterNext(l, asked, step.now, a, b); }
  }

  lemma {:induction false} RunLimits(init: State, steps: seq<Step>, t: nat, a: nat, b: nat)
    requires Shape(init) && t < |init.dps|
    ensures Limits(Run(init, steps), t, init.dps[t].rl, Asked(init, steps, t), a, b, Entered(init, steps, t, a, b))
  {
    if steps != [] {
      var before, step := steps[..|steps| - 1], steps[|steps| - 1];
      RunLimits(init, before, t, a, b);
      StepLimits(Run(init, before), step, t, init.dps[t].rl, Asked(init, before, t), a, b, Entered(init, before, t, a, b));
      assert Asked(init, before, t) + [] == Asked(init, before, t);
    }
  }

  lemma LimitBound(l: RL.Limiter, times: seq<nat>, from: nat, a: nat, b: nat)
    requires l == RL.Reset(from, l.dur, l.limit) && RL.NonDecreasing(times, from) && a <= b
    ensures RL.Passes(l, times, a, b) <= l.limit * (1 + (b - a + l.dur) / (l.dur + 1))
  {
    RL.PassBound(times, from, l.dur, l.limit, a, b);
  }

  /** In every run, with a clock that does not go back: the entries that a thread makes in [a, b] for
      reports that are not urgent are at most as many as the limiter allows. */
  lemma EntriesAreLimited(init: State, steps: seq<Step>, t: nat, from: nat, a: nat, b: nat, l: RL.Limiter)
    requires Init(init) && t < |init.dps| && a <= b && l == init.dps[t].rl == RL.Reset(from, l.dur, l.limit)
    requires RL.NonDecreasing(Asked(init, steps, t), from)
    ensures Entered(init, steps, t, a, b) <= l.limit * (1 + (b - a + l.dur) / (l.dur + 1))
  {
    RunLimits(init, steps, t, a, b);
    LimitBound(l, Asked(init, steps, t), from, a, b);
  }
}
