/** Connection reports from the data plane to the controller (dp/ctrl.c, agent/timer.go).

    The data plane's maps and the agent's map, with the hand-over between them: the
    agent reads the data plane's messages into a cache, and takes the cached entries
    into its map if it knows their container. All threads interleave freely. */
module Pipeline {
  import opened Counters
  import CL = ConnectLedger
  import CM = ConnectMap
  import CR = ConnectionReport
  import opened Options

  /** Where the agent files an entry. */
  datatype Target = Target(key: CR.Key, conn: CR.Conn, meshMac: bool, scopeMesh: bool)

  /** `read` counts the messages read; `ignored` are entries of unknown containers; `hosts` is
      what host-mode containers reported directly to the agent. */
  datatype State = State(dp: CM.State, read: nat, cache: seq<CM.Node>, ignored: seq<CM.Node>, agent: CR.State, hosts: Amounts)

  datatype Step =
    | DataPlane(dp: CM.Step)
    | Receive
    | Forward(i: nat, target: Option<Target>)
    | Agent(agent: CR.Step)

  /** The step of the agent's map for an entry with a known container. */
  function Filed(t: Target, n: CM.Node): CR.Step {
    CR.Container(t.key, t.conn.(amounts := n.amounts), t.meshMac, t.scopeMesh)
  }

  function Without(cache: seq<CM.Node>, i: nat): seq<CM.Node>
    requires i < |cache|
  {
    cache[..i] + cache[i + 1..]
  }

  function Apply(s: State, step: Step): (s': State)
    requires CM.Shape(s.dp)
    ensures CM.Shape(s'.dp)
  {
    match step
    case DataPlane(dp) => s.(dp := CM.Apply(s.dp, dp))
    case Receive =>
      if s.read < |s.dp.sent| then s.(read := s.read + 1, cache := s.cache + s.dp.sent[s.read]) else s
    case Forward(i, target) =>
      // ticks can overlap, so entries leave the cache in any order
      if i >= |s.cache| then s
      else if target.None? then s.(cache := Without(s.cache, i), ignored := s.ignored + [s.cache[i]])
      else s.(cache := Without(s.cache, i), agent := CR.Apply(s.agent, Filed(target.value, s.cache[i])))
    case Agent(a) =>
      if a.Container? then s
      else s.(agent := CR.Apply(s.agent, a), hosts := if a.Host? then Plus(s.hosts, a.conn.amounts) else s.hosts)
  }

  function Run(s: State, steps: seq<Step>): (s': State)
    requires CM.Shape(s.dp)
    ensures CM.Shape(s'.dp)
  {
    if steps == [] then s else Apply(Run(s, steps[..|steps| - 1]), steps[|steps| - 1])
  }

  predicate Init(s: State) {
    CM.Init(s.dp) && s.read == 0 && s.cache == [] && s.ignored == [] && s.agent == CR.INIT && s.hosts == ZERO
  }

  // ---- the hand-over

  /** What was read is in the cache, was ignored, or has been reported to the agent's map. */
  predicate Handed(s: State, f: Field) {
    && s.read <= |s.dp.sent|
    && CL.SentWeight(s.dp.sent[..s.read], CL.Counter(f)) + Of(s.hosts, f)
       == CL.Weight(s.cache, CL.Counter(f)) + CL.Weight(s.ignored, CL.Counter(f)) + Of(s.agent.reported, f)
  }

  lemma SentGrows(s: CM.State, step: CM.Step)
    requires CM.Shape(s)
    ensures s.sent <= CM.Apply(s, step).sent
  {
  }

  lemma ReceiveHands(s: State, f: Field)
    requires CM.Shape(s.dp) && Handed(s, f)
    ensures Handed(Apply(s, Receive), f)
  {
    if s.read < |s.dp.sent| {
      CL.WeightSplit(s.cache, s.dp.sent[s.read], CL.Counter(f));
      assert s.dp.sent[..s.read + 1] == s.dp.sent[..s.read] + [s.dp.sent[s.read]];
      CL.SentAppend(s.dp.sent[..s.read], s.dp.sent[s.read], CL.Counter(f));
    }
  }

  lemma ReportedGrows(s: CR.State, step: CR.Step, f: Field)
    ensures Of(CR.Apply(s, step).reported, f) ==
            Of(s.reported, f) + if step.Container? || step.Host? then Of(step.conn.amounts, f) else 0
  {
  }

  lemma ForwardHands(s: State, i: nat, target: Option<Target>, f: Field)
    requires CM.Shape(s.dp) && Handed(s, f)
    ensures Handed(Apply(s, Forward(i, target)), f)
  {
    if i < |s.cache| {
      var n, w := s.cache[i], CL.Counter(f);
      CL.WeightAt(s.cache, i, n, w);
      CL.WeightAppend(s.ignored, n, w);
      if target.Some? { ReportedGrows(s.agent, Filed(target.value, n), f); }
    }
  }

  lemma StepHands(s: State, step: Step, f: Field)
    requires CM.Shape(s.dp) && Handed(s, f)
    ensures Handed(Apply(s, step), f)
  {
    match step
    case DataPlane(dp) =>
      SentGrows(s.dp, dp);
      assert CM.Apply(s.dp, dp).sent[..s.read] == s.dp.sent[..s.read];
    case Receive => ReceiveHands(s, f);
    case Forward(i, target) => ForwardHands(s, i, target, f);
    case Agent(a) => ReportedGrows(s.agent, a, f);
  }

  // ---- the whole

  ghost predicate Inv(s: State, f: Field) {
    CM.Shape(s.dp) && CL.Ledger(s.dp, f, 0) && CR.Ledger(s.agent, f) && Handed(s, f)
  }

  lemma StepKeepsInv(s: State, step: Step, f: Field)
    requires Inv(s, f)
    ensures Inv(Apply(s, step), f)
  {
    StepHands(s, step, f);
    match step
    case DataPlane(dp) => CL.StepKeepsLedger(s.dp, dp, f, 0);
    case Receive =>
    case Forward(i, target) =>
      if i < |s.cache| && target.Some? { CR.StepKeepsLedger(s.agent, Filed(target.value, s.cache[i]), f); }
    case Agent(a) => CR.StepKeepsLedger(s.agent, a, f);
  }

  lemma {:induction false} RunKeepsInv(init: State, steps: seq<Step>, f: Field)
    requires Init(init)
    ensures Inv(Run(init, steps), f)
  {
    if steps == [] {
      CL.InitLedger(init.dp, f, 0);
      CR.RunKeepsLedger([], f);
    } else {
      RunKeepsInv(init, steps[..|steps| - 1], f);
      StepKeepsInv(Run(init, steps[..|steps| - 1]), steps[|steps| - 1], f);
    }
  }

  lemma {:induction false} SentSplit(a: seq<seq<CM.Node>>, b: seq<seq<CM.Node>>, w: CM.Node -> nat)
    ensures CL.SentWeight(a + b, w) == CL.SentWeight(a, w) + CL.SentWeight(b, w)
  {
    if b == [] {
      assert a + b == a;
    } else {
      assert (a + b)[..|a + b| - 1] == a + b[..|b| - 1];
      SentSplit(a, b[..|b| - 1], w);
    }
  }

  /** Not yet handed to the agent's map: in the data plane's maps and buffer, in messages not
      read, in the cache, or ignored. */
  function Underway(s: State, f: Field): nat
    requires CM.Shape(s.dp) && s.read <= |s.dp.sent|
  {
    var w := CL.Counter(f);
    CL.DpsWeight(s.dp.dps, w) + CL.Weight(s.dp.buffer, w) + CL.SentWeight(s.dp.sent[s.read..], w)
    + CL.Weight(s.cache, w) + CL.Weight(s.ignored, w)
  }

  /** Every counter of the agent turns over together with the data plane's. */
  lemma AgentWraps(total: nat, actual: nat, f: Field)
    requires Accounts(total, actual, Of(CR.WIDTH, f))
    ensures Accounts(total, actual, Of(CM.WIDTH, f))
  {
    var wraps: nat :| Excess(total, actual, Of(CR.WIDTH, f), wraps);
    var turns := if f == Bytes then wraps * 0x1_0000_0000 else wraps;
    assert Excess(total, actual, Of(CM.WIDTH, f), turns);
  }

  /** Two ledgers in a row, the second of which also takes in `more`. */
  lemma AccountsChain(total: nat, actual: nat, total': nat, actual': nat, more: nat, rest: nat, modulus: nat)
    requires Accounts(total, actual, modulus) && Accounts(total', actual', modulus)
    requires actual + more == rest + total'
    ensures Accounts(total + more, rest + actual', modulus)
  {
    var p: nat :| Excess(total, actual, modulus, p);
    var q: nat :| Excess(total', actual', modulus, q);
    Distribute(p, q, modulus);
    assert Excess(total + more, rest + actual', modulus, p + q);
  }

  lemma HandedBalances(s: State, f: Field)
    requires CM.Shape(s.dp) && Handed(s, f)
    ensures CL.StateWeight(s.dp, CL.Counter(f)) + Of(s.hosts, f) == Underway(s, f) + Of(s.agent.reported, f)
  {
    assert s.dp.sent == s.dp.sent[..s.read] + s.dp.sent[s.read..];
    SentSplit(s.dp.sent[..s.read], s.dp.sent[s.read..], CL.Counter(f));
  }

  // ---- exactness

  /** The report that a step of the agent's map takes in, if any. */
  function AgentStep(s: State, step: Step): Option<CR.Step> {
    match step
    case Forward(i, target) => if i < |s.cache| && target.Some? then Some(Filed(target.value, s.cache[i])) else None
    case Agent(a) => if a.Container? then None else Some(a)
    case _ => None
  }

  /** What the counter of an entry, in the data plane or in the agent, does not show of a report. */
  function StepCarry(s: State, step: Step, f: Field): nat
    requires CM.Shape(s.dp)
  {
    if step.DataPlane? then CL.StepCarry(s.dp, step.dp, f)
    else if AgentStep(s, step).Some? then CR.StepCarry(s.agent, AgentStep(s, step).value, f)
    else 0
  }

  /** A report takes the counter of its entry past its width, in the data plane or in the agent. */
  predicate Overflows(s: State, step: Step, f: Field)
    requires CM.Shape(s.dp)
  {
    || (step.DataPlane? && CL.Overflows(s.dp, step.dp, f))
    || (AgentStep(s, step).Some? && CR.Overflows(s.agent, AgentStep(s, step).value, f))
  }

  lemma OverflowCarries(s: State, step: Step, f: Field)
    requires CM.Shape(s.dp)
    ensures StepCarry(s, step, f) > 0 <==> Overflows(s, step, f)
  {
    if step.DataPlane? {
      CL.OverflowCarries(s.dp, step.dp, f);
    } else if AgentStep(s, step).Some? {
      CR.OverflowCarries(s.agent, AgentStep(s, step).value, f);
    }
  }

  /** The agent's part of a step is the step of its map, if there is one. */
  lemma AgentMoves(s: State, step: Step)
    requires CM.Shape(s.dp)
    ensures var s' := Apply(s, step);
            && s'.dp == (if step.DataPlane? then CM.Apply(s.dp, step.dp) else s.dp)
            && s'.agent == (if AgentStep(s, step).Some? then CR.Apply(s.agent, AgentStep(s, step).value) else s.agent)
  {
  }

  /** Both maps together: all that was accepted and reported, less what was carried, is found. */
  ghost predicate Grown(s: State, f: Field, carried: nat)
    requires CM.Shape(s.dp)
  {
    Of(s.dp.accepted, f) + Of(s.agent.reported, f)
    == CL.StateWeight(s.dp, CL.Counter(f)) + CR.StateWeight(s.agent, CR.Counter(f)) + carried
  }

  lemma StepGrows(s: State, step: Step, f: Field, carried: nat)
    requires CM.Shape(s.dp) && Grown(s, f, carried)
    ensures Grown(Apply(s, step), f, carried + StepCarry(s, step, f))
  {
    AgentMoves(s, step);
    if step.DataPlane? {
      CL.StepCarries(s.dp, step.dp, f);
    } else if AgentStep(s, step).Some? {
      CR.StepCarries(s.agent, AgentStep(s, step).value, f);
    }
  }

  function Carried(init: State, steps: seq<Step>, f: Field): nat
    requires CM.Shape(init.dp)
  {
    if steps == [] then 0
    else
      var before := steps[..|steps| - 1];
      Carried(init, before, f) + StepCarry(Run(init, before), steps[|steps| - 1], f)
  }

  predicate NeverOverflows(init: State, steps: seq<Step>, f: Field)
    requires CM.Shape(init.dp)
  {
    steps == [] ||
    var before := steps[..|steps| - 1];
    NeverOverflows(init, before, f) && !Overflows(Run(init, before), steps[|steps| - 1], f)
  }

  lemma {:induction false} RunGrows(init: State, steps: seq<Step>, f: Field)
    requires Init(init)
    ensures Grown(Run(init, steps), f, Carried(init, steps, f))
    ensures Carried(init, steps, f) == 0 <==> NeverOverflows(init, steps, f)
  {
    if steps == [] {
      CL.RunCarries(init.dp, [], f);
      CR.RunCarries([], f);
    } else {
      var before, step := steps[..|steps| - 1], steps[|steps| - 1];
      RunGrows(init, before, f);
      StepGrows(Run(init, before), step, f, Carried(init, before, f));
      OverflowCarries(Run(init, before), step, f);
    }
  }

  /** All that the data plane accepted and hosts reported. */
  function Total(s: State, f: Field): nat { Of(s.dp.accepted, f) + Of(s.hosts, f) }

  /** What is found underway, or in the agent's map, in flight, acknowledged by the controller,
      dropped for want of room, or displaced. */
  ghost function Found(s: State, f: Field): nat
    requires CM.Shape(s.dp) && s.read <= |s.dp.sent|
  {
    Underway(s, f) + CR.StateWeight(s.agent, CR.Counter(f))
  }

  lemma InvAccounts(s: State, f: Field)
    requires Inv(s, f)
    ensures Accounts(Total(s, f), Found(s, f), 0x1_0000_0000)
  {
    HandedBalances(s, f);
    var agent := CR.StateWeight(s.agent, CR.Counter(f));
    AgentWraps(Of(s.agent.reported, f), agent, f);
    AccountsChain(Of(s.dp.accepted, f), CL.StateWeight(s.dp, CL.Counter(f)), Of(s.agent.reported, f), agent,
                  Of(s.hosts, f), Underway(s, f), 0x1_0000_0000);
  }

  /** In every run the total is found, up to what the counters of single entries could not hold: the
      two are equal if and only if no report takes the counter of its entry past its width, neither in
      the data plane nor in the agent, and otherwise differ by whole turns of 32 bits. */
  lemma EveryRunAccountsEndToEnd(init: State, steps: seq<Step>, f: Field)
    requires Init(init)
    ensures var s := Run(init, steps);
            && s.read <= |s.dp.sent|
            && Total(s, f) == Found(s, f) + Carried(init, steps, f)
            && Accounts(Total(s, f), Found(s, f), 0x1_0000_0000)
            && (Total(s, f) == Found(s, f) <==> NeverOverflows(init, steps, f))
            && (Total(s, f) < 0x1_0000_0000 ==> NeverOverflows(init, steps, f))
  {
    var s := Run(init, steps);
    RunKeepsInv(init, steps, f);
    InvAccounts(s, f);
    HandedBalances(s, f);
    RunGrows(init, steps, f);
    if Total(s, f) < 0x1_0000_0000 { AccountsExactly(Total(s, f), Found(s, f), 0x1_0000_0000); }
  }
}
