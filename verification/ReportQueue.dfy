/** Concurrent report handlers of the controller (controller/grpc.go).

    A handler looks at the length of the report channel and then sends its batch,
    in two steps; other handlers and the worker that empties the channel can come in
    between. A send to a full channel blocks. */
module ReportQueue {
  import RS = ReportSpacing

  const SIZE := RS.REPORT_CHAN_SIZE

  /** `passed` are the batches of handlers between their check and their send; `accepted`,
      `refused` and `taken` record what was let through, turned away, and taken by the worker. */
  datatype State<B> = State(queue: seq<B>, passed: seq<B>, taken: seq<B>, accepted: seq<B>, refused: seq<B>)

  datatype Step<B> = Check(batch: B, leader: bool) | Send(i: nat) | Take

  function Empty<B>(): State<B> { State([], [], [], [], []) }

  /** A handler that has passed its check cannot send now. */
  predicate Blocked<B>(s: State<B>) { |s.passed| > 0 && |s.queue| >= SIZE }

  function Apply<B>(s: State<B>, step: Step<B>): State<B> {
    match step
    case Check(batch, leader) =>
      if leader && |s.queue| < SIZE
      then s.(passed := s.passed + [batch], accepted := s.accepted + [batch])
      else s.(refused := s.refused + [batch])
    case Send(i) =>
      if i < |s.passed| && |s.queue| < SIZE
      then s.(queue := s.queue + [s.passed[i]], passed := s.passed[..i] + s.passed[i + 1..])
      else s
    case Take => if |s.queue| > 0 then s.(queue := s.queue[1..], taken := s.taken + [s.queue[0]]) else s
  }

  function Run<B>(s: State<B>, steps: seq<Step<B>>): State<B> {
    if steps == [] then s else Apply(Run(s, steps[..|steps| - 1]), steps[|steps| - 1])
  }

  // ---- every batch let through is in one place

  predicate Inv<B(==)>(s: State<B>) {
    && |s.queue| <= SIZE
    && multiset(s.accepted) == multiset(s.taken) + multiset(s.queue) + multiset(s.passed)
  }

  lemma StepKeepsInv<B>(s: State<B>, step: Step<B>)
    requires Inv(s)
    ensures Inv(Apply(s, step))
  {
    match step
    case Check(_, _) =>
    case Send(i) => if i < |s.passed| { assert s.passed == s.passed[..i] + [s.passed[i]] + s.passed[i + 1..]; }
    case Take => if |s.queue| > 0 { assert s.queue == [s.queue[0]] + s.queue[1..]; }
  }

  /** In every interleaving the channel never overfills, and every batch let through is in exactly one
      place: with its handler, in the channel, or taken. */
  lemma {:induction false} EveryRunIsBounded<B>(steps: seq<Step<B>>)
    ensures Inv(Run(Empty(), steps))
  {
    if steps != [] {
      EveryRunIsBounded(steps[..|steps| - 1]);
      StepKeepsInv(Run(Empty(), steps[..|steps| - 1]), steps[|steps| - 1]);
    }
  }

  // ---- when a handler blocks

  /** More batches were let through than there are places. */
  predicate Overbooked<B>(s: State<B>) { |s.queue| + |s.passed| > SIZE }

  function Sends<B>(n: nat): seq<Step<B>> { seq(n, _ => Send(0)) }

  lemma {:induction false} AfterSends<B>(s: State<B>, n: nat)
    requires |s.queue| <= SIZE
    ensures var s' := Run(s, Sends(n));
            && |s'.queue| <= SIZE && |s'.queue| + |s'.passed| == |s.queue| + |s.passed|
            && (n <= |s.passed| && |s.queue| + n <= SIZE ==> |s'.queue| == |s.queue| + n)
  {
    if n > 0 {
      assert Sends<B>(n)[..n - 1] == Sends(n - 1);
      AfterSends(s, n - 1);
    }
  }

  /** If the worker is slow, some handler will block if and only if more batches were let through than
      there are places. */
  lemma BlocksExactlyWhenOverbooked<B>(s: State<B>)
    requires |s.queue| <= SIZE
    ensures (exists n: nat :: Blocked(Run(s, Sends(n)))) <==> Overbooked(s)
  {
    if Overbooked(s) {
      var n := SIZE - |s.queue|;
      AfterSends(s, n);
      assert Blocked(Run(s, Sends(n)));
    }
    if exists n: nat :: Blocked(Run(s, Sends(n))) {
      var n: nat :| Blocked(Run(s, Sends(n)));
      AfterSends(s, n);
    }
  }

  // ---- how many handlers may be under way

  /** At no time are more than k handlers between their check and their send. */
  predicate AtMost<B>(steps: seq<Step<B>>, k: nat) {
    |Run(Empty(), steps).passed| <= k && (steps == [] || AtMost(steps[..|steps| - 1], k))
  }

  lemma {:induction false} OneHandlerFits<B>(steps: seq<Step<B>>)
    requires AtMost(steps, 1)
    ensures !Overbooked(Run(Empty(), steps)) && !Blocked(Run(Empty(), steps))
  {
    if steps != [] { OneHandlerFits(steps[..|steps| - 1]); }
  }

  lemma {:induction false} AtMostMore<B>(steps: seq<Step<B>>, k: nat, k': nat)
    requires AtMost(steps, k) && k <= k'
    ensures AtMost(steps, k')
  {
    if steps != [] { AtMostMore(steps[..|steps| - 1], k, k'); }
  }

  lemma RunAppend<B>(s: State<B>, steps: seq<Step<B>>, step: Step<B>)
    ensures Run(s, steps + [step]) == Apply(Run(s, steps), step)
  {
    assert (steps + [step])[..|steps|] == steps;
  }

  lemma AtMostAppend<B>(steps: seq<Step<B>>, step: Step<B>, k: nat)
    requires AtMost(steps, k) && |Apply(Run(Empty(), steps), step).passed| <= k
    ensures AtMost(steps + [step], k)
  {
    RunAppend(Empty(), steps, step);
    assert (steps + [step])[..|steps|] == steps;
  }

  /** One handler after the other. */
  lemma {:induction false} FillUp<B>(b: B, n: nat) returns (steps: seq<Step<B>>)
    requires n <= SIZE
    ensures |Run(Empty(), steps).queue| == n && Run(Empty(), steps).passed == [] && AtMost(steps, 1)
  {
    steps := [];
    if n > 0 {
      steps := FillUp(b, n - 1);
      RunAppend(Empty(), steps, Check(b, true));
      AtMostAppend(steps, Check(b, true), 1);
      RunAppend(Empty(), steps + [Check(b, true)], Send(0));
      AtMostAppend(steps + [Check(b, true)], Send(0), 1);
      steps := steps + [Check(b, true)] + [Send(0)];
    }
  }

  /** Two handlers check while one place is left, and one of them sends: the other blocks. */
  lemma TwoHandlersBlock<B>(b: B) returns (steps: seq<Step<B>>)
    ensures AtMost(steps, 2) && Blocked(Run(Empty(), steps))
  {
    var full := FillUp(b, SIZE - 1);
    AtMostMore(full, 1, 2);
    RunAppend(Empty(), full, Check(b, true));
    AtMostAppend(full, Check(b, true), 2);
    var one := full + [Check(b, true)];
    RunAppend(Empty(), one, Check(b, true));
    AtMostAppend(one, Check(b, true), 2);
    var two := one + [Check(b, true)];
    RunAppend(Empty(), two, Send(0));
    AtMostAppend(two, Send(0), 2);
    steps := two + [Send(0)];
  }

  /** With at most k handlers under way none ever blocks. */
  ghost predicate Suffices<B(!new)>(k: nat) {
    forall steps: seq<Step<B>> :: AtMost(steps, k) ==> !Blocked(Run(Empty(), steps))
  }

  /** No handler can ever block if and only if at most one at a time is let between its check and its
      send. */
  lemma NoBlockingIffOneAtATime<B(!new)>(k: nat, b: B)
    ensures Suffices<B>(k) <==> k <= 1
  {
    if k <= 1 {
      forall steps: seq<Step<B>> | AtMost(steps, k)
        ensures !Blocked(Run(Empty(), steps))
      {
        AtMostMore(steps, k, 1);
        OneHandlerFits(steps);
      }
    } else {
      var steps := TwoHandlersBlock(b);
      AtMostMore(steps, 2, k);
    }
  }
}
