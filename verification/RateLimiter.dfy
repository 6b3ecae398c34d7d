/** The windowed rate limiter in front of new connection entries (dp/ctrl.c).

    Times are true seconds; the limiter stores them in 32 bits and subtracts
    them modulo 2^32, as the C code does. */
module RateLimiter {
  import opened Sequences

  const WORD: nat := 0x1_0000_0000

  datatype Limiter = Limiter(dur: nat, limit: nat, start: nat, cnt: nat, totalDrop: nat, totalPass: nat)

  /** Subtraction of two 32-bit times. */
  function Elapsed(now: nat, start: nat): nat
    requires start < WORD
  {
    (now % WORD + WORD - start) % WORD
  }

  predicate Valid(l: Limiter) { l.start < WORD }

  function Reset(now: nat, dur: nat, limit: nat): Limiter {
    Limiter(dur, limit, now % WORD, 0, 0, 0)
  }

  /** A 32-bit counter plus one. */
  function Next(x: nat): nat { if x + 1 == WORD then 0 else x + 1 }

  /** The limiter after one check; `Passed` says whether that check let the entry through. */
  function Check(l: Limiter, now: nat): (r: Limiter)
    requires Valid(l)
    ensures Valid(r) && r.dur == l.dur && r.limit == l.limit
  {
    var w := if Elapsed(now, l.start) > l.dur then l.(start := now % WORD, cnt := 0) else l;
    if w.cnt + 1 > w.limit
    then w.(cnt := w.cnt + 1, totalDrop := Next(w.totalDrop))
    else w.(cnt := w.cnt + 1, totalPass := Next(w.totalPass))
  }

  predicate Passed(l: Limiter, now: nat)
    requires Valid(l)
  {
    Check(l, now).cnt <= l.limit
  }

  function After(l: Limiter, times: seq<nat>): (r: Limiter)
    requires Valid(l)
    ensures Valid(r) && r.dur == l.dur && r.limit == l.limit
  {
    if times == [] then l else Check(After(l, times[..|times| - 1]), times[|times| - 1])
  }

  /** How many checks at times in [a, b] passed. */
  function Passes(l: Limiter, times: seq<nat>, a: nat, b: nat): nat
    requires Valid(l)
  {
    if times == [] then 0
    else
      var before, now := times[..|times| - 1], times[|times| - 1];
      Passes(l, before, a, b) + if a <= now <= b && Passed(After(l, before), now) then 1 else 0
  }

  function Last(times: seq<nat>, from: nat): nat {
    if times == [] then from else times[|times| - 1]
  }

  predicate NonDecreasing(times: seq<nat>, from: nat) {
    times == [] ||
    var before := times[..|times| - 1];
    NonDecreasing(before, from) && Last(before, from) <= times[|times| - 1]
  }

  /** The true time at which the current window began. */
  function WindowStart(l: Limiter, times: seq<nat>, from: nat): nat
    requires Valid(l)
  {
    if times == [] then from
    else
      var before, now := times[..|times| - 1], times[|times| - 1];
      if Elapsed(now, After(l, before).start) > l.dur then now else WindowStart(l, before, from)
  }

  lemma ElapsedIsShortest(now: nat, start: nat)
    requires start <= now
    ensures Elapsed(now, start % WORD) == (now - start) % WORD
  {
    var k, j := now / WORD, start / WORD;
    assert now % WORD - start % WORD == (now - start) - WORD * (k - j);
  }

  /** The stored start is the true start of a window that the last check did not end. */
  lemma {:induction false} WindowTracks(times: seq<nat>, from: nat, dur: nat, limit: nat)
    requires NonDecreasing(times, from)
    ensures var l := Reset(from, dur, limit);
            && WindowStart(l, times, from) <= Last(times, from)
            && After(l, times).start == WindowStart(l, times, from) % WORD
            && Elapsed(Last(times, from), After(l, times).start) <= dur
  {
    if times != [] {
      WindowTracks(times[..|times| - 1], from, dur, limit);
    }
  }

  lemma DivGrows(x: nat, y: nat, d: nat)
    requires d > 0 && x + d <= y
    ensures x / d + 1 <= y / d
  {
    var p, q := x / d, y / d;
    assert x == p * d + x % d && y == q * d + y % d;
    if q <= p {
      MulMonotone(d, q, p);
      assert false;
    }
  }

  lemma DivMonotone(x: nat, y: nat, d: nat)
    requires d > 0 && x <= y
    ensures x / d <= y / d
  {
    var p, q := x / d, y / d;
    assert x == p * d + x % d && y == q * d + y % d;
    if q < p {
      MulMonotone(d, q + 1, p);
      assert false;
    }
  }

  lemma AddOne(limit: nat, x: nat)
    ensures limit * (x + 1) == limit * x + limit
  {
  }

  /** Closing a window that began at `w` by one that begins at `now`. */
  lemma WindowStep(w: nat, now: nat, a: nat, span: nat, limit: nat)
    requires a < w && w + span <= now && span > 0
    ensures limit * (1 + (w - a - 1) / span) + limit <= limit * (1 + (now - a - 1) / span)
  {
    DivGrows(w - a - 1, now - a - 1, span);
    MulMonotone(limit, 2 + (w - a - 1) / span, 1 + (now - a - 1) / span);
    AddOne(limit, 1 + (w - a - 1) / span);
  }

  lemma {:induction false} NoPassesBefore(l: Limiter, times: seq<nat>, from: nat, a: nat, b: nat)
    requires Valid(l) && NonDecreasing(times, from) && Last(times, from) < a
    ensures Passes(l, times, a, b) == 0
  {
    if times != [] {
      NoPassesBefore(l, times[..|times| - 1], from, a, b);
    }
  }

  /** What earlier windows and the window in progress may have let through. */
  function Allowance(cnt: nat, w: nat, a: nat, span: nat, limit: nat): nat
    requires span > 0
  {
    Min(cnt, limit) + if w <= a then 0 else limit * (1 + (w - a - 1) / span)
  }

  lemma NewWindowAllowance(cnt: nat, w: nat, now: nat, a: nat, span: nat, limit: nat)
    requires span > 0 && w + span <= now && a < now
    ensures Allowance(cnt, w, a, span, limit) <= limit * (1 + (now - a - 1) / span)
  {
    if w > a {
      WindowStep(w, now, a, span, limit);
    } else {
      MulMonotone(limit, 1, 1 + (now - a - 1) / span);
    }
  }

  /** One check at `now`, in a window that truly began at `w`. */
  lemma CheckWithinAllowance(l: Limiter, w: nat, now: nat, a: nat, passes: nat)
    requires Valid(l) && l.start == w % WORD && w <= now
    requires passes <= Allowance(l.cnt, w, a, l.dur + 1, l.limit)
    requires Elapsed(now, l.start) > l.dur && now <= a ==> passes == 0
    ensures passes + (if Passed(l, now) then 1 else 0) <=
            Allowance(Check(l, now).cnt, if Elapsed(now, l.start) > l.dur then now else w, a, l.dur + 1, l.limit)
  {
    if Elapsed(now, l.start) > l.dur {
      ElapsedIsShortest(now, w);
      if a < now {
        NewWindowAllowance(l.cnt, w, now, a, l.dur + 1, l.limit);
      }
    }
  }

  lemma {:induction false} PassesInWindows(times: seq<nat>, from: nat, dur: nat, limit: nat, a: nat, b: nat)
    requires NonDecreasing(times, from)
    ensures var l := Reset(from, dur, limit);
            Passes(l, times, a, b) <= Allowance(After(l, times).cnt, WindowStart(l, times, from), a, dur + 1, limit)
  {
    var l := Reset(from, dur, limit);
    if times != [] {
      var before, now := times[..|times| - 1], times[|times| - 1];
      PassesInWindows(before, from, dur, limit, a, b);
      WindowTracks(before, from, dur, limit);
      if Elapsed(now, After(l, before).start) > dur && now <= a {
        NoPassesBefore(l, before, from, a, b);
      }
      CheckWithinAllowance(After(l, before), WindowStart(l, before, from), now, a, Passes(l, before, a, b));
    }
  }

  lemma DivUnique(x: nat, d: nat, q: nat, r: nat)
    requires d > 0 && x == q * d + r && r < d
    ensures x / d == q
  {
    var p := x / d;
    assert x == p * d + x % d;
    if p < q {
      MulMonotone(d, p + 1, q);
      assert false;
    } else if q < p {
      MulMonotone(d, q + 1, p);
      assert false;
    }
  }

  lemma RoundUp(x: nat, span: nat)
    requires span > 0 && x > 0
    ensures (x + span - 1) / span == 1 + (x - 1) / span
  {
    var q := (x - 1) / span;
    assert x + span - 1 == (q + 1) * span + (x - 1) % span;
    DivUnique(x + span - 1, span, q + 1, (x - 1) % span);
  }

  lemma LaterWindow(w: nat, a: nat, b: nat, span: nat)
    requires span > 0 && a < w <= b
    ensures (w - a - 1) / span + 1 <= (b - a + span - 1) / span
  {
    RoundUp(b - a, span);
    DivMonotone(w - a - 1, b - a - 1, span);
  }

  lemma OneMore(cnt: nat, limit: nat, r: nat, q: nat)
    requires r + 1 <= q
    ensures Min(cnt, limit) + limit * (1 + r) <= limit * (1 + q)
  {
    AddOne(limit, 1 + r);
    MulMonotone(limit, 2 + r, 1 + q);
  }

  lemma AllowanceBound(cnt: nat, w: nat, a: nat, b: nat, dur: nat, limit: nat)
    requires w <= b && a <= b
    ensures Allowance(cnt, w, a, dur + 1, limit) <= limit * (1 + (b - a + dur) / (dur + 1))
  {
    var q := (b - a + dur) / (dur + 1);
    assert b - a + (dur + 1) - 1 == b - a + dur;
    if w > a {
      LaterWindow(w, a, b, dur + 1);
      OneMore(cnt, limit, (w - a - 1) / (dur + 1), q);
    } else {
      MulMonotone(limit, 1, 1 + q);
    }
  }

  /** The real guarantee: from second a to second b at most one limit for every window that can begin
      in between, and one for the window before these, for every sequence of checks. */
  lemma {:induction false} PassBound(times: seq<nat>, from: nat, dur: nat, limit: nat, a: nat, b: nat)
    requires NonDecreasing(times, from) && a <= b
    ensures Passes(Reset(from, dur, limit), times, a, b) <= limit * (1 + (b - a + dur) / (dur + 1))
  {
    var l := Reset(from, dur, limit);
    if times != [] {
      if times[|times| - 1] > b {
        PassBound(times[..|times| - 1], from, dur, limit, a, b);
      } else {
        PassesInWindows(times, from, dur, limit, a, b);
        WindowTracks(times, from, dur, limit);
        AllowanceBound(After(l, times).cnt, WindowStart(l, times, from), a, b, dur, limit);
      }
    }
  }

  lemma CountOne(x: nat)
    ensures Next(x % WORD) == (x + 1) % WORD
  {
  }

  lemma {:induction false} PassesIgnoreLaterEnd(l: Limiter, times: seq<nat>, from: nat, b: nat)
    requires Valid(l) && NonDecreasing(times, from) && Last(times, from) <= b
    ensures Passes(l, times, 0, b) == Passes(l, times, 0, Last(times, from))
  {
    if times != [] {
      var before := times[..|times| - 1];
      PassesIgnoreLaterEnd(l, before, from, b);
      PassesIgnoreLaterEnd(l, before, from, Last(times, from));
    }
  }

  lemma {:induction false} WindowSpent(times: seq<nat>, from: nat, dur: nat, limit: nat, b: nat)
    requires NonDecreasing(times, from) && Last(times, from) <= b
    ensures var l := Reset(from, dur, limit);
            Passes(l, times, WindowStart(l, times, from), b) >= Min(After(l, times).cnt, limit)
  {
    if times != [] {
      var before, now, l := times[..|times| - 1], times[|times| - 1], Reset(from, dur, limit);
      WindowSpent(before, from, dur, limit, b);
      WindowTracks(times, from, dur, limit);
    }
  }

  /** A check is turned down only if since its window began as many have passed as the limit allows. */
  lemma DroppedOnlyWhenSpent(times: seq<nat>, now: nat, from: nat, dur: nat, limit: nat)
    requires NonDecreasing(times + [now], from)
    ensures var l := Reset(from, dur, limit);
            !Passed(After(l, times), now) ==>
              Passes(l, times + [now], WindowStart(l, times + [now], from), now) >= limit
  {
    assert (times + [now])[..|times|] == times;
    WindowSpent(times + [now], from, dur, limit, now);
  }

  /** Every check is counted once, as a pass or as a drop, in counters of 32 bits. */
  lemma {:induction false} TotalsCountChecks(times: seq<nat>, from: nat, dur: nat, limit: nat)
    requires NonDecreasing(times, from)
    ensures var l, passes := After(Reset(from, dur, limit), times), Passes(Reset(from, dur, limit), times, 0, Last(times, from));
            passes <= |times| && l.totalPass == passes % WORD && l.totalDrop == (|times| - passes) % WORD
  {
    if times != [] {
      var before := times[..|times| - 1];
      TotalsCountChecks(before, from, dur, limit);
      PassesIgnoreLaterEnd(Reset(from, dur, limit), before, from, Last(times, from));
      var passes := Passes(Reset(from, dur, limit), before, 0, Last(before, from));
      CountOne(passes);
      CountOne(|before| - passes);
    }
  }

  // ---- the bound is attained

  /** When the k-th window begins, if checks never pause. */
  function Opens(dur: nat, k: nat): nat {
    if k == 0 then 0 else Opens(dur, k - 1) + dur + 1
  }

  /** When its checks come: in the first window as late, in the others as early as can be. */
  function At(dur: nat, k: nat): nat {
    if k == 0 then dur else Opens(dur, k)
  }

  /** All checks of the first k windows, `limit` each, and m checks of the next one. */
  function Storm(dur: nat, limit: nat, k: nat, m: nat): seq<nat> {
    if m > 0 then Storm(dur, limit, k, m - 1) + [At(dur, k)]
    else if k > 0 then Storm(dur, limit, k - 1, limit)
    else []
  }

  lemma AppendCheck(l: Limiter, times: seq<nat>, now: nat, a: nat, b: nat)
    requires Valid(l)
    ensures After(l, times + [now]) == Check(After(l, times), now)
    ensures a <= now <= b && Passed(After(l, times), now) ==>
              Passes(l, times + [now], a, b) == Passes(l, times, a, b) + 1
  {
    assert (times + [now])[..|times|] == times;
  }

  lemma AppendTimely(times: seq<nat>, now: nat, from: nat)
    requires NonDecreasing(times, from) && Last(times, from) <= now
    ensures NonDecreasing(times + [now], from) && Last(times + [now], from) == now
  {
    assert (times + [now])[..|times|] == times;
  }

  lemma {:induction false} StormIsTimely(dur: nat, limit: nat, k: nat, m: nat)
    ensures NonDecreasing(Storm(dur, limit, k, m), 0)
    ensures Last(Storm(dur, limit, k, m), 0) <= At(dur, k)
    decreases k, m
  {
    if m > 0 {
      StormIsTimely(dur, limit, k, m - 1);
      AppendTimely(Storm(dur, limit, k, m - 1), At(dur, k), 0);
    } else if k > 0 {
      StormIsTimely(dur, limit, k - 1, limit);
    }
  }

  /** A check at `now` in a window that truly began at `w`, less than 2^32 seconds ago. */
  lemma PassIn(l: Limiter, w: nat, now: nat)
    requires l.start == w % WORD && w <= now < w + WORD && 0 < l.limit && (now - w <= l.dur ==> l.cnt < l.limit)
    ensures Passed(l, now)
    ensures now - w <= l.dur ==> Check(l, now).cnt == l.cnt + 1 && Check(l, now).start == l.start
    ensures now - w > l.dur ==> Check(l, now).cnt == 1 && Check(l, now).start == now % WORD
  {
    ElapsedIsShortest(now, w);
    assert (now - w) % WORD == now - w;
  }

  /** After m checks of the k-th window, all that came passed. */
  predicate Stormed(l: Limiter, dur: nat, limit: nat, k: nat, m: nat)
  {
    if m > 0 then l.cnt == m && l.start == Opens(dur, k) % WORD
    else if k > 0 then l.cnt == limit && l.start == Opens(dur, k - 1) % WORD
    else l.cnt == 0 && l.start == 0
  }

  function StormPasses(limit: nat, k: nat, m: nat): nat {
    if k == 0 then m else StormPasses(limit, k - 1, limit) + m
  }

  lemma {:induction false} StormPassesAll(limit: nat, k: nat, m: nat)
    ensures StormPasses(limit, k, m) == limit * k + m
  {
    if k > 0 {
      StormPassesAll(limit, k - 1, limit);
      AddOne(limit, k - 1);
    }
  }

  lemma StormStep(l: Limiter, dur: nat, limit: nat, k: nat, m: nat)
    requires Valid(l) && l.dur == dur && l.limit == limit && dur + 1 < WORD && 0 < m <= limit
    requires Stormed(l, dur, limit, k, m - 1)
    ensures Passed(l, At(dur, k)) && Stormed(Check(l, At(dur, k)), dur, limit, k, m)
  {
    if m > 1 || k == 0 {
      PassIn(l, Opens(dur, k), At(dur, k));
    } else {
      PassIn(l, Opens(dur, k - 1), At(dur, k));
    }
  }

  lemma {:induction false} OpensGrows(dur: nat, k: nat)
    ensures k > 0 ==> Opens(dur, k) > dur
  {
    if k > 1 { OpensGrows(dur, k - 1); }
  }

  lemma {:induction false} OpensAt(dur: nat, k: nat)
    ensures Opens(dur, k) == (dur + 1) * k
  {
    if k > 0 {
      OpensAt(dur, k - 1);
      AddOne(dur + 1, k - 1);
    }
  }

  lemma {:induction false} StormPassed(dur: nat, limit: nat, k: nat, m: nat, b: nat)
    requires dur + 1 < WORD && 0 < limit && m <= limit && At(dur, k) <= b
    ensures var l := Reset(0, dur, limit);
            && Stormed(After(l, Storm(dur, limit, k, m)), dur, limit, k, m)
            && Passes(l, Storm(dur, limit, k, m), dur, b) == StormPasses(limit, k, m)
    decreases k, m
  {
    var l := Reset(0, dur, limit);
    OpensGrows(dur, k);
    if m > 0 {
      StormPassed(dur, limit, k, m - 1, b);
      StormStep(After(l, Storm(dur, limit, k, m - 1)), dur, limit, k, m);
      AppendCheck(l, Storm(dur, limit, k, m - 1), At(dur, k), dur, b);
    } else if k > 0 {
      OpensGrows(dur, k - 1);
      StormPassed(dur, limit, k - 1, limit, b);
    }
  }

  lemma {:induction false} NoLimitNoPasses(l: Limiter, times: seq<nat>, a: nat, b: nat)
    requires Valid(l) && l.limit == 0
    ensures Passes(l, times, a, b) == 0
  {
    if times != [] { NoLimitNoPasses(l, times[..|times| - 1], a, b); }
  }

  lemma WindowsFit(dur: nat, length: nat)
    ensures At(dur, (length + dur) / (dur + 1)) <= dur + length
  {
    var k := (length + dur) / (dur + 1);
    OpensAt(dur, k);
    assert length + dur == (dur + 1) * k + (length + dur) % (dur + 1);
  }

  /** For an interval of any length there are checks that reach the bound: it cannot be lowered. */
  lemma BoundIsAttained(dur: nat, limit: nat, length: nat)
    requires dur + 1 < WORD
    ensures exists times ::
              && NonDecreasing(times, 0)
              && Passes(Reset(0, dur, limit), times, dur, dur + length) == limit * (1 + (length + dur) / (dur + 1))
  {
    var k := (length + dur) / (dur + 1);
    var times := Storm(dur, limit, k, limit);
    StormIsTimely(dur, limit, k, limit);
    WindowsFit(dur, length);
    if limit > 0 {
      StormPassed(dur, limit, k, limit, dur + length);
      StormPassesAll(limit, k, limit);
      AddOne(limit, k);
    } else {
      NoLimitNoPasses(Reset(0, dur, limit), times, dur, dur + length);
    }
    assert Passes(Reset(0, dur, limit), times, dur, dur + length) == limit * (1 + k);
  }

  class ConnLimiter {
    var dur: nat
    var limit: nat
    var start: nat
    var cnt: nat
    var totalDrop: nat
    var totalPass: nat

    ghost function View(): Limiter
      reads this
    {
      Limiter(dur, limit, start, cnt, totalDrop, totalPass)
    }

    constructor (now: nat, dur: nat, limit: nat)
      ensures View() == Reset(now, dur, limit)
    {
      this.dur, this.limit := dur, limit;
      start, cnt, totalDrop, totalPass := now % WORD, 0, 0, 0;
    }

    method CheckNow(now: nat) returns (ret: int)
      requires Valid(View())
      modifies this
      ensures View() == Check(old(View()), now)
      ensures ret == (if Passed(old(View()), now) then 0 else -1)
    {
      var cur := now % WORD;
      if (cur + WORD - start) % WORD > dur {
        start := cur;
        cnt := 0;
      }
      cnt := cnt + 1;
      if cnt > limit {
        totalDrop := if totalDrop + 1 == WORD then 0 else totalDrop + 1;
        ret := -1;
      } else {
        totalPass := if totalPass + 1 == WORD then 0 else totalPass + 1;
        ret := 0;
      }
    }
  }
}
