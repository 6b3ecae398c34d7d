/** The connection reporting routines themselves (dp/ctrl.c), called one after the
    other. Each call is proved to be an uninterrupted run of the steps of
    ConnectMap, so what holds in every interleaving holds after every call. */
module ConnectTables {
  import opened Counters
  import opened ConnectLedger
  import opened ConnectMap
  import RL = RateLimiter

  predicate Quiet(s: State) {
    Shape(s) && forall t :: 0 <= t < |s.dps| ==> s.dps[t].pc.Outside?
  }

  /** The entries in the maps of the first threads. */
  function Contents(ds: seq<Dp>): multiset<Node>
    requires forall d <- ds :: |d.maps| == 2
  {
    if ds == [] then multiset{}
    else Contents(ds[..|ds| - 1]) + multiset(ds[|ds| - 1].maps[0]) + multiset(ds[|ds| - 1].maps[1])
  }

  function InMessages(msgs: seq<seq<Node>>): multiset<Node> {
    if msgs == [] then multiset{} else InMessages(msgs[..|msgs| - 1]) + multiset(msgs[|msgs| - 1])
  }

  predicate AllFull(msgs: seq<seq<Node>>) { forall m <- msgs :: |m| == CONNECTS_PER_MSG }

  /** Every message is full, except that the last one may hold less. */
  predicate FullButLast(msgs: seq<seq<Node>>) {
    msgs == [] || (AllFull(msgs[..|msgs| - 1]) && 0 < |msgs[|msgs| - 1]| <= CONNECTS_PER_MSG)
  }

  /** Thread t inside a read section, holding its current map. */
  function Entered(s: State, t: nat): (s': State)
    requires Shape(s) && t < |s.dps|
    ensures Shape(s')
  {
    SetDp(s, t, s.dps[t].(pc := Holding(s.dps[t].cur)))
  }

  lemma EnterSteps(s: State, t: nat)
    requires Shape(s) && t < |s.dps| && s.dps[t].pc.Outside?
    ensures Apply(Apply(s, BeginSection(t)), LoadCur(t)) == Entered(s, t)
  {
  }

  /** The states before and after each of `steps`, ending in `now`. */
  datatype Trace = Trace(past: seq<State>, steps: seq<Step>, now: State)

  function StateAt(tr: Trace, i: nat): State
    requires i <= |tr.past|
  {
    if i < |tr.past| then tr.past[i] else tr.now
  }

  predicate Follows(tr: Trace, i: nat)
    requires i < |tr.past| == |tr.steps|
  {
    Shape(tr.past[i]) && StateAt(tr, i + 1) == Apply(tr.past[i], tr.steps[i])
  }

  ghost predicate Recorded(tr: Trace) {
    && |tr.past| == |tr.steps| && Shape(tr.now) && Init(StateAt(tr, 0))
    && forall i :: 0 <= i < |tr.steps| ==> Follows(tr, i)
  }

  function Extend(tr: Trace, step: Step): Trace
    requires Shape(tr.now)
  {
    Trace(tr.past + [tr.now], tr.steps + [step], Apply(tr.now, step))
  }

  lemma ExtendKeeps(tr: Trace, step: Step)
    requires Recorded(tr)
    ensures Recorded(Extend(tr, step))
  {
    var tr' := Extend(tr, step);
    forall i | 0 <= i < |tr'.steps|
      ensures Follows(tr', i)
    {
      if i < |tr.steps| { assert Follows(tr, i); }
    }
  }

  function Before(tr: Trace): Trace
    requires |tr.past| == |tr.steps| > 0
  {
    var n := |tr.steps| - 1;
    Trace(tr.past[..n], tr.steps[..n], tr.past[n])
  }

  lemma FollowsBefore(tr: Trace, i: nat)
    requires |tr.past| == |tr.steps| && i < |tr.steps| - 1 && Follows(tr, i)
    ensures Follows(Before(tr), i)
  {
    assert StateAt(Before(tr), i + 1) == StateAt(tr, i + 1);
  }

  lemma BeforeRecorded(tr: Trace)
    requires Recorded(tr) && tr.steps != []
    ensures Recorded(Before(tr)) && StateAt(Before(tr), 0) == StateAt(tr, 0)
  {
    assert Follows(tr, |tr.steps| - 1);
    forall i | 0 <= i < |tr.steps| - 1
      ensures Follows(Before(tr), i)
    {
      FollowsBefore(tr, i);
    }
  }

  lemma {:induction false} RecordedIsRun(tr: Trace)
    requires Recorded(tr)
    ensures Shape(StateAt(tr, 0)) && Init(StateAt(tr, 0)) && tr.now == Run(StateAt(tr, 0), tr.steps)
    decreases |tr.steps|
  {
    if tr.steps != [] {
      var n := |tr.steps| - 1;
      assert Follows(tr, n);
      BeforeRecorded(tr);
      RecordedIsRun(Before(tr));
    }
  }

  lemma RecordedKeepsAll(tr: Trace, f: Field, id: nat)
    requires Recorded(tr)
    ensures Exclusive(tr.now) && Ledger(tr.now, f, id) && Batched(tr.now)
  {
    RecordedIsRun(tr);
    RunKeepsExclusive(StateAt(tr, 0), tr.steps);
    RunKeepsBooks(StateAt(tr, 0), tr.steps, f, id);
  }

  /** Where an entry with this key and application is, or the length of the map. */
  method Lookup(m: seq<Node>, key: Key, application: nat) returns (pick: nat)
    ensures pick <= |m| && (pick < |m| ==> Matches(m[pick], key, application))
    ensures pick < |m| ==> m[pick].key == key && m[pick].application == application
    ensures pick == |m| ==> forall n <- m :: !Matches(n, key, application) && (n.key != key || n.application != application)
  {
    pick := 0;
    while pick < |m|
      invariant pick <= |m| && forall i :: 0 <= i < pick ==> !Matches(m[i], key, application)
    {
      if Matches(m[pick], key, application) {
        return;
      }
      pick := pick + 1;
    }
  }

  /** The retired map cut down to `rest`, with `msgs` sent and `buffer` to go. */
  function Cut(s: State, rest: seq<Node>, msgs: seq<seq<Node>>, buffer: seq<Node>): (s': State)
    requires Shape(s) && s.ctrl.Draining?
    ensures Shape(s')
  {
    SetDp(s, s.ctrl.thr, SetMap(s.dps[s.ctrl.thr], s.ctrl.idx, rest)).(sent := s.sent + msgs, buffer := buffer)
  }

  lemma CutNothing(s: State)
    requires Shape(s) && s.ctrl.Draining?
    ensures Cut(s, s.dps[s.ctrl.thr].maps[s.ctrl.idx], [], s.buffer) == s
  {
    var d := s.dps[s.ctrl.thr];
    assert d.maps[s.ctrl.idx := d.maps[s.ctrl.idx]] == d.maps;
    assert s.dps[s.ctrl.thr := d] == s.dps;
    assert s.sent + [] == s.sent;
  }

  /** An entry goes into the message, which is sent when full. */
  function Pushed(msgs: seq<seq<Node>>, buffer: seq<Node>, n: Node): (seq<seq<Node>>, seq<Node>) {
    if |buffer| + 1 == CONNECTS_PER_MSG then (msgs + [buffer + [n]], []) else (msgs, buffer + [n])
  }

  lemma CutOne(s: State, rest: seq<Node>, msgs: seq<seq<Node>>, buffer: seq<Node>, pick: nat)
    requires Shape(s) && s.ctrl.Draining? && pick < |rest|
    ensures var (msgs', buffer') := Pushed(msgs, buffer, rest[pick]);
            Apply(Cut(s, rest, msgs, buffer), CtrlDrain(pick)) == Cut(s, rest[..pick] + rest[pick + 1..], msgs', buffer')
  {
    var c := Cut(s, rest, msgs, buffer);
    var d := s.dps[s.ctrl.thr];
    var rest' := rest[..pick] + rest[pick + 1..];
    assert d.maps[s.ctrl.idx := rest][s.ctrl.idx := rest'] == d.maps[s.ctrl.idx := rest'];
    assert s.sent + (msgs + [buffer + [rest[pick]]]) == s.sent + msgs + [buffer + [rest[pick]]];
    assert Apply(c, CtrlDrain(pick)) == ApplyDrain(c, pick);
  }

  lemma CutKeeps(tr: Trace, s: State, rest: seq<Node>, msgs: seq<seq<Node>>, buffer: seq<Node>, pick: nat) returns (tr': Trace)
    requires Shape(s) && s.ctrl.Draining? && pick < |rest|
    requires Recorded(tr) && tr.now == Cut(s, rest, msgs, buffer)
    ensures var (msgs', buffer') := Pushed(msgs, buffer, rest[pick]);
            Recorded(tr') && tr'.now == Cut(s, rest[..pick] + rest[pick + 1..], msgs', buffer')
  {
    CutOne(s, rest, msgs, buffer, pick);
    ExtendKeeps(tr, CtrlDrain(pick));
    tr' := Extend(tr, CtrlDrain(pick));
  }

  lemma MessagesAppend(msgs: seq<seq<Node>>, m: seq<Node>)
    ensures InMessages(msgs + [m]) == InMessages(msgs) + multiset(m)
  {
    assert (msgs + [m])[..|msgs|] == msgs;
  }

  lemma PushedKeeps(msgs: seq<seq<Node>>, buffer: seq<Node>, n: Node)
    requires AllFull(msgs) && |buffer| < CONNECTS_PER_MSG
    ensures var (msgs', buffer') := Pushed(msgs, buffer, n);
            && AllFull(msgs') && |buffer'| < CONNECTS_PER_MSG
            && InMessages(msgs') + multiset(buffer') == InMessages(msgs) + multiset(buffer) + multiset([n])
  {
    MessagesAppend(msgs, buffer + [n]);
  }

  lemma TakeOne(m: seq<Node>, pick: nat)
    requires pick < |m|
    ensures multiset(m[..pick] + m[pick + 1..]) + multiset([m[pick]]) == multiset(m)
  {
    assert m == m[..pick] + [m[pick]] + m[pick + 1..];
  }

  lemma Moved(before: multiset<Node>, rest: multiset<Node>, rest': multiset<Node>, n: Node)
    requires rest' + multiset([n]) == rest
    ensures before + multiset([n]) + rest' == before + rest
  {
    assert before + multiset([n]) + rest' == before + (rest' + multiset([n]));
  }

  /** Copy every entry of a retired map into messages, each sent when full. The order in
      which the hash map yields its entries is left open. */
  method DrainMap(m: seq<Node>, buffer: seq<Node>, ghost tr: Trace)
    returns (msgs: seq<seq<Node>>, buffer': seq<Node>, ghost tr': Trace)
    requires Recorded(tr) && tr.now.ctrl.Draining? && |buffer| < CONNECTS_PER_MSG
    requires tr.now.buffer == buffer && tr.now.dps[tr.now.ctrl.thr].maps[tr.now.ctrl.idx] == m
    ensures Recorded(tr') && tr'.now == Cut(tr.now, [], msgs, buffer')
    ensures AllFull(msgs) && |buffer'| < CONNECTS_PER_MSG
    ensures InMessages(msgs) + multiset(buffer') == multiset(buffer) + multiset(m)
  {
    CutNothing(tr.now);
    msgs, buffer', tr' := [], buffer, tr;
    var rest := m;
    while rest != []
      invariant Recorded(tr') && tr'.now == Cut(tr.now, rest, msgs, buffer')
      invariant AllFull(msgs) && |buffer'| < CONNECTS_PER_MSG
      invariant InMessages(msgs) + multiset(buffer') + multiset(rest) == multiset(buffer) + multiset(m)
      decreases |rest|
    {
      var pick :| 0 <= pick < |rest|;
      var n := rest[pick];
      tr' := CutKeeps(tr', tr.now, rest, msgs, buffer', pick);
      TakeOne(rest, pick);
      PushedKeeps(msgs, buffer', n);
      ghost var before := InMessages(msgs) + multiset(buffer');
      buffer' := buffer' + [n];
      if |buffer'| == CONNECTS_PER_MSG {
        msgs, buffer' := msgs + [buffer'], [];
      }
      Moved(before, multiset(rest), multiset(rest[..pick] + rest[pick + 1..]), n);
      rest := rest[..pick] + rest[pick + 1..];
    }
  }

  /** The state after a whole report that finds an entry. */
  function AfterHit(s: State, t: nat, r: Report, pick: nat): State
    requires Shape(s) && t < |s.dps| && pick < |s.dps[t].maps[s.dps[t].cur]|
  {
    var d := s.dps[t];
    var m := d.maps[d.cur];
    var n := m[pick].(amounts := WrapPlus(m[pick].amounts, r.amounts, WIDTH));
    SetDp(s, t, SetMap(d, d.cur, m[pick := n])).(accepted := Plus(s.accepted, r.amounts))
  }

  lemma AfterHitQuiet(s: State, t: nat, r: Report, pick: nat)
    requires Quiet(s) && t < |s.dps| && pick < |s.dps[t].maps[s.dps[t].cur]|
    ensures Quiet(AfterHit(s, t, r, pick))
  {
  }

  function AfterMissDp(d: Dp, id: nat, r: Report, time: nat, alloc: bool): Dp
    requires DpShape(d)
  {
    var d1 := if HighPriority(r) then d else d.(rl := RL.Check(d.rl, time));
    if Admits(d, r, time) && alloc then
      SetMap(d1, d.cur, d.maps[d.cur] + [Node(id, r.key, r.application, WrapPlus(ZERO, r.amounts, WIDTH))])
        .(cnt := d.cnt[d.cur := d.cnt[d.cur] + 1])
    else d1
  }

  /** The state after a whole report that finds none. */
  function AfterMiss(s: State, t: nat, r: Report, time: nat, alloc: bool): State
    requires Shape(s) && t < |s.dps|
  {
    var s1 := SetDp(s, t, AfterMissDp(s.dps[t], s.nextId, r, time, alloc));
    if Admitted(s, t, r, time) && alloc
    then s1.(accepted := Plus(s.accepted, r.amounts), nextId := s.nextId + 1)
    else s1.(dropped := s.dropped + [(r, Admitted(s, t, r, time))])
  }

  lemma AfterMissQuiet(s: State, t: nat, r: Report, time: nat, alloc: bool)
    requires Quiet(s) && t < |s.dps|
    ensures Quiet(AfterMiss(s, t, r, time, alloc))
  {
  }

  lemma {:induction false} MessagesJoin(a: seq<seq<Node>>, b: seq<seq<Node>>)
    ensures InMessages(a + b) == InMessages(a) + InMessages(b)
  {
    if b == [] {
      assert a + b == a;
    } else {
      assert (a + b)[..|a + b| - 1] == a + b[..|b| - 1];
      MessagesJoin(a, b[..|b| - 1]);
    }
  }

  predicate MapsTidy(d: Dp) {
    DpShape(d) && d.maps[1 - d.cur] == [] && (d.cnt[d.cur] == 0 ==> d.maps == [[], []])
  }

  /** Before its turn in a pass a quiet thread has nothing outside its current map, and a
      count of zero means that one is empty too. */
  lemma QuietMaps(s: State, thr: nat)
    requires Exclusive(s) && Quiet(s) && s.ctrl == At(thr) && thr < |s.dps|
    ensures MapsTidy(s.dps[thr])
  {
    assert DpInv(s, thr) && CountInv(s, thr, 0) && CountInv(s, thr, 1);
  }

  function Flipped(s: State): State
    requires Shape(s) && s.ctrl.At? && s.ctrl.thr < |s.dps|
  {
    var d := s.dps[s.ctrl.thr];
    SetDp(s, s.ctrl.thr, d.(cur := 1 - d.cur)).(ctrl := Draining(s.ctrl.thr, d.cur))
  }

  /** With no thread in a read section the grace period is over at once. */
  lemma FlipSteps(s: State)
    requires Quiet(s) && s.ctrl.At? && s.ctrl.thr < |s.dps|
    requires s.dps[s.ctrl.thr].cnt[s.dps[s.ctrl.thr].cur] != 0
    ensures Quiet(Flipped(s)) && Apply(Apply(Apply(s, CtrlCheck), CtrlFlip), CtrlGrace) == Flipped(s)
  {
    var s1 := Apply(s, CtrlCheck);
    assert forall t :: 0 <= t < |s1.dps| ==> !InSection(s1.dps[t]);
    assert (set t | 0 <= t < |s1.dps| && InSection(s1.dps[t])) == {};
  }

  predicate Found(d: Dp, key: Key, application: nat, pick: nat)
    requires DpShape(d)
  {
    pick < |d.maps[d.cur]| && Matches(d.maps[d.cur][pick], key, application)
  }

  predicate Absent(d: Dp, key: Key, application: nat)
    requires DpShape(d)
  {
    forall n <- d.maps[d.cur] :: !Matches(n, key, application)
  }

  method NewEntry(d: Dp, id: nat, r: Report, time: nat, alloc: bool) returns (d': Dp, added: bool)
    requires DpShape(d)
    ensures d' == AfterMissDp(d, id, r, time, alloc) && added == (Admits(d, r, time) && alloc)
  {
    d', added := d, HighPriority(r);
    if !added {
      added := RL.Passed(d.rl, time);
      d' := d.(rl := RL.Check(d.rl, time));
    }
    added := added && alloc;
    if added {
      var m := d.maps[d.cur] + [Node(id, r.key, r.application, WrapPlus(ZERO, r.amounts, WIDTH))];
      d' := SetMap(d', d.cur, m).(cnt := d.cnt[d.cur := d.cnt[d.cur] + 1]);
    }
  }

  lemma HitEnds(s: State, t: nat, r: Report, garbage: nat, pick: nat)
    requires Quiet(s) && s.ctrl.Idle? && t < |s.dps| && Found(s.dps[t], r.key, garbage, pick)
    ensures Apply(Apply(Entered(s, t), Hit(t, r, garbage, pick)), EndSection(t)) == AfterHit(s, t, r, pick)
  {
  }

  lemma DropEnds(s: State, t: nat, r: Report, garbage: nat, time: nat, alloc: bool)
    requires Quiet(s) && s.ctrl.Idle? && t < |s.dps| && Absent(s.dps[t], r.key, garbage)
    requires !(Admitted(s, t, r, time) && alloc)
    ensures Apply(Apply(Entered(s, t), Miss(t, r, garbage, time, alloc)), EndSection(t)) == AfterMiss(s, t, r, time, alloc)
  {
    var s1 := Limit(Entered(s, t), t, r, time);
    var s2 := Drop(s1, t, r, Admitted(s, t, r, time));
    assert Apply(Entered(s, t), Miss(t, r, garbage, time, alloc)) == s2;
    assert Apply(s2, EndSection(t)).dps == Limit(s, t, r, time).dps;
  }

  lemma AddEnds(s: State, t: nat, r: Report, garbage: nat, time: nat)
    requires Quiet(s) && s.ctrl.Idle? && t < |s.dps| && Absent(s.dps[t], r.key, garbage)
    requires Admitted(s, t, r, time)
    ensures Apply(Apply(Apply(Entered(s, t), Miss(t, r, garbage, time, true)), CountNode(t)), EndSection(t))
            == AfterMiss(s, t, r, time, true)
  {
    var e := Entered(s, t);
    var s2 := AddNode(Limit(e, t, r, time), t, r);
    assert Apply(e, Miss(t, r, garbage, time, true)) == s2;
    var s3 := Apply(s2, CountNode(t));
    assert Apply(s3, EndSection(t)).dps[t] == s3.dps[t].(pc := Outside);
  }

  lemma MissEnds(s: State, t: nat, r: Report, garbage: nat, time: nat, alloc: bool)
    requires Quiet(s) && s.ctrl.Idle? && t < |s.dps| && Absent(s.dps[t], r.key, garbage)
    ensures var s' := Apply(Entered(s, t), Miss(t, r, garbage, time, alloc));
            Apply(if Admitted(s, t, r, time) && alloc then Apply(s', CountNode(t)) else s', EndSection(t))
            == AfterMiss(s, t, r, time, alloc)
  {
    if Admitted(s, t, r, time) && alloc {
      AddEnds(s, t, r, garbage, time);
    } else {
      DropEnds(s, t, r, garbage, time, alloc);
    }
  }

  /** A thread's tables after its turn in a pass. */
  function Served(d: Dp): Dp
    requires DpShape(d)
  {
    if d.cnt[d.cur] == 0 then d else d.(maps := [[], []], cnt := d.cnt[d.cur := 0], cur := 1 - d.cur)
  }

  /** The state after a thread's turn. */
  function Turned(s: State, msgs: seq<seq<Node>>, buffer: seq<Node>): State
    requires Shape(s) && s.ctrl.At? && s.ctrl.thr < |s.dps|
  {
    SetDp(s, s.ctrl.thr, Served(s.dps[s.ctrl.thr]))
      .(ctrl := At(s.ctrl.thr + 1), sent := s.sent + msgs, buffer := buffer)
  }

  lemma TurnEnds(s: State, msgs: seq<seq<Node>>, buffer: seq<Node>)
    requires Quiet(s) && s.ctrl.At? && s.ctrl.thr < |s.dps|
    requires var d := s.dps[s.ctrl.thr]; d.cnt[d.cur] != 0 && d.maps[1 - d.cur] == []
    ensures Apply(Cut(Flipped(s), [], msgs, buffer), CtrlDrained) == Turned(s, msgs, buffer)
  {
    var d := s.dps[s.ctrl.thr];
    assert d.maps[d.cur := []] == [[], []];
  }

  /** The state after every thread has had its turn. */
  function AllTurned(s: State, ds: seq<Dp>, n: nat, msgs: seq<seq<Node>>, buffer: seq<Node>): State {
    s.(dps := ds, ctrl := At(n), sent := s.sent + msgs, buffer := buffer)
  }

  function Flushed(s: State): State {
    s.(ctrl := Idle, sent := s.sent + (if |s.buffer| > 0 then [s.buffer] else []), buffer := [])
  }

  lemma PassEnds(s: State, ds: seq<Dp>, msgs: seq<seq<Node>>, buffer: seq<Node>)
    requires s.ctrl.Idle?
    ensures Flushed(AllTurned(s.(ctrl := At(0)), ds, |ds|, msgs, buffer))
            == s.(dps := ds, sent := s.sent + (msgs + if |buffer| > 0 then [buffer] else []), buffer := [])
  {
    var last := if |buffer| > 0 then [buffer] else [];
    assert s.sent + (msgs + last) == s.sent + msgs + last;
  }

  lemma TurnedNext(s: State, ds: seq<Dp>, n: nat, msgs: seq<seq<Node>>, buffer: seq<Node>, more: seq<seq<Node>>, buffer': seq<Node>)
    requires n < |ds| && Shape(AllTurned(s, ds, n, msgs, buffer))
    ensures Turned(AllTurned(s, ds, n, msgs, buffer), more, buffer')
            == AllTurned(s, ds[n := Served(ds[n])], n + 1, msgs + more, buffer')
  {
    assert s.sent + (msgs + more) == s.sent + msgs + more;
  }

  lemma Balance(m: multiset<Node>, l: multiset<Node>, c: multiset<Node>, more: multiset<Node>, b: multiset<Node>, e: multiset<Node>)
    requires m + l == c && more + b == l + e
    ensures m + more + b == c + e
  {
    assert m + more + b == m + (more + b);
    assert m + (l + e) == m + l + e;
  }

  function Entries(d: Dp): multiset<Node>
    requires |d.maps| == 2
  {
    multiset(d.maps[0]) + multiset(d.maps[1])
  }

  lemma ContentsNext(ds: seq<Dp>, n: nat)
    requires n < |ds| && forall d <- ds :: |d.maps| == 2
    ensures Contents(ds[..n + 1]) == Contents(ds[..n]) + Entries(ds[n])
  {
    assert ds[..n + 1][..n] == ds[..n];
  }

  lemma MovedNext(ds: seq<Dp>, n: nat, msgs: seq<seq<Node>>, buffer: seq<Node>, more: seq<seq<Node>>, buffer': seq<Node>)
    requires n < |ds| && forall d <- ds :: |d.maps| == 2
    requires InMessages(msgs) + multiset(buffer) == Contents(ds[..n])
    requires InMessages(more) + multiset(buffer') == multiset(buffer) + Entries(ds[n])
    ensures InMessages(msgs + more) + multiset(buffer') == Contents(ds[..n + 1])
  {
    MessagesJoin(msgs, more);
    ContentsNext(ds, n);
    Balance(InMessages(msgs), multiset(buffer), Contents(ds[..n]), InMessages(more), multiset(buffer'), Entries(ds[n]));
  }

  /** The first threads have had their turn, the others have not. */
  predicate PartServed(was: seq<Dp>, ds: seq<Dp>, n: nat)
    requires forall d <- was :: DpShape(d)
  {
    && n <= |ds| == |was|
    && (forall t :: 0 <= t < n ==> ds[t] == Served(was[t]) && ds[t].maps == [[], []])
    && forall t :: n <= t < |ds| ==> ds[t] == was[t]
  }

  lemma PartNext(was: seq<Dp>, ds: seq<Dp>, n: nat)
    requires (forall d <- was :: DpShape(d)) && PartServed(was, ds, n) && n < |ds|
    requires DpShape(ds[n]) && Served(ds[n]).maps == [[], []]
    ensures PartServed(was, ds[n := Served(ds[n])], n + 1)
  {
  }

  lemma TurnedQuiet(s: State, msgs: seq<seq<Node>>, buffer: seq<Node>)
    requires Quiet(s) && s.ctrl.At? && s.ctrl.thr < |s.dps|
    ensures Quiet(Turned(s, msgs, buffer))
  {
  }

  predicate Serving(tr: Trace) {
    Quiet(tr.now) && tr.now.ctrl.At? && tr.now.ctrl.thr < |tr.now.dps|
  }

  lemma RecordedExclusive(tr: Trace)
    requires Recorded(tr)
    ensures Exclusive(tr.now)
  {
    RecordedKeepsAll(tr, Bytes, 0);
  }

  lemma TraceMaps(tr: Trace)
    requires Recorded(tr) && Serving(tr)
    ensures MapsTidy(tr.now.dps[tr.now.ctrl.thr])
  {
    RecordedExclusive(tr);
    QuietMaps(tr.now, tr.now.ctrl.thr);
  }

  lemma EntriesOf(d: Dp)
    requires DpShape(d) && d.maps[1 - d.cur] == []
    ensures Entries(d) == multiset(d.maps[d.cur])
  {
  }

  lemma SkipEnds(s: State)
    requires Shape(s) && s.ctrl.At? && s.ctrl.thr < |s.dps|
    requires s.dps[s.ctrl.thr].cnt[s.dps[s.ctrl.thr].cur] == 0
    ensures Apply(s, CtrlCheck) == Turned(s, [], s.buffer)
  {
    assert s.sent + [] == s.sent;
    assert s.dps[s.ctrl.thr := s.dps[s.ctrl.thr]] == s.dps;
  }

  lemma SkipKeeps(tr: Trace) returns (tr': Trace)
    requires Recorded(tr) && Serving(tr)
    requires var d := tr.now.dps[tr.now.ctrl.thr]; d.cnt[d.cur] == 0
    ensures Recorded(tr') && tr'.now == Turned(tr.now, [], tr.now.buffer)
  {
    ExtendKeeps(tr, CtrlCheck);
    SkipEnds(tr.now);
    tr' := Extend(tr, CtrlCheck);
  }

  lemma TurnKeeps(tr: Trace, drained: Trace, msgs: seq<seq<Node>>, buffer: seq<Node>) returns (tr': Trace)
    requires Recorded(tr) && Serving(tr)
    requires var d := tr.now.dps[tr.now.ctrl.thr]; d.cnt[d.cur] != 0 && d.maps[1 - d.cur] == []
    requires Recorded(drained) && drained.now == Cut(Flipped(tr.now), [], msgs, buffer)
    ensures Recorded(tr') && tr'.now == Turned(tr.now, msgs, buffer)
  {
    TurnEnds(tr.now, msgs, buffer);
    ExtendKeeps(drained, CtrlDrained);
    tr' := Extend(drained, CtrlDrained);
  }

  lemma RetireKeeps(tr: Trace) returns (tr': Trace)
    requires Recorded(tr) && Serving(tr)
    requires var d := tr.now.dps[tr.now.ctrl.thr]; d.cnt[d.cur] != 0
    ensures Recorded(tr') && tr'.now == Flipped(tr.now)
  {
    ExtendKeeps(tr, CtrlCheck);
    ExtendKeeps(Extend(tr, CtrlCheck), CtrlFlip);
    ExtendKeeps(Extend(Extend(tr, CtrlCheck), CtrlFlip), CtrlGrace);
    FlipSteps(tr.now);
    tr' := Extend(Extend(Extend(tr, CtrlCheck), CtrlFlip), CtrlGrace);
  }

  /** One thread's turn: nothing if its count is zero, else switch, wait and drain. */
  method Serve(d: Dp, buffer: seq<Node>, ghost tr: Trace)
    returns (d': Dp, msgs: seq<seq<Node>>, buffer': seq<Node>, ghost tr': Trace)
    requires Recorded(tr) && Serving(tr)
    requires tr.now.dps[tr.now.ctrl.thr] == d && tr.now.buffer == buffer && |buffer| < CONNECTS_PER_MSG
    ensures Recorded(tr') && tr'.now == Turned(tr.now, msgs, buffer') && d' == Served(d) && d'.maps == [[], []]
    ensures AllFull(msgs) && |buffer'| < CONNECTS_PER_MSG
    ensures InMessages(msgs) + multiset(buffer') == multiset(buffer) + Entries(d)
  {
    TraceMaps(tr);
    EntriesOf(d);
    if d.cnt[d.cur] == 0 {
      ghost var skipped := SkipKeeps(tr);
      return d, [], buffer, skipped;
    }
    ghost var retired := RetireKeeps(tr);
    msgs, buffer', tr' := DrainMap(d.maps[d.cur], buffer, retired);
    tr' := TurnKeeps(tr, tr', msgs, buffer');
    d' := Dp([[], []], d.cnt[d.cur := 0], 1 - d.cur, d.pc, d.rl);
  }

  method ServeAll(threads: seq<Dp>, ghost tr: Trace)
    returns (threads': seq<Dp>, msgs: seq<seq<Node>>, buffer: seq<Node>, ghost tr': Trace)
    requires Recorded(tr) && Quiet(tr.now) && tr.now.ctrl == At(0) && tr.now.buffer == [] && tr.now.dps == threads
    ensures Recorded(tr') && tr'.now == AllTurned(tr.now, threads', |threads|, msgs, buffer) && Quiet(tr'.now)
    ensures PartServed(threads, threads', |threads|)
    ensures AllFull(msgs) && |buffer| < CONNECTS_PER_MSG && InMessages(msgs) + multiset(buffer) == Contents(threads)
  {
    threads', msgs, buffer, tr' := threads, [], [], tr;
    assert tr.now.sent + [] == tr.now.sent;
    for thr := 0 to |threads|
      invariant Recorded(tr') && Quiet(tr'.now) && PartServed(threads, threads', thr)
      invariant tr'.now == AllTurned(tr.now, threads', thr, msgs, buffer)
      invariant AllFull(msgs) && |buffer| < CONNECTS_PER_MSG
      invariant InMessages(msgs) + multiset(buffer) == Contents(threads[..thr])
    {
      var d, more;
      ghost var before, left := tr'.now, buffer;
      d, more, buffer, tr' := Serve(threads'[thr], buffer, tr');
      TurnedNext(tr.now, threads', thr, msgs, left, more, buffer);
      TurnedQuiet(before, more, buffer);
      PartNext(threads, threads', thr);
      MovedNext(threads, thr, msgs, left, more, buffer);
      threads', msgs := threads'[thr := d], msgs + more;
    }
    assert threads[..|threads|] == threads;
  }

  lemma IdleBuffer(tr: Trace)
    requires Recorded(tr) && tr.now.ctrl.Idle?
    ensures tr.now.buffer == []
  {
    RecordedKeepsAll(tr, Bytes, 0);
  }

  lemma StartEnds(s: State)
    requires Shape(s) && s.ctrl.Idle?
    ensures Apply(s, CtrlStart) == s.(ctrl := At(0))
  {
  }

  lemma StartKeeps(tr: Trace) returns (tr': Trace)
    requires Recorded(tr) && tr.now.ctrl.Idle?
    ensures Recorded(tr') && tr'.now == tr.now.(ctrl := At(0))
  {
    ExtendKeeps(tr, CtrlStart);
    StartEnds(tr.now);
    tr' := Extend(tr, CtrlStart);
  }

  lemma FlushedQuiet(s: State)
    requires Quiet(s)
    ensures Quiet(Flushed(s))
  {
  }

  lemma FlushEnds(s: State)
    requires Shape(s) && s.ctrl == At(|s.dps|)
    ensures Apply(s, CtrlFlush) == Flushed(s)
  {
  }

  lemma FlushKeeps(tr: Trace) returns (tr': Trace)
    requires Recorded(tr) && tr.now.ctrl == At(|tr.now.dps|)
    ensures Recorded(tr') && tr'.now == Flushed(tr.now)
  {
    ExtendKeeps(tr, CtrlFlush);
    FlushEnds(tr.now);
    tr' := Extend(tr, CtrlFlush);
  }

  lemma FlushFull(msgs: seq<seq<Node>>, last: seq<Node>)
    requires AllFull(msgs) && 0 < |last| < CONNECTS_PER_MSG
    ensures FullButLast(msgs + [last]) && InMessages(msgs + [last]) == InMessages(msgs) + multiset(last)
  {
    MessagesAppend(msgs, last);
    assert (msgs + [last])[..|msgs|] == msgs;
  }

  /** Send what is left, if anything. */
  method WithLast(msgs: seq<seq<Node>>, buffer: seq<Node>) returns (msgs': seq<seq<Node>>)
    requires AllFull(msgs) && |buffer| < CONNECTS_PER_MSG
    ensures msgs' == msgs + if |buffer| > 0 then [buffer] else []
    ensures FullButLast(msgs') && InMessages(msgs') == InMessages(msgs) + multiset(buffer)
  {
    if |buffer| > 0 {
      FlushFull(msgs, buffer);
      return msgs + [buffer];
    }
    return msgs;
  }

  lemma {:induction false} EmptyContents(ds: seq<Dp>)
    requires forall d <- ds :: d.maps == [[], []]
    ensures Contents(ds) == multiset{}
  {
    if ds != [] { EmptyContents(ds[..|ds| - 1]); }
  }

  /** The whole pass. */
  method Update(threads: seq<Dp>, ghost tr: Trace) returns (threads': seq<Dp>, msgs: seq<seq<Node>>, ghost tr': Trace)
    requires Recorded(tr) && Quiet(tr.now) && tr.now.ctrl.Idle? && tr.now.dps == threads
    ensures Recorded(tr') && Quiet(tr'.now) && tr'.now == tr.now.(dps := threads', sent := tr.now.sent + msgs, buffer := [])
    ensures PartServed(threads, threads', |threads|) && Contents(threads') == multiset{}
    ensures FullButLast(msgs) && InMessages(msgs) == Contents(threads)
  {
    IdleBuffer(tr);
    tr' := StartKeeps(tr);
    var buffer;
    threads', msgs, buffer, tr' := ServeAll(threads, tr');
    FlushedQuiet(tr'.now);
    PassEnds(tr.now, threads', msgs, buffer);
    tr' := FlushKeeps(tr');
    msgs := WithLast(msgs, buffer);
    EmptyContents(threads');
  }

  /** What was accepted has been sent: up to whole turns of a counter, and exactly if and only if no
      report took the counter of its entry past its width. */
  ghost predicate SentExactly(tr: Trace, f: Field)
    requires |tr.past| == |tr.steps| && Shape(StateAt(tr, 0))
  {
    var total, sent := Of(tr.now.accepted, f), SentWeight(tr.now.sent, Counter(f));
    Accounts(total, sent, Width(f)) && (total == sent <==> NeverOverflows(StateAt(tr, 0), tr.steps, f))
  }

  lemma SentIsAll(s: State, f: Field)
    requires Shape(s) && s.buffer == [] && forall d <- s.dps :: d.maps == [[], []]
    ensures StateWeight(s, Counter(f)) == SentWeight(s.sent, Counter(f))
  {
    EmptyWeight(s.dps, Counter(f));
  }

  lemma RecordedConserves(tr: Trace, f: Field)
    requires Recorded(tr)
    ensures var total, found := Of(tr.now.accepted, f), StateWeight(tr.now, Counter(f));
            Accounts(total, found, Width(f)) && (total == found <==> NeverOverflows(StateAt(tr, 0), tr.steps, f))
  {
    RecordedIsRun(tr);
    EveryRunConserves(StateAt(tr, 0), tr.steps, f);
  }

  lemma AllSentOf(tr: Trace, f: Field)
    requires Recorded(tr) && tr.now.buffer == [] && forall d <- tr.now.dps :: d.maps == [[], []]
    ensures SentExactly(tr, f)
  {
    RecordedConserves(tr, f);
    SentIsAll(tr.now, f);
  }

  lemma AllSent(tr: Trace)
    requires Recorded(tr) && tr.now.buffer == [] && forall d <- tr.now.dps :: d.maps == [[], []]
    ensures forall f :: SentExactly(tr, f)
  {
    forall f
      ensures SentExactly(tr, f)
    {
      AllSentOf(tr, f);
    }
  }

  /** All threads' tables and the notification buffer. The ghost trace is the run of the
      step machine that the calls so far amount to. */
  class Tables {
    var threads: seq<Dp>
    var notifyMsg: seq<Node>
    var sent: seq<seq<Node>>
    var nextId: nat
    ghost var trace: Trace

    ghost predicate Tracked()
      reads this
    {
      && Recorded(trace)
      && trace.now.dps == threads && trace.now.buffer == notifyMsg && trace.now.sent == sent && trace.now.nextId == nextId
    }

    ghost predicate Valid()
      reads this
    {
      Tracked() && Quiet(trace.now) && trace.now.ctrl.Idle?
    }

    ghost method Take(step: Step)
      requires Recorded(trace)
      modifies this`trace
      ensures Recorded(trace) && trace == Extend(old(trace), step)
    {
      ExtendKeeps(trace, step);
      trace := Extend(trace, step);
    }

    constructor (limiters: seq<RL.Limiter>)
      requires forall rl <- limiters :: RL.Valid(rl)
      ensures Valid() && Init(trace.now) && |threads| == |limiters|
    {
      var ds := seq(|limiters|, i requires 0 <= i < |limiters| => Dp([[], []], [0, 0], 0, Outside, limiters[i]));
      threads, notifyMsg, sent, nextId := ds, [], [], 0;
      trace := Trace([], [], State(ds, Idle, [], [], ZERO, [], 0));
    }

    /** A known connection: add to its counters. */
    method UpdateEntry(t: nat, r: Report, garbage: nat, pick: nat)
      requires Valid() && t < |threads| && Found(threads[t], r.key, garbage, pick)
      modifies this`threads, this`trace
      ensures Valid() && trace.now == AfterHit(old(trace.now), t, r, pick)
    {
      EnterSteps(trace.now, t);
      HitEnds(trace.now, t, r, garbage, pick);
      AfterHitQuiet(trace.now, t, r, pick);
      Take(BeginSection(t));
      Take(LoadCur(t));
      Take(Hit(t, r, garbage, pick));
      Take(EndSection(t));
      var d := threads[t];
      var m := d.maps[d.cur];
      var n := m[pick].(amounts := WrapPlus(m[pick].amounts, r.amounts, WIDTH));
      threads := threads[t := SetMap(d, d.cur, m[pick := n])];
    }

    ghost method TakeMiss(t: nat, r: Report, garbage: nat, time: nat, alloc: bool)
      requires Recorded(trace) && Quiet(trace.now) && trace.now.ctrl.Idle? && t < |trace.now.dps|
      requires Absent(trace.now.dps[t], r.key, garbage)
      modifies this`trace
      ensures Recorded(trace) && trace.now == AfterMiss(old(trace.now), t, r, time, alloc)
    {
      EnterSteps(trace.now, t);
      MissEnds(trace.now, t, r, garbage, time, alloc);
      var added := Admitted(trace.now, t, r, time) && alloc;
      Take(BeginSection(t));
      Take(LoadCur(t));
      Take(Miss(t, r, garbage, time, alloc));
      if added { Take(CountNode(t)); }
      Take(EndSection(t));
    }

    method AddEntry(t: nat, r: Report, garbage: nat, time: nat, alloc: bool) returns (added: bool)
      requires Valid() && t < |threads| && Absent(threads[t], r.key, garbage)
      modifies this`threads, this`nextId, this`trace
      ensures Valid() && trace.now == AfterMiss(old(trace.now), t, r, time, alloc)
      ensures added == (Admitted(old(trace.now), t, r, time) && alloc)
    {
      TakeMiss(t, r, garbage, time, alloc);
      AfterMissQuiet(old(trace.now), t, r, time, alloc);
      var d;
      d, added := NewEntry(threads[t], nextId, r, time, alloc);
      threads := threads[t := d];
      nextId := nextId + if added then 1 else 0;
    }

    /** Counted in if its connection is known, else if admitted and there is memory. */
    method ConnectReport(t: nat, r: Report, garbage: nat, time: nat, alloc: bool) returns (taken: bool)
      requires Valid() && t < |threads|
      modifies this`threads, this`nextId, this`trace
      ensures Valid()
      ensures |threads| == old(|threads|) && forall u :: 0 <= u < |threads| && u != t ==> threads[u] == old(threads[u])
      ensures taken <==> !Absent(old(threads[t]), r.key, garbage) || (alloc && Admitted(old(trace.now), t, r, time))
      ensures trace.now.accepted == if taken then Plus(old(trace.now.accepted), r.amounts) else old(trace.now.accepted)
      ensures trace.now.dropped == old(trace.now.dropped) + if taken then [] else [(r, Admitted(old(trace.now), t, r, time))]
    {
      var m := threads[t].maps[threads[t].cur];
      var pick := Lookup(m, r.key, garbage);
      if pick < |m| {
        UpdateEntry(t, r, garbage, pick);
        return true;
      }
      taken := AddEntry(t, r, garbage, time, alloc);
    }

    /** One pass over all threads: everything reported so far is on its way afterwards, in
        messages of which only the last may be less than full. */
    method UpdateConnects() returns (msgs: seq<seq<Node>>)
      requires Valid()
      modifies this`threads, this`notifyMsg, this`sent, this`trace
      ensures Valid() && sent == old(sent) + msgs && FullButLast(msgs)
      ensures |threads| == old(|threads|) && forall t :: 0 <= t < |threads| ==> threads[t] == Served(old(threads[t]))
      ensures InMessages(msgs) == old(Contents(threads)) && Contents(threads) == multiset{}
      ensures trace.now.accepted == old(trace.now.accepted)
      ensures forall f :: SentExactly(trace, f)
    {
      threads, msgs, trace := Update(threads, trace);
      sent, notifyMsg := sent + msgs, [];
      AllSent(trace);
    }
  }

  // ---- a counter that wraps

  lemma RunAppend(s: State, steps: seq<Step>, step: Step)
    requires Shape(s)
    ensures Run(s, steps + [step]) == Apply(Run(s, steps), step)
  {
    assert (steps + [step])[..|steps|] == steps;
  }

  lemma EnterRun(s: State, steps: seq<Step>, t: nat)
    requires Shape(s) && t < |Run(s, steps).dps| && Run(s, steps).dps[t].pc.Outside?
    ensures Run(s, steps + [BeginSection(t)] + [LoadCur(t)]) == Entered(Run(s, steps), t)
  {
    RunAppend(s, steps, BeginSection(t));
    RunAppend(s, steps + [BeginSection(t)], LoadCur(t));
    EnterSteps(Run(s, steps), t);
  }

  /** A report of a new connection. */
  function NewSteps(t: nat, r: Report): seq<Step> {
    [] + [BeginSection(t)] + [LoadCur(t)] + [Miss(t, r, r.application, 0, true)] + [CountNode(t)] + [EndSection(t)]
  }

  /** The same report once more, when the connection is known. */
  function AgainSteps(t: nat, r: Report): seq<Step> {
    NewSteps(t, r) + [BeginSection(t)] + [LoadCur(t)] + [Hit(t, r, r.application, 0)]
  }

  lemma NewRun(init: State, t: nat, r: Report)
    requires Init(init) && t < |init.dps| && HighPriority(r)
    ensures Quiet(init) && Run(init, NewSteps(t, r)) == AfterMiss(init, t, r, 0, true)
  {
    var enter := [] + [BeginSection(t)] + [LoadCur(t)];
    var miss := Miss(t, r, r.application, 0, true);
    EnterRun(init, [], t);
    RunAppend(init, enter, miss);
    RunAppend(init, enter + [miss], CountNode(t));
    RunAppend(init, enter + [miss] + [CountNode(t)], EndSection(t));
    MissEnds(init, t, r, r.application, 0, true);
  }

  lemma NewHolds(init: State, t: nat, r: Report)
    requires Init(init) && t < |init.dps| && HighPriority(r)
    ensures var s := AfterMiss(init, t, r, 0, true);
            && t < |s.dps| && s.dps[t].pc.Outside? && s.dps[t].cur == 0
            && s.dps[t].maps[0] == [NewNode(init, r)]
  {
  }

  lemma NodeShows(s: State, r: Report, f: Field)
    requires Of(r.amounts, f) < Width(f)
    ensures Of(NewNode(s, r).amounts, f) == Of(r.amounts, f)
  {
    assert Of(ZERO, f) == 0;
  }

  lemma AgainOverflows(s: State, t: nat, r: Report, n: Node, f: Field)
    requires Shape(s) && t < |s.dps| && s.dps[t].pc == Holding(0) && s.dps[t].maps[0] == [n]
    requires Matches(n, r.key, r.application) && Of(n.amounts, f) + Of(r.amounts, f) >= Width(f)
    ensures Overflows(s, Hit(t, r, r.application, 0), f)
  {
  }

  lemma OverflowLoses(init: State, before: seq<Step>, step: Step, f: Field)
    requires Init(init) && Overflows(Run(init, before), step, f)
    ensures var s := Run(init, before + [step]); Of(s.accepted, f) > StateWeight(s, Counter(f))
  {
    assert (before + [step])[..|before|] == before;
    EveryRunConserves(init, before + [step], f);
  }

  /** In every initial state: a connection that takes in half of a counter's width or more, twice
      between two passes, is not reported in full. */
  lemma CounterWraps(init: State, t: nat, r: Report, f: Field)
    requires Init(init) && t < |init.dps| && HighPriority(r) && Of(r.amounts, f) < Width(f) <= 2 * Of(r.amounts, f)
    ensures var s := Run(init, AgainSteps(t, r)); Of(s.accepted, f) > StateWeight(s, Counter(f))
  {
    NewRun(init, t, r);
    NewHolds(init, t, r);
    EnterRun(init, NewSteps(t, r), t);
    NodeShows(init, r, f);
    var before := NewSteps(t, r) + [BeginSection(t)] + [LoadCur(t)];
    AgainOverflows(Run(init, before), t, r, NewNode(init, r), f);
    OverflowLoses(init, before, Hit(t, r, r.application, 0), f);
  }
}
