/** The agent's connection aggregation and reporting (agent/timer.go).

    Connections are merged or inserted into a capped map, drained in batches that
    are sent to the controller, and put back when the controller asks for a resend
    or the call fails. Several batches can be in flight, because each tick of the
    timer starts its own goroutine. */
module ConnectionReport {
  import opened Counters
  import opened MapSums

  /** The printed tuple that identifies a connection. */
  datatype Key = Key(text: string)

  const CONNECTION_MAP_MAX: nat := 2048 * 16
  const CONNECTION_LIST_MAX: nat := 2048 * 4

  const ACTION_LEARN: nat := 1
  const ACTION_CHECK_APP: nat := 5
  const ACTION_VIOLATE: nat := 6
  const ACTION_DENY: nat := 7

  /** Bytes is a 64-bit counter, the other two are 32 bits wide. */
  const WIDTH := Amounts(0x1_0000_0000_0000_0000, 0x1_0000_0000, 0x1_0000_0000)

  /** `mesh` says the network is the service-mesh proxy's. */
  datatype Conn = Conn(action: nat, policyId: nat, lastSeen: nat, severity: nat, threatId: nat, mesh: bool, amounts: Amounts)

  datatype Entry = Entry(key: Key, conn: Conn)

  // ---- merging and inserting

  function MergeHost(entry: Conn, conn: Conn): Conn {
    var e := entry.(amounts := WrapPlus(entry.amounts, conn.amounts, WIDTH));
    if e.lastSeen <= conn.lastSeen
    then e.(lastSeen := conn.lastSeen, action := conn.action, policyId := conn.policyId)
    else e
  }

  function Merge(entry: Conn, conn: Conn): Conn {
    var e := MergeHost(entry, conn);
    if e.severity < conn.severity then e.(severity := conn.severity, threatId := conn.threatId) else e
  }

  function MergeAll(entry: Conn, reports: seq<Conn>): Conn {
    if reports == [] then entry else Merge(MergeAll(entry, reports[..|reports| - 1]), reports[|reports| - 1])
  }

  /** The last of the reports seen latest. */
  predicate IsLatest(cs: seq<Conn>, i: nat) {
    && i < |cs|
    && (forall j :: 0 <= j <= i ==> cs[j].lastSeen <= cs[i].lastSeen)
    && forall j :: i < j < |cs| ==> cs[j].lastSeen < cs[i].lastSeen
  }

  /** The first of the most severe reports. */
  predicate IsWorst(cs: seq<Conn>, i: nat) {
    && i < |cs|
    && (forall j :: 0 <= j < i ==> cs[j].severity < cs[i].severity)
    && forall j :: i <= j < |cs| ==> cs[j].severity <= cs[i].severity
  }

  /** However many reports go into an entry, it shows the policy decision of the latest one and
      the threat of the first most severe one. */
  lemma {:induction false} MergedShowsLatestAndWorst(entry: Conn, reports: seq<Conn>) returns (latest: nat, worst: nat)
    ensures var cs, m := [entry] + reports, MergeAll(entry, reports);
            && IsLatest(cs, latest) && IsWorst(cs, worst)
            && m.lastSeen == cs[latest].lastSeen && m.action == cs[latest].action && m.policyId == cs[latest].policyId
            && m.severity == cs[worst].severity && m.threatId == cs[worst].threatId
  {
    latest, worst := 0, 0;
    if reports != [] {
      var init, n := reports[..|reports| - 1], |reports|;
      latest, worst := MergedShowsLatestAndWorst(entry, init);
      var cs := [entry] + reports;
      assert forall j :: 0 <= j < n ==> cs[j] == ([entry] + init)[j];
      assert cs[n] == reports[n - 1];
      if cs[latest].lastSeen <= cs[n].lastSeen { latest := n; }
      if cs[worst].severity < cs[n].severity { worst := n; }
    }
  }

  predicate AdmittedWhenFull(conn: Conn) {
    conn.action > ACTION_CHECK_APP || conn.action == ACTION_LEARN
  }

  predicate ResentFirst(conn: Conn) {
    conn.action == ACTION_LEARN || conn.action == ACTION_VIOLATE || conn.action == ACTION_DENY
  }

  datatype Outcome = Merged | Inserted(overwritten: seq<Conn>) | Dropped

  function At(m: map<Key, Conn>, k: Key): seq<Conn> {
    if k in m then [m[k]] else []
  }

  /** `meshMac`: the report came from the mesh loopback; `scopeMesh`: the address lookup said mesh. */
  function UpdateOutcome(m: map<Key, Conn>, k: Key, conn: Conn, meshMac: bool): Outcome {
    if k in m && m[k].mesh == meshMac then Merged
    else if |m| < CONNECTION_MAP_MAX || AdmittedWhenFull(conn) then Inserted(At(m, k))
    else Dropped
  }

  function Update(m: map<Key, Conn>, k: Key, conn: Conn, meshMac: bool, scopeMesh: bool): map<Key, Conn> {
    match UpdateOutcome(m, k, conn, meshMac)
    case Merged => m[k := Merge(m[k], conn)]
    case Inserted(_) => m[k := conn.(mesh := meshMac || scopeMesh)]
    case Dropped => m
  }

  function HostOutcome(m: map<Key, Conn>, k: Key): Outcome {
    if k in m then Merged
    else if |m| < CONNECTION_MAP_MAX then Inserted([])
    else Dropped
  }

  function HostUpdate(m: map<Key, Conn>, k: Key, conn: Conn): map<Key, Conn> {
    match HostOutcome(m, k)
    case Merged => m[k := MergeHost(m[k], conn)]
    case Inserted(_) => m[k := conn]
    case Dropped => m
  }

  function HostUpdateAll(m: map<Key, Conn>, list: seq<Entry>): map<Key, Conn> {
    if list == [] then m
    else HostUpdate(HostUpdateAll(m, list[..|list| - 1]), list[|list| - 1].key, list[|list| - 1].conn)
  }

  // ---- draining and resending

  function Keys(list: seq<Entry>): set<Key> { set e <- list :: e.key }

  predicate DistinctKeys(list: seq<Entry>) {
    forall i, j :: 0 <= i < j < |list| ==> list[i].key != list[j].key
  }

  /** What one pass over the map in some order may take out. */
  predicate IsDrain(m: map<Key, Conn>, list: seq<Entry>) {
    && DistinctKeys(list)
    && (forall e <- list :: e.key in m && m[e.key] == e.conn)
    && |list| == if |m| < CONNECTION_LIST_MAX then |m| else CONNECTION_LIST_MAX
  }

  function PutAll(m: map<Key, Conn>, list: seq<Entry>): map<Key, Conn> {
    if list == [] then m else PutAll(m, list[..|list| - 1])[list[|list| - 1].key := list[|list| - 1].conn]
  }

  function Overwritten(m: map<Key, Conn>, list: seq<Entry>): seq<Conn> {
    if list == [] then []
    else
      var init, last := list[..|list| - 1], list[|list| - 1];
      Overwritten(m, init) + At(PutAll(m, init), last.key)
  }

  function High(list: seq<Entry>): seq<Entry> {
    if list == [] then []
    else if ResentFirst(list[|list| - 1].conn) then High(list[..|list| - 1]) + [list[|list| - 1]]
    else High(list[..|list| - 1])
  }

  function Low(list: seq<Entry>): seq<Entry> {
    if list == [] then []
    else if ResentFirst(list[|list| - 1].conn) then Low(list[..|list| - 1])
    else Low(list[..|list| - 1]) + [list[|list| - 1]]
  }

  function Room(m: map<Key, Conn>, list: seq<Entry>): nat {
    var m1 := PutAll(m, High(list));
    if |m1| < CONNECTION_MAP_MAX then
      var room := CONNECTION_MAP_MAX - |m1|;
      if room < |Low(list)| then room else |Low(list)|
    else 0
  }

  /** The entries a resend puts back, in the order it puts them. */
  function Kept(m: map<Key, Conn>, list: seq<Entry>): seq<Entry> {
    if |m| + |list| <= CONNECTION_MAP_MAX then list
    else High(list) + Low(list)[..Room(m, list)]
  }

  function Lost(m: map<Key, Conn>, list: seq<Entry>): seq<Entry> {
    if |m| + |list| <= CONNECTION_MAP_MAX then []
    else Low(list)[Room(m, list)..]
  }

  function Resend(m: map<Key, Conn>, list: seq<Entry>): map<Key, Conn> {
    PutAll(m, Kept(m, list))
  }

  // ---- runs

  datatype State = State(
    conns: map<Key, Conn>, inflight: seq<seq<Entry>>,
    reported: Amounts, acked: seq<Entry>, dropped: seq<Conn>, displaced: seq<Conn>)

  datatype Step =
    | Container(key: Key, conn: Conn, meshMac: bool, scopeMesh: bool)
    | Host(key: Key, conn: Conn)
    | Drain(list: seq<Entry>)
    | Ack(i: nat)
    | Resent(i: nat)

  predicate Enabled(s: State, step: Step) {
    match step
    case Container(_, _, _, _) => true
    case Host(_, _) => true
    case Drain(list) => IsDrain(s.conns, list) && list != []
    case Ack(i) => i < |s.inflight|
    case Resent(i) => i < |s.inflight|
  }

  function Settle(s: State, o: Outcome, conn: Conn): State {
    var s1 := s.(reported := Plus(s.reported, conn.amounts));
    match o
    case Merged => s1
    case Inserted(overwritten) => s1.(displaced := s.displaced + overwritten)
    case Dropped => s1.(dropped := s.dropped + [conn])
  }

  function Conns(list: seq<Entry>): seq<Conn> { seq(|list|, i requires 0 <= i < |list| => list[i].conn) }

  function Apply(s: State, step: Step): State {
    if !Enabled(s, step) then s else
    match step
    case Container(k, conn, meshMac, scopeMesh) =>
      Settle(s, UpdateOutcome(s.conns, k, conn, meshMac), conn).(conns := Update(s.conns, k, conn, meshMac, scopeMesh))
    case Host(k, conn) =>
      Settle(s, HostOutcome(s.conns, k), conn).(conns := HostUpdate(s.conns, k, conn))
    case Drain(list) => s.(conns := s.conns - Keys(list), inflight := s.inflight + [list])
    case Ack(i) =>
      s.(inflight := s.inflight[..i] + s.inflight[i + 1..], acked := s.acked + s.inflight[i])
    case Resent(i) =>
      var list := s.inflight[i];
      s.(conns := Resend(s.conns, list),
         inflight := s.inflight[..i] + s.inflight[i + 1..],
         dropped := s.dropped + Conns(Lost(s.conns, list)),
         displaced := s.displaced + Overwritten(s.conns, Kept(s.conns, list)))
  }

  function Run(s: State, steps: seq<Step>): State {
    if steps == [] then s else Apply(Run(s, steps[..|steps| - 1]), steps[|steps| - 1])
  }

  const INIT := State(map[], [], ZERO, [], [], [])

  // ---- exact accounting

  function Counter(f: Field): Conn -> nat { (c: Conn) => Of(c.amounts, f) }

  function Weight(cs: seq<Conn>, w: Conn -> nat): nat {
    if cs == [] then 0 else Weight(cs[..|cs| - 1], w) + w(cs[|cs| - 1])
  }

  function EntriesWeight(list: seq<Entry>, w: Conn -> nat): nat {
    if list == [] then 0 else EntriesWeight(list[..|list| - 1], w) + w(list[|list| - 1].conn)
  }

  function FlightWeight(batches: seq<seq<Entry>>, w: Conn -> nat): nat {
    if batches == [] then 0
    else FlightWeight(batches[..|batches| - 1], w) + EntriesWeight(batches[|batches| - 1], w)
  }

  ghost function StateWeight(s: State, w: Conn -> nat): nat {
    Sum(s.conns, w) + FlightWeight(s.inflight, w) + EntriesWeight(s.acked, w)
    + Weight(s.dropped, w) + Weight(s.displaced, w)
  }

  lemma MapPut(m: map<Key, Conn>, k: Key, conn: Conn, w: Conn -> nat)
    ensures Sum(m[k := conn], w) + Weight(At(m, k), w) == Sum(m, w) + w(conn)
  {
    SumPut(m, k, conn, w);
    if k in m { assert Weight([m[k]], w) == w(m[k]); }
  }

  lemma {:induction false} WeightSplit(a: seq<Conn>, b: seq<Conn>, w: Conn -> nat)
    ensures Weight(a + b, w) == Weight(a, w) + Weight(b, w)
  {
    if b == [] {
      assert a + b == a;
    } else {
      assert (a + b)[..|a + b| - 1] == a + b[..|b| - 1];
      WeightSplit(a, b[..|b| - 1], w);
    }
  }

  lemma {:induction false} EntriesSplit(a: seq<Entry>, b: seq<Entry>, w: Conn -> nat)
    ensures EntriesWeight(a + b, w) == EntriesWeight(a, w) + EntriesWeight(b, w)
  {
    if b == [] {
      assert a + b == a;
    } else {
      assert (a + b)[..|a + b| - 1] == a + b[..|b| - 1];
      EntriesSplit(a, b[..|b| - 1], w);
    }
  }

  lemma {:induction false} ConnsWeight(list: seq<Entry>, w: Conn -> nat)
    ensures Weight(Conns(list), w) == EntriesWeight(list, w)
  {
    if list != [] {
      assert Conns(list)[..|list| - 1] == Conns(list[..|list| - 1]);
      ConnsWeight(list[..|list| - 1], w);
    }
  }

  lemma {:induction false} FlightRemove(batches: seq<seq<Entry>>, i: nat, w: Conn -> nat)
    requires i < |batches|
    ensures FlightWeight(batches[..i] + batches[i + 1..], w) + EntriesWeight(batches[i], w) == FlightWeight(batches, w)
  {
    var last := |batches| - 1;
    if i == last {
      assert batches[..i] + batches[i + 1..] == batches[..last];
    } else {
      var init := batches[..last];
      FlightRemove(init, i, w);
      assert (batches[..i] + batches[i + 1..])[..last - 1] == init[..i] + init[i + 1..];
    }
  }

  lemma {:induction false} PutAllWeight(m: map<Key, Conn>, list: seq<Entry>, w: Conn -> nat)
    ensures Sum(PutAll(m, list), w) + Weight(Overwritten(m, list), w) == Sum(m, w) + EntriesWeight(list, w)
  {
    if list != [] {
      var init, last := list[..|list| - 1], list[|list| - 1];
      PutAllWeight(m, init, w);
      MapPut(PutAll(m, init), last.key, last.conn, w);
      WeightSplit(Overwritten(m, init), At(PutAll(m, init), last.key), w);
    }
  }

  lemma KeysLast(m: map<Key, Conn>, list: seq<Entry>)
    requires list != [] && DistinctKeys(list) && list[|list| - 1].key in m
    ensures var init, k := list[..|list| - 1], list[|list| - 1].key;
            && DistinctKeys(init) && k in m - Keys(init)
            && m - Keys(list) == m - Keys(init) - {k}
  {
    var init, last := list[..|list| - 1], list[|list| - 1];
    assert list == init + [last];
    assert Keys(list) == Keys(init) + {last.key};
    assert last.key !in Keys(init);
  }

  lemma {:induction false} DrainWeight(m: map<Key, Conn>, list: seq<Entry>, w: Conn -> nat)
    requires DistinctKeys(list) && forall e <- list :: e.key in m && m[e.key] == e.conn
    ensures Sum(m - Keys(list), w) + EntriesWeight(list, w) == Sum(m, w)
  {
    if list == [] {
      assert m - Keys(list) == m;
    } else {
      var init, last := list[..|list| - 1], list[|list| - 1];
      KeysLast(m, list);
      DrainWeight(m, init, w);
      SumRemove(m - Keys(init), last.key, w);
    }
  }

  lemma RemoveSize(m: map<Key, Conn>, k: Key)
    requires k in m
    ensures |m - {k}| + 1 == |m|
  {
    assert m.Keys == (m - {k}).Keys + {k};
  }

  lemma PutSize(m: map<Key, Conn>, k: Key, conn: Conn)
    ensures |m[k := conn]| == |m| + if k in m then 0 else 1
  {
    assert m[k := conn].Keys == m.Keys + {k};
  }

  lemma {:induction false} DrainSize(m: map<Key, Conn>, list: seq<Entry>)
    requires DistinctKeys(list) && forall e <- list :: e.key in m
    ensures |m - Keys(list)| + |list| == |m|
  {
    if list == [] {
      assert m - Keys(list) == m;
    } else {
      var init, k := list[..|list| - 1], list[|list| - 1].key;
      KeysLast(m, list);
      DrainSize(m, init);
      RemoveSize(m - Keys(init), k);
    }
  }

  lemma {:induction false} HighLowSplit(list: seq<Entry>, w: Conn -> nat)
    ensures EntriesWeight(High(list), w) + EntriesWeight(Low(list), w) == EntriesWeight(list, w)
    ensures |High(list)| + |Low(list)| == |list|
  {
    if list != [] {
      var init, last := list[..|list| - 1], list[|list| - 1];
      HighLowSplit(init, w);
      EntriesSplit(High(init), [last], w);
      EntriesSplit(Low(init), [last], w);
    }
  }

  lemma KeptAndLost(m: map<Key, Conn>, list: seq<Entry>, w: Conn -> nat)
    ensures EntriesWeight(Kept(m, list), w) + EntriesWeight(Lost(m, list), w) == EntriesWeight(list, w)
  {
    if |m| + |list| > CONNECTION_MAP_MAX {
      var low, room := Low(list), Room(m, list);
      HighLowSplit(list, w);
      EntriesSplit(High(list), low[..room], w);
      EntriesSplit(low[..room], low[room..], w);
      assert low[..room] + low[room..] == low;
    }
  }

  ghost predicate Ledger(s: State, f: Field) {
    Accounts(Of(s.reported, f), StateWeight(s, Counter(f)), Of(WIDTH, f))
  }

  /** A report merged into an entry that the map holds. */
  lemma MergeKeepsLedger(s: State, s': State, k: Key, merged: Conn, x: Amounts, f: Field)
    requires Ledger(s, f) && k in s.conns
    requires merged.amounts == WrapPlus(s.conns[k].amounts, x, WIDTH)
    requires s' == s.(reported := Plus(s.reported, x), conns := s.conns[k := merged])
    ensures Ledger(s', f)
  {
    var w := Counter(f);
    MapPut(s.conns, k, merged, w);
    SumRemove(s.conns, k, w);
    assert Weight(At(s.conns, k), w) == w(s.conns[k]);
    AccountsAdd(Of(s.reported, f), StateWeight(s, w) - w(s.conns[k]), w(s.conns[k]), Of(x, f), Of(WIDTH, f));
  }

  lemma InsertKeepsLedger(s: State, s': State, k: Key, conn: Conn, f: Field)
    requires Ledger(s, f)
    requires s' == s.(reported := Plus(s.reported, conn.amounts), conns := s.conns[k := conn],
                      displaced := s.displaced + At(s.conns, k))
    ensures Ledger(s', f)
  {
    var w := Counter(f);
    MapPut(s.conns, k, conn, w);
    WeightSplit(s.displaced, At(s.conns, k), w);
    AccountsShift(Of(s.reported, f), StateWeight(s, w), w(conn), Of(WIDTH, f));
  }

  lemma DropKeepsLedger(s: State, s': State, conn: Conn, f: Field)
    requires Ledger(s, f)
    requires s' == s.(reported := Plus(s.reported, conn.amounts), dropped := s.dropped + [conn])
    ensures Ledger(s', f)
  {
    var w := Counter(f);
    WeightSplit(s.dropped, [conn], w);
    assert Weight([conn], w) == w(conn);
    AccountsShift(Of(s.reported, f), StateWeight(s, w), w(conn), Of(WIDTH, f));
  }

  lemma UpdateKeepsLedger(s: State, step: Step, f: Field)
    requires Ledger(s, f) && (step.Container? || step.Host?)
    ensures Ledger(Apply(s, step), f)
  {
    var s' := Apply(s, step);
    var k, conn := step.key, step.conn;
    var o := if step.Container? then UpdateOutcome(s.conns, k, conn, step.meshMac) else HostOutcome(s.conns, k);
    match o
    case Merged => MergeKeepsLedger(s, s', k, s'.conns[k], conn.amounts, f);
    case Inserted(_) => InsertKeepsLedger(s, s', k, s'.conns[k], f);
    case Dropped => DropKeepsLedger(s, s', conn, f);
  }

  lemma PutBackWeight(s: State, i: nat, kept: seq<Entry>, lost: seq<Entry>, w: Conn -> nat)
    requires i < |s.inflight|
    requires EntriesWeight(kept, w) + EntriesWeight(lost, w) == EntriesWeight(s.inflight[i], w)
    ensures StateWeight(s.(conns := PutAll(s.conns, kept),
                           inflight := s.inflight[..i] + s.inflight[i + 1..],
                           dropped := s.dropped + Conns(lost),
                           displaced := s.displaced + Overwritten(s.conns, kept)), w)
            == StateWeight(s, w)
  {
    FlightRemove(s.inflight, i, w);
    PutAllWeight(s.conns, kept, w);
    WeightSplit(s.displaced, Overwritten(s.conns, kept), w);
    WeightSplit(s.dropped, Conns(lost), w);
    ConnsWeight(lost, w);
  }

  lemma DrainKeepsWeight(s: State, list: seq<Entry>, w: Conn -> nat)
    requires IsDrain(s.conns, list)
    ensures StateWeight(s.(conns := s.conns - Keys(list), inflight := s.inflight + [list]), w) == StateWeight(s, w)
  {
    DrainWeight(s.conns, list, w);
    assert (s.inflight + [list])[..|s.inflight|] == s.inflight;
  }

  lemma AckKeepsWeight(s: State, i: nat, w: Conn -> nat)
    requires i < |s.inflight|
    ensures StateWeight(s.(inflight := s.inflight[..i] + s.inflight[i + 1..], acked := s.acked + s.inflight[i]), w) == StateWeight(s, w)
  {
    FlightRemove(s.inflight, i, w);
    EntriesSplit(s.acked, s.inflight[i], w);
  }

  /** Draining, acknowledging and resending only move entries around. */
  lemma MoveKeepsWeight(s: State, step: Step, w: Conn -> nat)
    requires Enabled(s, step) && !step.Container? && !step.Host?
    ensures StateWeight(Apply(s, step), w) == StateWeight(s, w)
  {
    match step
    case Drain(list) => DrainKeepsWeight(s, list, w);
    case Ack(i) => AckKeepsWeight(s, i, w);
    case Resent(i) =>
      var list := s.inflight[i];
      KeptAndLost(s.conns, list, w);
      PutBackWeight(s, i, Kept(s.conns, list), Lost(s.conns, list), w);
  }

  lemma StepKeepsLedger(s: State, step: Step, f: Field)
    requires Ledger(s, f)
    ensures Ledger(Apply(s, step), f)
  {
    if step.Container? || step.Host? {
      UpdateKeepsLedger(s, step, f);
    } else if Enabled(s, step) {
      MoveKeepsWeight(s, step, Counter(f));
    }
  }

  lemma {:induction false} RunKeepsLedger(steps: seq<Step>, f: Field)
    ensures Ledger(Run(INIT, steps), f)
  {
    if steps == [] {
      AccountsZero(0, Of(WIDTH, f));
    } else {
      var before, step := Run(INIT, steps[..|steps| - 1]), steps[|steps| - 1];
      RunKeepsLedger(steps[..|steps| - 1], f);
      StepKeepsLedger(before, step, f);
    }
  }

  // ---- exactness

  function Width(f: Field): (w: nat)
    ensures w > 0
  {
    Of(WIDTH, f)
  }

  function OutcomeOf(s: State, step: Step): Outcome
    requires step.Container? || step.Host?
  {
    if step.Container? then UpdateOutcome(s.conns, step.key, step.conn, step.meshMac) else HostOutcome(s.conns, step.key)
  }

  /** What an entry's counter does not show of a report merged into it; inserting loses nothing. */
  function StepCarry(s: State, step: Step, f: Field): nat {
    if (step.Container? || step.Host?) && OutcomeOf(s, step).Merged?
    then Carry(Of(s.conns[step.key].amounts, f) + Of(step.conn.amounts, f), Width(f))
    else 0
  }

  /** More is reported, and all of it found except what is carried. */
  ghost predicate Grows(s: State, s': State, f: Field, carry: nat) {
    Of(s'.reported, f) + StateWeight(s, Counter(f)) == Of(s.reported, f) + StateWeight(s', Counter(f)) + carry
  }

  lemma MergeGrows(s: State, s': State, k: Key, merged: Conn, x: Amounts, f: Field)
    requires k in s.conns && merged.amounts == WrapPlus(s.conns[k].amounts, x, WIDTH)
    requires s' == s.(reported := Plus(s.reported, x), conns := s.conns[k := merged])
    ensures Grows(s, s', f, Carry(Of(s.conns[k].amounts, f) + Of(x, f), Width(f)))
  {
    var w := Counter(f);
    MapPut(s.conns, k, merged, w);
    assert Weight(At(s.conns, k), w) == w(s.conns[k]);
  }

  lemma InsertGrows(s: State, s': State, k: Key, conn: Conn, f: Field)
    requires s' == s.(reported := Plus(s.reported, conn.amounts), conns := s.conns[k := conn],
                      displaced := s.displaced + At(s.conns, k))
    ensures Grows(s, s', f, 0)
  {
    MapPut(s.conns, k, conn, Counter(f));
    WeightSplit(s.displaced, At(s.conns, k), Counter(f));
  }

  lemma DropGrows(s: State, s': State, conn: Conn, f: Field)
    requires s' == s.(reported := Plus(s.reported, conn.amounts), dropped := s.dropped + [conn])
    ensures Grows(s, s', f, 0)
  {
    WeightSplit(s.dropped, [conn], Counter(f));
    assert Weight([conn], Counter(f)) == Counter(f)(conn);
  }

  /** What a report that is merged makes of the entry it is merged into. */
  function MergedInto(entry: Conn, step: Step): (c: Conn)
    requires step.Container? || step.Host?
    ensures c.amounts == WrapPlus(entry.amounts, step.conn.amounts, WIDTH)
  {
    if step.Container? then Merge(entry, step.conn) else MergeHost(entry, step.conn)
  }

  lemma MergedState(s: State, step: Step)
    requires (step.Container? || step.Host?) && OutcomeOf(s, step).Merged?
    ensures Apply(s, step) ==
            s.(reported := Plus(s.reported, step.conn.amounts), conns := s.conns[step.key := MergedInto(s.conns[step.key], step)])
  {
  }

  lemma MergedGrows(s: State, step: Step, f: Field)
    requires (step.Container? || step.Host?) && OutcomeOf(s, step).Merged?
    ensures Grows(s, Apply(s, step), f, StepCarry(s, step, f))
  {
    MergedState(s, step);
    MergeGrows(s, Apply(s, step), step.key, MergedInto(s.conns[step.key], step), step.conn.amounts, f);
  }

  lemma UnmergedGrows(s: State, step: Step, f: Field)
    requires (step.Container? || step.Host?) && !OutcomeOf(s, step).Merged?
    ensures Grows(s, Apply(s, step), f, 0)
  {
    var s' := Apply(s, step);
    if OutcomeOf(s, step).Inserted? {
      InsertGrows(s, s', step.key, s'.conns[step.key], f);
    } else {
      DropGrows(s, s', step.conn, f);
    }
  }

  /** Each step adds to what is not shown exactly what it carries. */
  lemma StepCarries(s: State, step: Step, f: Field)
    ensures Grows(s, Apply(s, step), f, StepCarry(s, step, f))
  {
    if step.Container? || step.Host? {
      if OutcomeOf(s, step).Merged? { MergedGrows(s, step, f); } else { UnmergedGrows(s, step, f); }
    } else if Enabled(s, step) {
      MoveKeepsWeight(s, step, Counter(f));
    }
  }

  /** A report takes the counter of the entry it is merged into past its width. */
  predicate Overflows(s: State, step: Step, f: Field) {
    && (step.Container? || step.Host?) && OutcomeOf(s, step).Merged?
    && Of(s.conns[step.key].amounts, f) + Of(step.conn.amounts, f) >= Width(f)
  }

  lemma OverflowCarries(s: State, step: Step, f: Field)
    ensures StepCarry(s, step, f) > 0 <==> Overflows(s, step, f)
  {
    if (step.Container? || step.Host?) && OutcomeOf(s, step).Merged? {
      CarriesWhenFull(Of(s.conns[step.key].amounts, f) + Of(step.conn.amounts, f), Width(f));
    }
  }

  function Carried(steps: seq<Step>, f: Field): nat {
    if steps == [] then 0
    else Carried(steps[..|steps| - 1], f) + StepCarry(Run(INIT, steps[..|steps| - 1]), steps[|steps| - 1], f)
  }

  predicate NeverOverflows(steps: seq<Step>, f: Field) {
    steps == [] ||
    var before := steps[..|steps| - 1];
    NeverOverflows(before, f) && !Overflows(Run(INIT, before), steps[|steps| - 1], f)
  }

  lemma {:induction false} RunCarries(steps: seq<Step>, f: Field)
    ensures var s := Run(INIT, steps); Of(s.reported, f) == StateWeight(s, Counter(f)) + Carried(steps, f)
    ensures Carried(steps, f) == 0 <==> NeverOverflows(steps, f)
  {
    if steps == [] {
      assert INIT.conns == map[];
    } else {
      var before, step := steps[..|steps| - 1], steps[|steps| - 1];
      RunCarries(before, f);
      StepCarries(Run(INIT, before), step, f);
      OverflowCarries(Run(INIT, before), step, f);
    }
  }

  /** In every run reported = in the map + in flight + acknowledged + dropped + displaced, up to what
      the counters of single entries could not hold: the two are equal if and only if no report takes
      the counter of the entry it is merged into past its width, and otherwise differ by whole turns. */
  lemma EveryRunAccounts(steps: seq<Step>, f: Field)
    ensures var s := Run(INIT, steps);
            && Of(s.reported, f) == StateWeight(s, Counter(f)) + Carried(steps, f)
            && Accounts(Of(s.reported, f), StateWeight(s, Counter(f)), Width(f))
            && (Of(s.reported, f) == StateWeight(s, Counter(f)) <==> NeverOverflows(steps, f))
            && (Of(s.reported, f) < Width(f) ==> NeverOverflows(steps, f))
  {
    var s := Run(INIT, steps);
    RunKeepsLedger(steps, f);
    RunCarries(steps, f);
    if Of(s.reported, f) < Width(f) { AccountsExactly(Of(s.reported, f), StateWeight(s, Counter(f)), Width(f)); }
  }

  lemma OverflowLoses(before: seq<Step>, step: Step, f: Field)
    requires Overflows(Run(INIT, before), step, f)
    ensures var s := Run(INIT, before + [step]); Of(s.reported, f) > StateWeight(s, Counter(f))
  {
    assert (before + [step])[..|before|] == before;
    EveryRunAccounts(before + [step], f);
  }

  lemma FirstReport(k: Key, conn: Conn)
    ensures Run(INIT, [Host(k, conn)]).conns == map[k := conn]
  {
    assert [Host(k, conn)][..0] == [];
    assert HostUpdate(map[], k, conn) == map[k := conn];
  }

  /** Two reports of half a counter's width or more for one connection are not accounted for in full. */
  lemma CounterWraps(k: Key, conn: Conn, f: Field)
    requires Of(conn.amounts, f) < Width(f) <= 2 * Of(conn.amounts, f)
    ensures var s := Run(INIT, [Host(k, conn)] + [Host(k, conn)]); Of(s.reported, f) > StateWeight(s, Counter(f))
  {
    FirstReport(k, conn);
    OverflowLoses([Host(k, conn)], Host(k, conn), f);
  }

  // ---- what a resend puts back

  lemma {:induction false} PutAllKeys(m: map<Key, Conn>, list: seq<Entry>)
    ensures PutAll(m, list).Keys == m.Keys + Keys(list)
    ensures forall k :: k in m && k !in Keys(list) ==> PutAll(m, list)[k] == m[k]
  {
    if list != [] {
      var init, last := list[..|list| - 1], list[|list| - 1];
      PutAllKeys(m, init);
      assert list == init + [last];
      assert Keys(list) == Keys(init) + {last.key};
    }
  }

  lemma {:induction false} PutAllEntries(m: map<Key, Conn>, list: seq<Entry>, i: nat)
    requires DistinctKeys(list) && i < |list|
    ensures list[i].key in PutAll(m, list) && PutAll(m, list)[list[i].key] == list[i].conn
  {
    var n := |list| - 1;
    if i < n { PutAllEntries(m, list[..n], i); }
  }

  lemma PutAllContents(m: map<Key, Conn>, list: seq<Entry>)
    ensures PutAll(m, list).Keys == m.Keys + Keys(list)
    ensures forall k :: k in m && k !in Keys(list) ==> PutAll(m, list)[k] == m[k]
    ensures DistinctKeys(list) ==> forall e <- list :: PutAll(m, list)[e.key] == e.conn
  {
    PutAllKeys(m, list);
    if DistinctKeys(list) {
      forall e <- list
        ensures PutAll(m, list)[e.key] == e.conn
      {
        var i :| 0 <= i < |list| && list[i] == e;
        PutAllEntries(m, list, i);
      }
    }
  }

  lemma {:induction false} PutAllSize(m: map<Key, Conn>, list: seq<Entry>)
    ensures |m| <= |PutAll(m, list)| <= |m| + |list|
  {
    if list != [] {
      var init, last := list[..|list| - 1], list[|list| - 1];
      PutAllSize(m, init);
      PutSize(PutAll(m, init), last.key, last.conn);
    }
  }

  lemma {:induction false} PutAllFreshSize(m: map<Key, Conn>, list: seq<Entry>)
    requires DistinctKeys(list) && Keys(list) !! m.Keys
    ensures |PutAll(m, list)| == |m| + |list|
  {
    if list != [] {
      var init, last := list[..|list| - 1], list[|list| - 1];
      assert list == init + [last];
      assert last.key !in Keys(init) && last.key in Keys(list);
      assert Keys(init) <= Keys(list);
      PutAllFreshSize(m, init);
      PutAllContents(m, init);
      PutSize(PutAll(m, init), last.key, last.conn);
    }
  }

  lemma {:induction false} HighLowMembers(list: seq<Entry>)
    ensures forall e :: e in High(list) <==> e in list && ResentFirst(e.conn)
    ensures forall e :: e in Low(list) <==> e in list && !ResentFirst(e.conn)
  {
    if list != [] {
      var init, last := list[..|list| - 1], list[|list| - 1];
      HighLowMembers(init);
      assert list == init + [last];
    }
  }

  lemma DistinctAppend(list: seq<Entry>, e: Entry)
    requires DistinctKeys(list) && e.key !in Keys(list)
    ensures DistinctKeys(list + [e])
  {
  }

  lemma {:induction false} HighLowDistinct(list: seq<Entry>)
    requires DistinctKeys(list)
    ensures DistinctKeys(High(list)) && DistinctKeys(Low(list)) && Keys(High(list)) !! Keys(Low(list))
    ensures Keys(High(list)) + Keys(Low(list)) == Keys(list)
  {
    if list != [] {
      var init, last := list[..|list| - 1], list[|list| - 1];
      assert list == init + [last];
      assert last.key !in Keys(init);
      HighLowDistinct(init);
      DistinctAppend(if ResentFirst(last.conn) then High(init) else Low(init), last);
      assert Keys(list) == Keys(init) + {last.key};
      assert Keys(High(init) + [last]) == Keys(High(init)) + {last.key};
      assert Keys(Low(init) + [last]) == Keys(Low(init)) + {last.key};
    }
  }

  lemma KeptDistinct(m: map<Key, Conn>, list: seq<Entry>)
    requires DistinctKeys(list)
    ensures DistinctKeys(Kept(m, list)) && Keys(Kept(m, list)) <= Keys(list)
  {
    HighLowDistinct(list);
    if |m| + |list| > CONNECTION_MAP_MAX {
      var high, low := High(list), Low(list)[..Room(m, list)];
      assert Keys(low) <= Keys(Low(list));
      forall i, j | 0 <= i < j < |high + low|
        ensures (high + low)[i].key != (high + low)[j].key
      {
        if i < |high| && j >= |high| {
          assert high[i].key in Keys(high) && low[j - |high|].key in Keys(low);
        }
      }
      assert Keys(high + low) == Keys(high) + Keys(low);
    }
  }

  /** After a resend every LEARN, VIOLATE or DENY entry of the batch is back under its key. */
  lemma ResendKeepsHighPriority(m: map<Key, Conn>, list: seq<Entry>)
    requires DistinctKeys(list)
    ensures forall e <- list :: ResentFirst(e.conn) ==> e.key in Resend(m, list) && Resend(m, list)[e.key] == e.conn
  {
    KeptDistinct(m, list);
    PutAllContents(m, Kept(m, list));
    HighLowMembers(list);
    forall e <- list | ResentFirst(e.conn)
      ensures e.key in Resend(m, list) && Resend(m, list)[e.key] == e.conn
    {
      assert e in High(list);
      assert e in Kept(m, list);
      assert e.key in Keys(Kept(m, list));
    }
  }

  lemma {:induction false} PutAllSplit(m: map<Key, Conn>, a: seq<Entry>, b: seq<Entry>)
    ensures PutAll(m, a + b) == PutAll(PutAll(m, a), b)
  {
    if b == [] {
      assert a + b == a;
    } else {
      assert (a + b)[..|a + b| - 1] == a + b[..|b| - 1];
      PutAllSplit(m, a, b[..|b| - 1]);
    }
  }

  /** After a resend the map holds at most its cap, or what it held plus the high-priority entries. */
  lemma ResendIsBounded(m: map<Key, Conn>, list: seq<Entry>)
    ensures |Resend(m, list)| <= if |m| + |High(list)| > CONNECTION_MAP_MAX then |m| + |High(list)| else CONNECTION_MAP_MAX
  {
    if |m| + |list| <= CONNECTION_MAP_MAX {
      PutAllSize(m, list);
    } else {
      var low := Low(list)[..Room(m, list)];
      PutAllSize(m, High(list));
      PutAllSize(PutAll(m, High(list)), low);
      PutAllSplit(m, High(list), low);
    }
  }

  lemma PutBackRestores(m: map<Key, Conn>, kept: seq<Entry>)
    requires DistinctKeys(kept) && forall e <- kept :: e.key in m && m[e.key] == e.conn
    ensures PutAll(m - Keys(kept), kept) == m
  {
    var rest := m - Keys(kept);
    PutAllContents(rest, kept);
    assert PutAll(rest, kept).Keys == m.Keys;
    forall k | k in m
      ensures PutAll(rest, kept)[k] == m[k]
    {
      if k in Keys(kept) {
        var e :| e in kept && e.key == k;
      }
    }
  }

  lemma KeptMembers(m: map<Key, Conn>, list: seq<Entry>)
    ensures forall e <- Kept(m, list) :: e in list
  {
    HighLowMembers(list);
  }

  lemma ResendRestores(m: map<Key, Conn>, list: seq<Entry>)
    requires IsDrain(m, list) && Keys(Kept(m - Keys(list), list)) == Keys(list)
    ensures Resend(m - Keys(list), list) == m
  {
    KeptDistinct(m - Keys(list), list);
    KeptMembers(m - Keys(list), list);
    PutBackRestores(m, Kept(m - Keys(list), list));
  }

  lemma ResendLoses(m: map<Key, Conn>, list: seq<Entry>)
    requires IsDrain(m, list) && |m| > CONNECTION_MAP_MAX && Low(list) != []
    ensures |Resend(m - Keys(list), list)| < |m|
  {
    var rest := m - Keys(list);
    DrainSize(m, list);
    KeptDistinct(rest, list);
    HighLowDistinct(list);
    HighLowSplit(list, Counter(Bytes));
    PutAllFreshSize(rest, High(list));
    PutAllFreshSize(rest, Kept(rest, list));
  }

  /** Draining a batch and resending it at once restores the map exactly when the map
      was within its cap or the batch holds high-priority entries only. */
  lemma DrainThenResend(m: map<Key, Conn>, list: seq<Entry>)
    requires IsDrain(m, list)
    ensures Resend(m - Keys(list), list) == m <==> |m| <= CONNECTION_MAP_MAX || forall e <- list :: ResentFirst(e.conn)
  {
    DrainSize(m, list);
    HighLowMembers(list);
    HighLowDistinct(list);
    if |m| <= CONNECTION_MAP_MAX {
      ResendRestores(m, list);
    } else if Low(list) == [] {
      assert Kept(m - Keys(list), list) == High(list);
      ResendRestores(m, list);
    } else {
      assert Low(list)[0] in Low(list);
      ResendLoses(m, list);
    }
  }

  // ---- displacement

  /** The step overwrites an entry: a mesh report meets a non-mesh entry (or the other way
      round), or a resent key was inserted anew while its batch was in flight. */
  predicate Collides(s: State, step: Step) {
    match step
    case Container(k, conn, meshMac, _) =>
      && k in s.conns && s.conns[k].mesh != meshMac
      && (|s.conns| < CONNECTION_MAP_MAX || AdmittedWhenFull(conn))
    case Resent(i) => i < |s.inflight| && exists e <- Kept(s.conns, s.inflight[i]) :: e.key in s.conns
    case _ => false
  }

  predicate CollisionFree(steps: seq<Step>) {
    steps == [] ||
    var before := steps[..|steps| - 1];
    CollisionFree(before) && !Collides(Run(INIT, before), steps[|steps| - 1])
  }

  lemma {:induction false} NothingOverwritten(m: map<Key, Conn>, list: seq<Entry>)
    requires DistinctKeys(list)
    ensures Overwritten(m, list) == [] <==> forall e <- list :: e.key !in m
  {
    if list != [] {
      var init, last := list[..|list| - 1], list[|list| - 1];
      assert list == init + [last];
      NothingOverwritten(m, init);
      PutAllContents(m, init);
      assert last.key !in Keys(init);
    }
  }

  predicate BatchesDistinct(s: State) { forall b <- s.inflight :: DistinctKeys(b) }

  lemma StepDisplaces(s: State, step: Step)
    requires BatchesDistinct(s)
    ensures BatchesDistinct(Apply(s, step))
    ensures Apply(s, step).displaced == [] <==> s.displaced == [] && !Collides(s, step)
  {
    if step.Resent? && step.i < |s.inflight| {
      var list := s.inflight[step.i];
      KeptDistinct(s.conns, list);
      NothingOverwritten(s.conns, Kept(s.conns, list));
    }
  }

  /** Nothing is displaced in exactly the runs without a collision. */
  lemma {:induction false} DisplacedOnlyByCollision(steps: seq<Step>)
    ensures BatchesDistinct(Run(INIT, steps))
    ensures Run(INIT, steps).displaced == [] <==> CollisionFree(steps)
  {
    if steps != [] {
      DisplacedOnlyByCollision(steps[..|steps| - 1]);
      StepDisplaces(Run(INIT, steps[..|steps| - 1]), steps[|steps| - 1]);
    }
  }
}
