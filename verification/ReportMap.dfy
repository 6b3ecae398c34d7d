/** What the agent's connection map shows after reports and resends, and the routines that keep it
    (agent/timer.go). */
module ReportMap {
  import opened ConnectionReport
  import opened Counters
  import opened Sequences

  // ---- what the map shows

  predicate IsReport(step: Step) { step.Container? || step.Host? }

  predicate IsFor(step: Step, k: Key) { IsReport(step) && step.key == k }

  /** The reports for one connection. */
  function ReportsFor(steps: seq<Step>, k: Key): seq<Conn> {
    if steps == [] then []
    else
      var init, last := steps[..|steps| - 1], steps[|steps| - 1];
      ReportsFor(init, k) + if IsFor(last, k) then [last.conn] else []
  }

  /** Those whose severity counts: a host's report counts only if the connection is new. */
  function ThreatsFor(steps: seq<Step>, k: Key, known: bool): seq<Conn> {
    if steps == [] then []
    else
      var init, last := steps[..|steps| - 1], steps[|steps| - 1];
      ThreatsFor(init, k, known) +
      if IsFor(last, k) && (last.Container? || (!known && ReportsFor(init, k) == [])) then [last.conn] else []
  }

  /** All reports for the connection agree on whether it is the mesh proxy's. */
  predicate SameMesh(steps: seq<Step>, k: Key, mesh: bool, known: bool) {
    forall step <- steps ::
      && IsReport(step)
      && (step.Container? && step.key == k ==> step.meshMac == mesh && (step.scopeMesh ==> mesh))
      && (step.Host? && step.key == k && !known ==> step.conn.mesh == mesh)
  }

  /** The entry shows the decision of the last of the latest reports. */
  ghost predicate ShowsDecision(entry: Conn, reports: seq<Conn>) {
    exists i: nat ::
      && IsLatest(reports, i)
      && entry.lastSeen == reports[i].lastSeen && entry.action == reports[i].action && entry.policyId == reports[i].policyId
  }

  /** And the threat of the first of the most severe ones. */
  ghost predicate ShowsThreat(entry: Conn, threats: seq<Conn>) {
    exists i: nat ::
      IsWorst(threats, i) && entry.severity == threats[i].severity && entry.threatId == threats[i].threatId
  }

  lemma FirstShows(conn: Conn, entry: Conn)
    requires entry == conn.(mesh := entry.mesh)
    ensures ShowsDecision(entry, [conn]) && ShowsThreat(entry, [conn])
  {
    assert IsLatest([conn], 0) && IsWorst([conn], 0);
  }

  lemma LatestNext(reports: seq<Conn>, i: nat, conn: Conn)
    requires IsLatest(reports, i)
    ensures IsLatest(reports + [conn], if reports[i].lastSeen <= conn.lastSeen then |reports| else i)
  {
    var all := reports + [conn];
    assert forall j :: 0 <= j < |reports| ==> all[j] == reports[j];
  }

  lemma WorstNext(threats: seq<Conn>, i: nat, conn: Conn)
    requires IsWorst(threats, i)
    ensures IsWorst(threats + [conn], if threats[i].severity < conn.severity then |threats| else i)
  {
    var all := threats + [conn];
    assert forall j :: 0 <= j < |threats| ==> all[j] == threats[j];
  }

  lemma DecisionNext(entry: Conn, conn: Conn, reports: seq<Conn>, entry': Conn)
    requires ShowsDecision(entry, reports)
    requires var e := MergeHost(entry, conn);
             entry'.lastSeen == e.lastSeen && entry'.action == e.action && entry'.policyId == e.policyId
    ensures ShowsDecision(entry', reports + [conn])
  {
    var i: nat :|
      && IsLatest(reports, i)
      && entry.lastSeen == reports[i].lastSeen && entry.action == reports[i].action && entry.policyId == reports[i].policyId;
    LatestNext(reports, i, conn);
    var i' := if reports[i].lastSeen <= conn.lastSeen then |reports| else i;
    assert IsLatest(reports + [conn], i');
  }

  lemma ThreatNext(entry: Conn, conn: Conn, threats: seq<Conn>)
    requires ShowsThreat(entry, threats)
    ensures ShowsThreat(Merge(entry, conn), threats + [conn])
  {
    var i: nat :| IsWorst(threats, i) && entry.severity == threats[i].severity && entry.threatId == threats[i].threatId;
    WorstNext(threats, i, conn);
    var i' := if threats[i].severity < conn.severity then |threats| else i;
    assert IsWorst(threats + [conn], i');
  }

  /** What a connection's entry is to show, and whether there is one. */
  ghost predicate ShowsAt(conns: map<Key, Conn>, k: Key, mesh: bool, reports: seq<Conn>, threats: seq<Conn>) {
    && (k in conns <==> reports != [])
    && (k in conns ==> conns[k].mesh == mesh && ShowsDecision(conns[k], reports) && ShowsThreat(conns[k], threats))
  }

  lemma ContainerShows(m: map<Key, Conn>, step: Step, k: Key, mesh: bool, reports: seq<Conn>, threats: seq<Conn>)
    requires step.Container? && step.key == k && step.meshMac == mesh && (step.scopeMesh ==> mesh)
    requires ShowsAt(m, k, mesh, reports, threats) && (k in m || (|m| < CONNECTION_MAP_MAX && threats == []))
    ensures ShowsAt(Update(m, k, step.conn, step.meshMac, step.scopeMesh), k, mesh, reports + [step.conn], threats + [step.conn])
  {
    if k in m {
      DecisionNext(m[k], step.conn, reports, Merge(m[k], step.conn));
      ThreatNext(m[k], step.conn, threats);
    } else {
      assert reports + [step.conn] == threats + [step.conn] == [step.conn];
      FirstShows(step.conn, step.conn.(mesh := mesh));
    }
  }

  lemma HostShows(m: map<Key, Conn>, step: Step, k: Key, mesh: bool, reports: seq<Conn>, threats: seq<Conn>)
    requires step.Host? && step.key == k && (k in m || step.conn.mesh == mesh)
    requires ShowsAt(m, k, mesh, reports, threats) && (k in m || (|m| < CONNECTION_MAP_MAX && threats == []))
    ensures ShowsAt(HostUpdate(m, k, step.conn), k, mesh, reports + [step.conn], if k in m then threats else [step.conn])
  {
    if k in m {
      DecisionNext(m[k], step.conn, reports, MergeHost(m[k], step.conn));
    } else {
      assert reports + [step.conn] == [step.conn];
      FirstShows(step.conn, step.conn);
    }
  }

  /** What a run of reports is to show for a connection. */
  ghost predicate Shown(s: State, steps: seq<Step>, k: Key, mesh: bool) {
    ShowsAt(Run(s, steps).conns, k, mesh,
            At(s.conns, k) + ReportsFor(steps, k), At(s.conns, k) + ThreatsFor(steps, k, k in s.conns))
  }

  lemma ForNext(steps: seq<Step>, step: Step, k: Key, known: bool)
    ensures ReportsFor(steps + [step], k) == ReportsFor(steps, k) + if IsFor(step, k) then [step.conn] else []
    ensures ThreatsFor(steps + [step], k, known) ==
            ThreatsFor(steps, k, known) +
            if IsFor(step, k) && (step.Container? || (!known && ReportsFor(steps, k) == [])) then [step.conn] else []
  {
    assert (steps + [step])[..|steps|] == steps;
  }

  lemma {:induction false} NoReportNoThreat(steps: seq<Step>, k: Key, known: bool)
    ensures ReportsFor(steps, k) == [] ==> ThreatsFor(steps, k, known) == []
  {
    if steps != [] { NoReportNoThreat(steps[..|steps| - 1], k, known); }
  }

  lemma OtherShows(m: map<Key, Conn>, m': map<Key, Conn>, k: Key, mesh: bool, reports: seq<Conn>, threats: seq<Conn>)
    requires ShowsAt(m, k, mesh, reports, threats) && (k in m <==> k in m') && (k in m ==> m'[k] == m[k])
    ensures ShowsAt(m', k, mesh, reports, threats)
  {
  }

  lemma ApplyShows(s: State, step: Step, k: Key, mesh: bool, reports: seq<Conn>, threats: seq<Conn>)
    requires IsReport(step) && (step.Container? && step.key == k ==> step.meshMac == mesh && (step.scopeMesh ==> mesh))
    requires step.Host? && step.key == k && k !in s.conns ==> step.conn.mesh == mesh
    requires ShowsAt(s.conns, k, mesh, reports, threats) && (k in s.conns || (|s.conns| < CONNECTION_MAP_MAX && threats == []))
    ensures ShowsAt(Apply(s, step).conns, k, mesh,
                    if step.key == k then reports + [step.conn] else reports,
                    if step.key == k && (step.Container? || k !in s.conns) then threats + [step.conn] else threats)
  {
    if step.key != k {
      OtherShows(s.conns, Apply(s, step).conns, k, mesh, reports, threats);
    } else if step.Container? {
      ContainerShows(s.conns, step, k, mesh, reports, threats);
    } else {
      HostShows(s.conns, step, k, mesh, reports, threats);
      assert [] + [step.conn] == [step.conn];
    }
  }

  lemma Regroup(a: seq<Conn>, b: seq<Conn>, c: seq<Conn>)
    ensures a + (b + c) == (a + b) + c && (c == [] ==> a + (b + c) == a + b)
  {
  }

  lemma SeenNext(s: State, steps: seq<Step>, step: Step, k: Key, reports: seq<Conn>, threats: seq<Conn>)
    requires reports == At(s.conns, k) + ReportsFor(steps, k)
    requires threats == At(s.conns, k) + ThreatsFor(steps, k, k in s.conns) && IsReport(step)
    ensures At(s.conns, k) + ReportsFor(steps + [step], k) == if step.key == k then reports + [step.conn] else reports
    ensures At(s.conns, k) + ThreatsFor(steps + [step], k, k in s.conns) ==
            if step.key == k && (step.Container? || reports == []) then threats + [step.conn] else threats
    ensures reports == [] ==> threats == []
  {
    ForNext(steps, step, k, k in s.conns);
    NoReportNoThreat(steps, k, k in s.conns);
    Regroup(At(s.conns, k), ReportsFor(steps, k), if step.key == k then [step.conn] else []);
    Regroup(At(s.conns, k), ThreatsFor(steps, k, k in s.conns),
            if step.key == k && (step.Container? || reports == []) then [step.conn] else []);
  }

  lemma StepShows(s: State, steps: seq<Step>, step: Step, k: Key, mesh: bool)
    requires SameMesh([step], k, mesh, k in s.conns) && Shown(s, steps, k, mesh)
    requires k in Run(s, steps).conns || |Run(s, steps).conns| < CONNECTION_MAP_MAX
    ensures Shown(s, steps + [step], k, mesh)
  {
    var reports, threats := At(s.conns, k) + ReportsFor(steps, k), At(s.conns, k) + ThreatsFor(steps, k, k in s.conns);
    assert (steps + [step])[..|steps|] == steps && step in [step];
    SeenNext(s, steps, step, k, reports, threats);
    ApplyShows(Run(s, steps), step, k, mesh, reports, threats);
  }

  lemma ReportSize(s: State, step: Step)
    requires IsReport(step)
    ensures |Apply(s, step).conns| <= |s.conns| + 1
    ensures Apply(s, step).conns - {step.key} == s.conns - {step.key}
  {
  }

  lemma {:induction false} RunSize(s: State, steps: seq<Step>)
    requires forall step <- steps :: IsReport(step)
    ensures |Run(s, steps).conns| <= |s.conns| + |steps|
  {
    if steps != [] {
      RunSize(s, steps[..|steps| - 1]);
      ReportSize(Run(s, steps[..|steps| - 1]), steps[|steps| - 1]);
    }
  }

  lemma EmptyShows(s: State, k: Key, mesh: bool)
    requires k in s.conns ==> s.conns[k].mesh == mesh
    ensures Shown(s, [], k, mesh)
  {
    assert At(s.conns, k) + [] == At(s.conns, k);
    if k in s.conns { FirstShows(s.conns[k], s.conns[k]); }
  }

  /** After any reports, of containers and hosts, for any connections: a connection is in the map if it
      was or was reported, with the mesh flag of its reports, and shows the latest decision and the worst
      threat. The map must have room unless the connection was there. */
  lemma {:induction false} MapShowsLatestAndWorst(s: State, steps: seq<Step>, k: Key, mesh: bool)
    requires k in s.conns ==> s.conns[k].mesh == mesh
    requires SameMesh(steps, k, mesh, k in s.conns)
    requires k in s.conns || |s.conns| + |steps| <= CONNECTION_MAP_MAX
    ensures Shown(s, steps, k, mesh)
  {
    if steps == [] {
      EmptyShows(s, k, mesh);
    } else {
      var init, last := steps[..|steps| - 1], steps[|steps| - 1];
      assert steps == init + [last];
      MapShowsLatestAndWorst(s, init, k, mesh);
      RunSize(s, init);
      StepShows(s, init, last, k, mesh);
    }
  }

  /** A connection nobody reports keeps its entry, or its absence. */
  lemma {:induction false} OthersUnchanged(s: State, steps: seq<Step>, k: Key)
    requires forall step <- steps :: IsReport(step) && step.key != k
    ensures At(Run(s, steps).conns, k) == At(s.conns, k)
  {
    if steps != [] {
      OthersUnchanged(s, steps[..|steps| - 1], k);
      ReportSize(Run(s, steps[..|steps| - 1]), steps[|steps| - 1]);
    }
  }

  // ---- what a resend returns

  /** The entries of a batch that are put back first. */
  function Firsts(list: seq<Entry>): set<nat> {
    set i: nat | i < |list| && list[i].conn.action in {ACTION_LEARN, ACTION_VIOLATE, ACTION_DENY}
  }

  /** The other entries among the first n. */
  function OthersBefore(list: seq<Entry>, n: nat): set<nat>
    requires n <= |list|
  {
    set i: nat | i < n && list[i].conn.action !in {ACTION_LEARN, ACTION_VIOLATE, ACTION_DENY}
  }

  function KeysAt(list: seq<Entry>, at: set<nat>): set<Key>
    requires forall i <- at :: i < |list|
  {
    set i <- at :: list[i].key
  }

  /** How many places the map has left once those are back. */
  function Places(m: map<Key, Conn>, list: seq<Entry>): nat {
    var held := |m.Keys + KeysAt(list, Firsts(list))|;
    if held < CONNECTION_MAP_MAX then CONNECTION_MAP_MAX - held else 0
  }

  /** A batch that fits is put back whole. Of one that does not, all LEARN, VIOLATE and DENY entries
      are, and of the others, earliest first, as many as there are places for. */
  predicate Returns(m: map<Key, Conn>, list: seq<Entry>, i: nat)
    requires i < |list|
  {
    || |m| + |list| <= CONNECTION_MAP_MAX
    || i in Firsts(list)
    || |OthersBefore(list, i)| < Places(m, list)
  }

  function Returned(m: map<Key, Conn>, list: seq<Entry>): set<nat> { set i: nat | i < |list| && Returns(m, list, i) }

  /** The map holds the returned entries, and otherwise what it held. */
  predicate PutBackExactly(m: map<Key, Conn>, list: seq<Entry>, m': map<Key, Conn>) {
    var back := Returned(m, list);
    && m'.Keys == m.Keys + KeysAt(list, back)
    && (forall i <- back :: m'[list[i].key] == list[i].conn)
    && forall k <- m :: k !in KeysAt(list, back) ==> m'[k] == m[k]
  }

  lemma {:induction false} CountUp(list: seq<Entry>, n: nat)
    requires n <= |list|
    ensures |Low(list[..n])| == |OthersBefore(list, n)|
    ensures |High(list[..n])| + |OthersBefore(list, n)| == n
  {
    if n == 0 {
      assert OthersBefore(list, 0) == {};
    } else {
      CountUp(list, n - 1);
      assert list[..n][..n - 1] == list[..n - 1];
      var before := OthersBefore(list, n - 1);
      assert OthersBefore(list, n) == if ResentFirst(list[n - 1].conn) then before else before + {n - 1};
    }
  }

  lemma {:induction false} FirstsCount(list: seq<Entry>, n: nat)
    requires n <= |list|
    ensures |High(list[..n])| == |set i: nat | i < n && ResentFirst(list[i].conn)|
  {
    var firsts := set i: nat | i < n && ResentFirst(list[i].conn);
    if n == 0 {
      assert firsts == {};
    } else {
      FirstsCount(list, n - 1);
      assert list[..n][..n - 1] == list[..n - 1];
      var before := set i: nat | i < n - 1 && ResentFirst(list[i].conn);
      assert firsts == if ResentFirst(list[n - 1].conn) then before + {n - 1} else before;
    }
  }

  lemma FirstsAndOthers(list: seq<Entry>)
    ensures |High(list)| == |Firsts(list)| && |Low(list)| == |OthersBefore(list, |list|)|
    ensures |Firsts(list)| + |OthersBefore(list, |list|)| == |list|
  {
    CountUp(list, |list|);
    assert list[..|list|] == list;
    FirstsCount(list, |list|);
    assert Firsts(list) == set i: nat | i < |list| && ResentFirst(list[i].conn);
  }

  /** Where a low-priority entry of the batch stands among them. */
  lemma {:induction false} LowAt(list: seq<Entry>, i: nat)
    requires i < |list| && !ResentFirst(list[i].conn)
    ensures |Low(list[..i])| < |Low(list)| && Low(list)[|Low(list[..i])|] == list[i]
  {
    var n := |list| - 1;
    if i < n {
      assert list[..n][..i] == list[..i];
      LowAt(list[..n], i);
    }
  }

  lemma {:induction false} LowOrigin(list: seq<Entry>, j: nat) returns (i: nat)
    requires j < |Low(list)|
    ensures i < |list| && !ResentFirst(list[i].conn) && list[i] == Low(list)[j] && |Low(list[..i])| == j
  {
    var n := |list| - 1;
    if j < |Low(list[..n])| {
      i := LowOrigin(list[..n], j);
      assert list[..n][..i] == list[..i];
    } else {
      i := n;
    }
  }

  lemma FirstKeys(list: seq<Entry>)
    ensures Keys(High(list)) == KeysAt(list, Firsts(list))
  {
    HighLowMembers(list);
    forall i <- Firsts(list)
      ensures list[i].key in Keys(High(list))
    {
      assert list[i] in list && ResentFirst(list[i].conn);
      assert list[i] in High(list);
    }
    forall e <- High(list)
      ensures e.key in KeysAt(list, Firsts(list))
    {
      var i :| 0 <= i < |list| && list[i] == e;
      assert i in Firsts(list);
    }
  }

  lemma RoomIsPlaces(m: map<Key, Conn>, list: seq<Entry>)
    ensures Room(m, list) == Min(Places(m, list), |Low(list)|)
  {
    var m1 := PutAll(m, High(list));
    PutAllContents(m, High(list));
    FirstKeys(list);
    assert |m1| == |m1.Keys|;
  }

  lemma LowReturns(m: map<Key, Conn>, list: seq<Entry>, e: Entry)
    requires |m| + |list| > CONNECTION_MAP_MAX
    ensures e in Low(list)[..Room(m, list)] <==>
            exists i: nat :: i < |list| && !ResentFirst(list[i].conn) && Returns(m, list, i) && list[i] == e
  {
    var low := Low(list)[..Room(m, list)];
    RoomIsPlaces(m, list);
    if e in low {
      var j :| 0 <= j < |low| && low[j] == e;
      var i := LowOrigin(list, j);
      CountUp(list, i);
      assert Returns(m, list, i);
    }
    forall i: nat | i < |list| && !ResentFirst(list[i].conn) && Returns(m, list, i)
      ensures list[i] in low
    {
      LowAt(list, i);
      CountUp(list, i);
      assert low[|Low(list[..i])|] == list[i];
    }
  }

  lemma AllReturn(m: map<Key, Conn>, list: seq<Entry>, e: Entry)
    requires |m| + |list| <= CONNECTION_MAP_MAX
    ensures e in list <==> exists i <- Returned(m, list) :: list[i] == e
  {
    if e in list {
      var i :| 0 <= i < |list| && list[i] == e;
      assert i in Returned(m, list);
    }
  }

  lemma HighReturns(m: map<Key, Conn>, list: seq<Entry>, e: Entry)
    ensures e in High(list) <==> exists i <- Firsts(list) :: list[i] == e
  {
    HighLowMembers(list);
    if e in High(list) {
      var i :| 0 <= i < |list| && list[i] == e;
      assert i in Firsts(list);
    }
    forall i <- Firsts(list)
      ensures list[i] in High(list)
    {
      assert list[i] in list && ResentFirst(list[i].conn);
    }
  }

  lemma KeptReturns(m: map<Key, Conn>, list: seq<Entry>, e: Entry)
    ensures e in Kept(m, list) <==> exists i <- Returned(m, list) :: list[i] == e
  {
    if |m| + |list| <= CONNECTION_MAP_MAX {
      AllReturn(m, list, e);
    } else {
      LowReturns(m, list, e);
      HighReturns(m, list, e);
      forall i: nat | i < |list| && Returns(m, list, i)
        ensures i in Returned(m, list) && (i in Firsts(list) || !ResentFirst(list[i].conn))
      {
      }
      assert forall i <- Firsts(list) :: i in Returned(m, list);
    }
  }

  lemma KeptKeys(m: map<Key, Conn>, list: seq<Entry>)
    ensures Keys(Kept(m, list)) == KeysAt(list, Returned(m, list))
  {
    forall e <- Kept(m, list)
      ensures e.key in KeysAt(list, Returned(m, list))
    {
      KeptReturns(m, list, e);
    }
    forall i <- Returned(m, list)
      ensures list[i].key in Keys(Kept(m, list))
    {
      KeptReturns(m, list, list[i]);
    }
  }

  /** After a resend the map holds exactly the entries that return, and otherwise what it held. */
  lemma ResendReturns(m: map<Key, Conn>, list: seq<Entry>)
    requires DistinctKeys(list)
    ensures PutBackExactly(m, list, Resend(m, list))
  {
    KeptDistinct(m, list);
    PutAllContents(m, Kept(m, list));
    KeptKeys(m, list);
    forall i <- Returned(m, list)
      ensures Resend(m, list)[list[i].key] == list[i].conn
    {
      KeptReturns(m, list, list[i]);
    }
  }

  function Earliest(list: seq<Entry>, n: nat, places: nat): set<nat>
    requires n <= |list|
  {
    set i <- OthersBefore(list, n) | |OthersBefore(list, i)| < places
  }

  lemma DisjointSize(a: set<nat>, b: set<nat>)
    requires a !! b
    ensures |a + b| == |a| + |b|
  {
  }

  lemma OthersNext(list: seq<Entry>, n: nat)
    requires n < |list|
    ensures OthersBefore(list, n + 1) == OthersBefore(list, n) + if n in OthersBefore(list, n + 1) then {n} else {}
    ensures |OthersBefore(list, n + 1)| == |OthersBefore(list, n)| + if n in OthersBefore(list, n + 1) then 1 else 0
  {
    DisjointSize(OthersBefore(list, n), if n in OthersBefore(list, n + 1) then {n} else {});
  }

  lemma EarliestGrows(list: seq<Entry>, n: nat, places: nat, more: set<nat>)
    requires n < |list| && more == if n in OthersBefore(list, n + 1) && |OthersBefore(list, n)| < places then {n} else {}
    ensures Earliest(list, n + 1, places) == Earliest(list, n, places) + more
  {
    OthersNext(list, n);
    var others := OthersBefore(list, n);
    forall i
      ensures i in Earliest(list, n + 1, places) <==> i in Earliest(list, n, places) || i in more
    {
      assert i in OthersBefore(list, n + 1) <==> i in others || (i == n && n in OthersBefore(list, n + 1));
    }
  }

  lemma EarliestNext(list: seq<Entry>, n: nat, places: nat)
    requires n < |list|
    ensures |Earliest(list, n + 1, places)| ==
            |Earliest(list, n, places)| + if n in OthersBefore(list, n + 1) && |OthersBefore(list, n)| < places then 1 else 0
  {
    var more := if n in OthersBefore(list, n + 1) && |OthersBefore(list, n)| < places then {n} else {};
    EarliestGrows(list, n, places, more);
    DisjointSize(Earliest(list, n, places), more);
  }

  lemma {:induction false} EarliestCount(list: seq<Entry>, n: nat, places: nat)
    requires n <= |list|
    ensures |Earliest(list, n, places)| == Min(|OthersBefore(list, n)|, places)
  {
    if n == 0 {
      assert OthersBefore(list, 0) == {} && Earliest(list, 0, places) == {};
    } else {
      EarliestCount(list, n - 1, places);
      OthersNext(list, n - 1);
      EarliestNext(list, n - 1, places);
    }
  }

  lemma ReturnedParts(m: map<Key, Conn>, list: seq<Entry>)
    ensures Returned(m, list) == Firsts(list) + if |m| + |list| <= CONNECTION_MAP_MAX then OthersBefore(list, |list|)
                                                else Earliest(list, |list|, Places(m, list))
  {
  }

  /** Of a batch that does not fit, as many low-priority entries return as there are, or as there are
      places for. */
  lemma ReturnedCount(m: map<Key, Conn>, list: seq<Entry>)
    ensures |Returned(m, list)| ==
            if |m| + |list| <= CONNECTION_MAP_MAX then |list|
            else |Firsts(list)| + Min(|OthersBefore(list, |list|)|, Places(m, list))
  {
    var others := OthersBefore(list, |list|);
    FirstsAndOthers(list);
    if |m| + |list| > CONNECTION_MAP_MAX {
      var early := Earliest(list, |list|, Places(m, list));
      EarliestCount(list, |list|, Places(m, list));
      DisjointSize(Firsts(list), early);
      ReturnedParts(m, list);
    } else {
      DisjointSize(Firsts(list), others);
      ReturnedParts(m, list);
    }
  }

  lemma KeptCount(m: map<Key, Conn>, list: seq<Entry>)
    ensures |Kept(m, list)| == |Returned(m, list)|
  {
    ReturnedCount(m, list);
    FirstsAndOthers(list);
    RoomIsPlaces(m, list);
  }

  lemma ResendIsPutBack(m: map<Key, Conn>, list: seq<Entry>, m': map<Key, Conn>, keep: nat)
    requires m' == Resend(m, list) && keep == |Kept(m, list)|
    ensures DistinctKeys(list) ==> PutBackExactly(m, list, m')
    ensures keep == |Returned(m, list)|
  {
    KeptCount(m, list);
    if DistinctKeys(list) { ResendReturns(m, list); }
  }

  /** Entries under keys that were not inserted anew fill the map up to its cap, or above it by the
      LEARN, VIOLATE and DENY ones. */
  lemma ResendFills(m: map<Key, Conn>, list: seq<Entry>)
    requires DistinctKeys(list) && forall e <- list :: e.key !in m
    ensures var cap := if |m| + |Firsts(list)| > CONNECTION_MAP_MAX then |m| + |Firsts(list)| else CONNECTION_MAP_MAX;
            |Resend(m, list)| == Min(|m| + |list|, cap)
  {
    KeptDistinct(m, list);
    PutAllFreshSize(m, Kept(m, list));
    FirstsAndOthers(list);
    HighLowDistinct(list);
    PutAllFreshSize(m, High(list));
  }

  // ---- what is dropped, and the cap

  lemma {:induction false} LostAreLow(m: map<Key, Conn>, list: seq<Entry>)
    ensures forall c <- Conns(Lost(m, list)) :: !ResentFirst(c)
  {
    HighLowMembers(list);
    var lost := Lost(m, list);
    forall i | 0 <= i < |lost|
      ensures !ResentFirst(Conns(lost)[i])
    {
      assert lost[i] in Low(list);
    }
  }

  /** In every run, a LEARN, VIOLATE or DENY connection is dropped only if a host reported it. */
  lemma {:induction false} HighPriorityIsNotDropped(steps: seq<Step>)
    ensures forall c <- Run(INIT, steps).dropped :: c.action in {ACTION_LEARN, ACTION_VIOLATE, ACTION_DENY} ==>
              exists step <- steps :: step.Host? && step.conn == c
  {
    if steps != [] {
      var init, last := steps[..|steps| - 1], steps[|steps| - 1];
      var s := Run(INIT, init);
      HighPriorityIsNotDropped(init);
      if last.Resent? && last.i < |s.inflight| { LostAreLow(s.conns, s.inflight[last.i]); }
      forall c <- Run(INIT, steps).dropped | c.action in {ACTION_LEARN, ACTION_VIOLATE, ACTION_DENY}
        ensures exists step <- steps :: step.Host? && step.conn == c
      {
        if c in s.dropped {
          var step :| step in init && step.Host? && step.conn == c;
          assert step in steps;
        } else {
          assert last in steps;
        }
      }
    }
  }

  /** The reports that go into a full map. */
  predicate Pressing(conn: Conn) { conn.action == ACTION_LEARN || conn.action > ACTION_CHECK_APP }

  predicate CalmMap(m: map<Key, Conn>) {
    |m| <= CONNECTION_MAP_MAX && forall k <- m :: !Pressing(m[k])
  }

  predicate CalmList(list: seq<Entry>) { forall e <- list :: !Pressing(e.conn) }

  predicate CalmFlight(batches: seq<seq<Entry>>) { forall list <- batches :: CalmList(list) }

  lemma {:induction false} PutAllValues(m: map<Key, Conn>, list: seq<Entry>)
    ensures forall k <- PutAll(m, list) :: (k in m && PutAll(m, list)[k] == m[k]) || Entry(k, PutAll(m, list)[k]) in list
  {
    if list != [] {
      var init, last := list[..|list| - 1], list[|list| - 1];
      assert list == init + [last];
      PutAllValues(m, init);
    }
  }

  lemma {:induction false} NoneFirst(list: seq<Entry>)
    requires CalmList(list)
    ensures High(list) == []
  {
    if list != [] {
      assert list[|list| - 1] in list;
      NoneFirst(list[..|list| - 1]);
    }
  }

  lemma ResendStaysCalm(m: map<Key, Conn>, list: seq<Entry>)
    requires CalmMap(m) && CalmList(list)
    ensures CalmMap(Resend(m, list))
  {
    NoneFirst(list);
    ResendIsBounded(m, list);
    KeptMembers(m, list);
    PutAllValues(m, Kept(m, list));
  }

  lemma ReportStaysCalm(s: State, step: Step)
    requires CalmMap(s.conns) && IsReport(step) && !Pressing(step.conn)
    ensures CalmMap(Apply(s, step).conns) && Apply(s, step).inflight == s.inflight
  {
  }

  lemma DrainStaysCalm(m: map<Key, Conn>, list: seq<Entry>)
    requires CalmMap(m) && IsDrain(m, list)
    ensures CalmMap(m - Keys(list)) && CalmList(list)
  {
    DrainSize(m, list);
  }

  lemma FlightWithout(batches: seq<seq<Entry>>, i: nat)
    requires CalmFlight(batches) && i < |batches|
    ensures CalmFlight(batches[..i] + batches[i + 1..]) && CalmList(batches[i])
  {
    assert forall l <- batches[..i] + batches[i + 1..] :: l in batches;
  }

  lemma StepStaysCalm(s: State, step: Step)
    requires CalmMap(s.conns) && CalmFlight(s.inflight) && (IsReport(step) ==> !Pressing(step.conn))
    ensures CalmMap(Apply(s, step).conns) && CalmFlight(Apply(s, step).inflight)
  {
    if IsReport(step) {
      ReportStaysCalm(s, step);
    } else if Enabled(s, step) {
      if step.Drain? {
        DrainStaysCalm(s.conns, step.list);
      } else {
        FlightWithout(s.inflight, step.i);
        if step.Resent? { ResendStaysCalm(s.conns, s.inflight[step.i]); }
      }
    }
  }

  /** In every run without reports that go into a full map, the map stays within its cap. */
  lemma {:induction false} CapHolds(steps: seq<Step>)
    requires forall step <- steps :: IsReport(step) ==> !Pressing(step.conn)
    ensures CalmMap(Run(INIT, steps).conns) && CalmFlight(Run(INIT, steps).inflight)
  {
    if steps != [] {
      CapHolds(steps[..|steps| - 1]);
      StepStaysCalm(Run(INIT, steps[..|steps| - 1]), steps[|steps| - 1]);
    }
  }

  // ---- the reporter

  lemma HighLowPrefix(list: seq<Entry>, i: nat)
    requires i < |list|
    ensures High(list[..i + 1]) == if ResentFirst(list[i].conn) then High(list[..i]) + [list[i]] else High(list[..i])
    ensures Low(list[..i + 1]) == if ResentFirst(list[i].conn) then Low(list[..i]) else Low(list[..i]) + [list[i]]
  {
    assert list[..i + 1][..i] == list[..i];
  }

  lemma PutOne(m: map<Key, Conn>, list: seq<Entry>, e: Entry)
    ensures PutAll(m, list + [e]) == PutAll(m, list)[e.key := e.conn]
  {
    assert (list + [e])[..|list|] == list;
  }

  lemma PutHighNext(m: map<Key, Conn>, list: seq<Entry>, i: nat)
    requires i < |list|
    ensures var before, after := High(list[..i]), High(list[..i + 1]);
            if ResentFirst(list[i].conn)
            then PutAll(m, after) == PutAll(m, before)[list[i].key := list[i].conn] && |after| == |before| + 1
            else after == before
  {
    HighLowPrefix(list, i);
    PutOne(m, High(list[..i]), list[i]);
  }

  lemma DrainOne(start: map<Key, Conn>, list: seq<Entry>, k: Key)
    requires DistinctKeys(list) && k in start - Keys(list)
    ensures DistinctKeys(list + [Entry(k, start[k])])
    ensures start - Keys(list + [Entry(k, start[k])]) == start - Keys(list) - {k}
  {
    DistinctAppend(list, Entry(k, start[k]));
    assert Keys(list + [Entry(k, start[k])]) == Keys(list) + {k};
  }

  function HostSteps(list: seq<Entry>): (steps: seq<Step>)
    ensures |steps| == |list| && forall i :: 0 <= i < |list| ==> steps[i] == Host(list[i].key, list[i].conn)
  {
    seq(|list|, i requires 0 <= i < |list| => Host(list[i].key, list[i].conn))
  }

  /** The loop over host connections is a run of their reports, one after the other. */
  lemma {:induction false} HostListIsRun(s: State, list: seq<Entry>)
    ensures Run(s, HostSteps(list)).conns == HostUpdateAll(s.conns, list)
  {
    if list != [] {
      var n := |list| - 1;
      HostListIsRun(s, list[..n]);
      assert HostSteps(list)[..n] == HostSteps(list[..n]);
    }
  }

  /** How many of the low-priority entries seen so far fit into `room`. */
  function Taken(list: seq<Entry>, i: nat, room: nat): seq<Entry>
    requires i <= |list|
  {
    var low := Low(list[..i]);
    if |low| <= room then low else low[..room]
  }

  lemma TakeOne(list: seq<Entry>, i: nat, room: nat)
    requires i < |list|
    ensures Taken(list, i + 1, room) ==
            if !ResentFirst(list[i].conn) && |Taken(list, i, room)| < room
            then Taken(list, i, room) + [list[i]] else Taken(list, i, room)
  {
    HighLowPrefix(list, i);
  }

  class Reporter {
    var connectionMap: map<Key, Conn>

    method UpdateConnectionMap(k: Key, conn: Conn, meshMac: bool, scopeMesh: bool)
      modifies this
      ensures connectionMap == Update(old(connectionMap), k, conn, meshMac, scopeMesh)
    {
      if k in connectionMap && connectionMap[k].mesh == meshMac {
        var entry := connectionMap[k];
        entry := entry.(amounts := WrapPlus(entry.amounts, conn.amounts, WIDTH));
        if entry.lastSeen <= conn.lastSeen {
          entry := entry.(lastSeen := conn.lastSeen, action := conn.action, policyId := conn.policyId);
        }
        if entry.severity < conn.severity {
          entry := entry.(severity := conn.severity, threatId := conn.threatId);
        }
        connectionMap := connectionMap[k := entry];
      } else if |connectionMap| < CONNECTION_MAP_MAX || conn.action > ACTION_CHECK_APP || conn.action == ACTION_LEARN {
        connectionMap := connectionMap[k := conn.(mesh := meshMac || scopeMesh)];
      }
    }

    /** Connections of host-mode containers, those without an active container already left out. */
    method UpdateHostConnection(list: seq<Entry>)
      modifies this
      ensures connectionMap == HostUpdateAll(old(connectionMap), list)
    {
      for i := 0 to |list|
        invariant connectionMap == HostUpdateAll(old(connectionMap), list[..i])
      {
        var k, conn := list[i].key, list[i].conn;
        if k in connectionMap {
          var entry := connectionMap[k];
          entry := entry.(amounts := WrapPlus(entry.amounts, conn.amounts, WIDTH));
          if entry.lastSeen <= conn.lastSeen {
            entry := entry.(lastSeen := conn.lastSeen, action := conn.action, policyId := conn.policyId);
          }
          connectionMap := connectionMap[k := entry];
        } else if |connectionMap| < CONNECTION_MAP_MAX {
          connectionMap := connectionMap[k := conn];
        }
        assert list[..i + 1][..i] == list[..i];
      }
      assert list[..|list|] == list;
    }

    /** Takes entries out of the map, in any order, until the list is full or the map empty. */
    method DrainBatch() returns (list: seq<Entry>)
      modifies this
      ensures IsDrain(old(connectionMap), list)
      ensures connectionMap == old(connectionMap) - Keys(list)
    {
      list := [];
      ghost var start := connectionMap;
      assert start - Keys(list) == start;
      while connectionMap != map[]
        invariant |list| < CONNECTION_LIST_MAX
        invariant DistinctKeys(list) && forall e <- list :: e.key in start && start[e.key] == e.conn
        invariant connectionMap == start - Keys(list)
        decreases |connectionMap|
      {
        var k :| k in connectionMap;
        DrainOne(start, list, k);
        RemoveSize(connectionMap, k);
        list := list + [Entry(k, connectionMap[k])];
        connectionMap := connectionMap - {k};
        if |list| == CONNECTION_LIST_MAX {
          break;
        }
      }
      DrainSize(start, list);
    }

    /** Puts a batch back: all of it if it fits, else the high-priority entries and then
        the others while there is room. */
    method PutBack(list: seq<Entry>) returns (keep: nat)
      modifies this
      ensures connectionMap == Resend(old(connectionMap), list)
      ensures DistinctKeys(list) ==> PutBackExactly(old(connectionMap), list, connectionMap)
      ensures keep == |Returned(old(connectionMap), list)|
    {
      ghost var start := connectionMap;
      if |connectionMap| + |list| <= CONNECTION_MAP_MAX {
        keep := |list|;
        for i := 0 to |list|
          invariant connectionMap == PutAll(start, list[..i])
        {
          assert list[..i + 1][..i] == list[..i];
          connectionMap := connectionMap[list[i].key := list[i].conn];
        }
        assert list[..|list|] == list;
      } else {
        keep := PutBackByPriority(list);
        KeptCount(start, list);
      }
      ResendIsPutBack(start, list, connectionMap, keep);
    }

    method PutBackByPriority(list: seq<Entry>) returns (keep: nat)
      requires |connectionMap| + |list| > CONNECTION_MAP_MAX
      modifies this
      ensures connectionMap == Resend(old(connectionMap), list)
      ensures DistinctKeys(list) ==> PutBackExactly(old(connectionMap), list, connectionMap)
      ensures keep == |Returned(old(connectionMap), list)|
    {
      ghost var start := connectionMap;
      var added;
      keep, added := PutHigh(list);
      if |connectionMap| < CONNECTION_MAP_MAX {
        var more := PutLow(list, added, CONNECTION_MAP_MAX - |connectionMap|);
        keep := keep + more;
      }
      assert list[..|list|] == list && Low(list)[..|Low(list)|] == Low(list);
      PutAllSplit(start, High(list), Low(list)[..Room(start, list)]);
      ResendIsPutBack(start, list, connectionMap, keep);
    }

    method PutHigh(list: seq<Entry>) returns (keep: nat, added: set<nat>)
      modifies this
      ensures connectionMap == PutAll(old(connectionMap), High(list)) && keep == |High(list)|
      ensures forall j: nat :: j in added <==> j < |list| && ResentFirst(list[j].conn)
    {
      keep, added := 0, {};
      for i := 0 to |list|
        invariant connectionMap == PutAll(old(connectionMap), High(list[..i])) && keep == |High(list[..i])|
        invariant forall j: nat :: j in added <==> j < i && ResentFirst(list[j].conn)
      {
        PutHighNext(old(connectionMap), list, i);
        if ResentFirst(list[i].conn) {
          connectionMap := connectionMap[list[i].key := list[i].conn];
          keep := keep + 1;
          added := added + {i};
        }
      }
      assert list[..|list|] == list;
    }

    method PutLow(list: seq<Entry>, added: set<nat>, room: nat) returns (keep: nat)
      requires forall j: nat :: j in added <==> j < |list| && ResentFirst(list[j].conn)
      modifies this
      ensures connectionMap == PutAll(old(connectionMap), Taken(list, |list|, room))
      ensures keep == |Taken(list, |list|, room)|
    {
      var remaining := room;
      keep := 0;
      for i := 0 to |list|
        invariant keep == |Taken(list, i, room)| == room - remaining
        invariant connectionMap == PutAll(old(connectionMap), Taken(list, i, room))
      {
        TakeOne(list, i, room);
        if i !in added && remaining > 0 {
          PutOne(old(connectionMap), Taken(list, i, room), list[i]);
          connectionMap := connectionMap[list[i].key := list[i].conn];
          keep := keep + 1;
          remaining := remaining - 1;
        }
      }
    }
  }
}
