/** Turning assets with their vulnerabilities into vulnerabilities with their assets (db/vulassets.go).

    A pool of workers goes through the assets. For each vulnerability of its asset a
    worker enters one critical section on the shared result; sections of different
    workers interleave freely. */
module VulAssets {

  datatype Kind = Platform | Node | Workload | Image | OtherKind

  datatype Cve = Cve(name: string, dbkey: string, fix: string)

  datatype Asset = Asset(kind: Kind, id: string, cves: seq<Cve>)

  datatype Rec = Rec(dbkey: string, platforms: seq<string>, nodes: seq<string>, workloads: seq<string>, images: seq<string>,
                     withFix: bool, hasNonFix: bool)

  type Db = map<string, Rec>

  /** One critical section: a vulnerability of an asset. */
  datatype Event = Event(cve: Cve, kind: Kind, id: string)

  function AddItem(r: Rec, kind: Kind, id: string): Rec {
    match kind
    case Platform => r.(platforms := r.platforms + [id])
    case Node => r.(nodes := r.nodes + [id])
    case Workload => r.(workloads := r.workloads + [id])
    case Image => r.(images := r.images + [id])
    case OtherKind => r
  }

  function Section(db: Db, e: Event): Db {
    var r := if e.cve.name in db then db[e.cve.name] else Rec(e.cve.dbkey, [], [], [], [], false, false);
    var r1 := AddItem(r, e.kind, e.id);
    var r2 := if e.cve.fix == "wf" then r1.(withFix := true) else r1;
    var r3 := if e.cve.fix == "nf" then r2.(hasNonFix := true) else r2;
    db[e.cve.name := r3]
  }

  function EventOf(a: Asset, j: nat): Event
    requires j < |a.cves|
  {
    Event(a.cves[j], a.kind, a.id)
  }

  // ---- interleavings

  /** How far each worker has come through its asset's list. */
  datatype State = State(db: Db, pcs: seq<nat>)

  predicate Shape(assets: seq<Asset>, s: State) {
    |s.pcs| == |assets| && forall i :: 0 <= i < |assets| ==> s.pcs[i] <= |assets[i].cves|
  }

  function Start(assets: seq<Asset>): State { State(map[], seq(|assets|, _ => 0)) }

  /** The next critical section of the i-th asset, if it has one left. */
  function Apply(assets: seq<Asset>, s: State, i: nat): (s': State)
    requires Shape(assets, s)
    ensures Shape(assets, s')
  {
    if i < |assets| && s.pcs[i] < |assets[i].cves|
    then State(Section(s.db, EventOf(assets[i], s.pcs[i])), s.pcs[i := s.pcs[i] + 1])
    else s
  }

  function Run(assets: seq<Asset>, schedule: seq<nat>): (s: State)
    ensures Shape(assets, s)
  {
    if schedule == [] then Start(assets)
    else Apply(assets, Run(assets, schedule[..|schedule| - 1]), schedule[|schedule| - 1])
  }

  predicate Finished(assets: seq<Asset>, s: State)
    requires Shape(assets, s)
  {
    forall i :: 0 <= i < |assets| ==> s.pcs[i] == |assets[i].cves|
  }

  // ---- what is counted

  type Measure = Event -> nat

  function Listed(name: string, kind: Kind, id: string): Measure {
    (e: Event) => if e.cve.name == name && e.kind == kind && e.id == id then 1 else 0
  }

  function OfKind(name: string, kind: Kind): Measure {
    (e: Event) => if e.cve.name == name && e.kind == kind then 1 else 0
  }

  function Named(name: string): Measure { (e: Event) => if e.cve.name == name then 1 else 0 }

  function Fixed(name: string, fix: string): Measure {
    (e: Event) => if e.cve.name == name && e.cve.fix == fix then 1 else 0
  }

  /** The measure over the first n vulnerabilities of an asset. */
  function Upto(a: Asset, n: nat, w: Measure): nat
    requires n <= |a.cves|
  {
    if n == 0 then 0 else Upto(a, n - 1, w) + w(EventOf(a, n - 1))
  }

  function Total(assets: seq<Asset>, pcs: seq<nat>, w: Measure): nat
    requires |pcs| == |assets| && forall i :: 0 <= i < |assets| ==> pcs[i] <= |assets[i].cves|
  {
    if assets == [] then 0
    else
      var n := |assets| - 1;
      Total(assets[..n], pcs[..n], w) + Upto(assets[n], pcs[n], w)
  }

  function Complete(assets: seq<Asset>): (pcs: seq<nat>)
    ensures |pcs| == |assets| && forall i :: 0 <= i < |assets| ==> pcs[i] == |assets[i].cves|
  {
    seq(|assets|, i requires 0 <= i < |assets| => |assets[i].cves|)
  }

  /** The measure over the assets' own lists, whatever the schedule. */
  function InLists(assets: seq<Asset>, w: Measure): nat { Total(assets, Complete(assets), w) }

  lemma {:induction false} TotalAdvance(assets: seq<Asset>, pcs: seq<nat>, i: nat, w: Measure)
    requires |pcs| == |assets| && i < |assets| && pcs[i] < |assets[i].cves|
    requires forall k :: 0 <= k < |assets| ==> pcs[k] <= |assets[k].cves|
    ensures Total(assets, pcs[i := pcs[i] + 1], w) == Total(assets, pcs, w) + w(EventOf(assets[i], pcs[i]))
  {
    var n := |assets| - 1;
    if i == n {
      assert pcs[i := pcs[i] + 1][..n] == pcs[..n];
    } else {
      assert pcs[i := pcs[i] + 1][..n] == pcs[..n][i := pcs[i] + 1];
      TotalAdvance(assets[..n], pcs[..n], i, w);
    }
  }

  lemma {:induction false} TotalStart(assets: seq<Asset>, w: Measure)
    ensures Total(assets, Start(assets).pcs, w) == 0
  {
    if assets != [] {
      var n := |assets| - 1;
      assert Start(assets).pcs[..n] == Start(assets[..n]).pcs;
      TotalStart(assets[..n], w);
    }
  }

  // ---- what the result holds

  function Items(db: Db, name: string, kind: Kind): seq<string> {
    if name !in db then []
    else
      match kind
      case Platform => db[name].platforms
      case Node => db[name].nodes
      case Workload => db[name].workloads
      case Image => db[name].images
      case OtherKind => []
  }

  predicate WithFix(db: Db, name: string) { name in db && db[name].withFix }

  predicate HasNonFix(db: Db, name: string) { name in db && db[name].hasNonFix }

  /** Assets listed under a vulnerability, as counted by the sections that have run. */
  ghost predicate ItemsCounted(assets: seq<Asset>, s: State, name: string, kind: Kind, id: string)
    requires Shape(assets, s)
  {
    && multiset(Items(s.db, name, kind))[id] == Total(assets, s.pcs, Listed(name, kind, id))
    && |Items(s.db, name, kind)| == Total(assets, s.pcs, OfKind(name, kind))
  }

  ghost predicate FlagsCounted(assets: seq<Asset>, s: State, name: string)
    requires Shape(assets, s)
  {
    && (name in s.db <==> Total(assets, s.pcs, Named(name)) > 0)
    && (WithFix(s.db, name) <==> Total(assets, s.pcs, Fixed(name, "wf")) > 0)
    && (HasNonFix(s.db, name) <==> Total(assets, s.pcs, Fixed(name, "nf")) > 0)
  }

  lemma SectionItems(db: Db, e: Event, name: string, kind: Kind)
    ensures Items(Section(db, e), name, kind) ==
            if e.cve.name == name && e.kind == kind && kind != OtherKind then Items(db, name, kind) + [e.id] else Items(db, name, kind)
    ensures name in Section(db, e) <==> name in db || e.cve.name == name
    ensures WithFix(Section(db, e), name) <==> WithFix(db, name) || (e.cve.name == name && e.cve.fix == "wf")
    ensures HasNonFix(Section(db, e), name) <==> HasNonFix(db, name) || (e.cve.name == name && e.cve.fix == "nf")
  {
  }

  lemma StepCountsListed(assets: seq<Asset>, s: State, i: nat, name: string, kind: Kind, id: string)
    requires Shape(assets, s) && kind != OtherKind
    requires multiset(Items(s.db, name, kind))[id] == Total(assets, s.pcs, Listed(name, kind, id))
    ensures var s' := Apply(assets, s, i);
            multiset(Items(s'.db, name, kind))[id] == Total(assets, s'.pcs, Listed(name, kind, id))
  {
    if i < |assets| && s.pcs[i] < |assets[i].cves| {
      SectionItems(s.db, EventOf(assets[i], s.pcs[i]), name, kind);
      TotalAdvance(assets, s.pcs, i, Listed(name, kind, id));
    }
  }

  lemma StepCountsKind(assets: seq<Asset>, s: State, i: nat, name: string, kind: Kind)
    requires Shape(assets, s) && kind != OtherKind
    requires |Items(s.db, name, kind)| == Total(assets, s.pcs, OfKind(name, kind))
    ensures var s' := Apply(assets, s, i);
            |Items(s'.db, name, kind)| == Total(assets, s'.pcs, OfKind(name, kind))
  {
    if i < |assets| && s.pcs[i] < |assets[i].cves| {
      SectionItems(s.db, EventOf(assets[i], s.pcs[i]), name, kind);
      TotalAdvance(assets, s.pcs, i, OfKind(name, kind));
    }
  }

  lemma StepCountsItems(assets: seq<Asset>, s: State, i: nat, name: string, kind: Kind, id: string)
    requires Shape(assets, s) && kind != OtherKind && ItemsCounted(assets, s, name, kind, id)
    ensures ItemsCounted(assets, Apply(assets, s, i), name, kind, id)
  {
    StepCountsListed(assets, s, i, name, kind, id);
    StepCountsKind(assets, s, i, name, kind);
  }

  lemma StepCountsFlags(assets: seq<Asset>, s: State, i: nat, name: string)
    requires Shape(assets, s) && FlagsCounted(assets, s, name)
    ensures FlagsCounted(assets, Apply(assets, s, i), name)
  {
    if i < |assets| && s.pcs[i] < |assets[i].cves| {
      SectionItems(s.db, EventOf(assets[i], s.pcs[i]), name, Image);
      TotalAdvance(assets, s.pcs, i, Named(name));
      TotalAdvance(assets, s.pcs, i, Fixed(name, "wf"));
      TotalAdvance(assets, s.pcs, i, Fixed(name, "nf"));
    }
  }

  lemma {:induction false} RunCountsItems(assets: seq<Asset>, schedule: seq<nat>, name: string, kind: Kind, id: string)
    requires kind != OtherKind
    ensures ItemsCounted(assets, Run(assets, schedule), name, kind, id)
  {
    if schedule == [] {
      TotalStart(assets, Listed(name, kind, id));
      TotalStart(assets, OfKind(name, kind));
    } else {
      RunCountsItems(assets, schedule[..|schedule| - 1], name, kind, id);
      StepCountsItems(assets, Run(assets, schedule[..|schedule| - 1]), schedule[|schedule| - 1], name, kind, id);
    }
  }

  lemma {:induction false} RunCountsFlags(assets: seq<Asset>, schedule: seq<nat>, name: string)
    ensures FlagsCounted(assets, Run(assets, schedule), name)
  {
    if schedule == [] {
      TotalStart(assets, Named(name));
      TotalStart(assets, Fixed(name, "wf"));
      TotalStart(assets, Fixed(name, "nf"));
    } else {
      RunCountsFlags(assets, schedule[..|schedule| - 1], name);
      StepCountsFlags(assets, Run(assets, schedule[..|schedule| - 1]), schedule[|schedule| - 1], name);
    }
  }

  /** Whatever the interleaving, once all workers are done an asset stands under a vulnerability
      exactly as often as that vulnerability stands in the asset's list, a vulnerability is present
      exactly when some list names it, and its two fix flags say whether some list says so. */
  lemma EveryScheduleCounts(assets: seq<Asset>, schedule: seq<nat>, name: string, kind: Kind, id: string)
    requires Finished(assets, Run(assets, schedule)) && kind != OtherKind
    ensures var db := Run(assets, schedule).db;
            && multiset(Items(db, name, kind))[id] == InLists(assets, Listed(name, kind, id))
            && |Items(db, name, kind)| == InLists(assets, OfKind(name, kind))
            && (name in db <==> InLists(assets, Named(name)) > 0)
            && (WithFix(db, name) <==> InLists(assets, Fixed(name, "wf")) > 0)
            && (HasNonFix(db, name) <==> InLists(assets, Fixed(name, "nf")) > 0)
  {
    RunCountsItems(assets, schedule, name, kind, id);
    RunCountsFlags(assets, schedule, name);
    assert Run(assets, schedule).pcs == Complete(assets);
  }

  /** Two results differ at most in database keys and in the order of assets. */
  ghost predicate SameResult(db: Db, db': Db) {
    && db.Keys == db'.Keys
    && (forall n, k :: multiset(Items(db, n, k)) == multiset(Items(db', n, k)))
    && (forall n :: WithFix(db, n) == WithFix(db', n) && HasNonFix(db, n) == HasNonFix(db', n))
  }

  /** All complete interleavings, the one-asset-after-another one among them, agree. */
  lemma SchedulesAgree(assets: seq<Asset>, schedule: seq<nat>, schedule': seq<nat>)
    requires Finished(assets, Run(assets, schedule)) && Finished(assets, Run(assets, schedule'))
    ensures SameResult(Run(assets, schedule).db, Run(assets, schedule').db)
  {
    var db, db' := Run(assets, schedule).db, Run(assets, schedule').db;
    forall n
      ensures n in db <==> n in db'
      ensures WithFix(db, n) == WithFix(db', n) && HasNonFix(db, n) == HasNonFix(db', n)
    {
      EveryScheduleCounts(assets, schedule, n, Image, "");
      EveryScheduleCounts(assets, schedule', n, Image, "");
    }
    forall n, k
      ensures multiset(Items(db, n, k)) == multiset(Items(db', n, k))
    {
      if k != OtherKind {
        forall id
          ensures multiset(Items(db, n, k))[id] == multiset(Items(db', n, k))[id]
        {
          EveryScheduleCounts(assets, schedule, n, k, id);
          EveryScheduleCounts(assets, schedule', n, k, id);
        }
      }
    }
  }

  // ---- one asset after another

  lemma RunAppend(assets: seq<Asset>, schedule: seq<nat>, i: nat)
    ensures Run(assets, schedule + [i]) == Apply(assets, Run(assets, schedule), i)
  {
    assert (schedule + [i])[..|schedule|] == schedule;
  }

  /** One worker going through one asset after another. */
  method RunInOrder(assets: seq<Asset>) returns (db: Db, ghost schedule: seq<nat>)
    ensures db == Run(assets, schedule).db && Finished(assets, Run(assets, schedule))
  {
    db, schedule := map[], [];
    for i := 0 to |assets|
      invariant var s := Run(assets, schedule);
                db == s.db && forall k :: 0 <= k < |assets| ==> s.pcs[k] == if k < i then |assets[k].cves| else 0
    {
      var a := assets[i];
      for j := 0 to |a.cves|
        invariant var s := Run(assets, schedule);
                  db == s.db && forall k :: 0 <= k < |assets| ==>
                    s.pcs[k] == if k < i then |assets[k].cves| else if k == i then j else 0
      {
        RunAppend(assets, schedule, i);
        schedule := schedule + [i];
        var c := a.cves[j];
        var r := if c.name in db then db[c.name] else Rec(c.dbkey, [], [], [], [], false, false);
        r := AddItem(r, a.kind, a.id);
        if c.fix == "wf" {
          r := r.(withFix := true);
        }
        if c.fix == "nf" {
          r := r.(hasNonFix := true);
        }
        db := db[c.name := r];
      }
    }
  }

  /** What a single worker computes counts the lists, and every other schedule agrees with it. */
  method BatchProcess(assets: seq<Asset>) returns (db: Db)
    ensures forall name: string, kind: Kind, id: string | kind != OtherKind ::
              multiset(Items(db, name, kind))[id] == InLists(assets, Listed(name, kind, id))
    ensures forall name: string :: name in db <==> InLists(assets, Named(name)) > 0
    ensures forall schedule: seq<nat> | Finished(assets, Run(assets, schedule)) :: SameResult(db, Run(assets, schedule).db)
  {
    ghost var order: seq<nat>;
    db, order := RunInOrder(assets);
    forall name: string, kind: Kind, id: string | kind != OtherKind
      ensures multiset(Items(db, name, kind))[id] == InLists(assets, Listed(name, kind, id))
    {
      EveryScheduleCounts(assets, order, name, kind, id);
    }
    forall name: string
      ensures name in db <==> InLists(assets, Named(name)) > 0
    {
      EveryScheduleCounts(assets, order, name, Image, "");
    }
    forall schedule: seq<nat> | Finished(assets, Run(assets, schedule))
      ensures SameResult(db, Run(assets, schedule).db)
    {
      SchedulesAgree(assets, order, schedule);
    }
  }

  // ---- filtering the result

  datatype ViewType = AllTypes | Containers | Infrastructure | Registry | OtherView

  predicate InView(r: Rec, view: ViewType) {
    match view
    case AllTypes => true
    case Containers => |r.workloads| > 0
    case Infrastructure => |r.nodes| > 0 || |r.platforms| > 0
    case Registry => |r.images| > 0
    case OtherView => false
  }

  datatype Row = Row(name: string, rec: Rec, meetSearch: bool, impactWeight: nat)

  function Impact(r: Rec): nat { |r.workloads| + |r.nodes| + |r.images| + |r.platforms| }

  /** Rows that fail the search are kept, unweighted; rows that meet it are kept if in view. */
  function RowOf(name: string, r: Rec, meets: bool): Row {
    Row(name, r, meets, if meets then Impact(r) else 0)
  }

  predicate Kept(r: Rec, meets: bool, view: ViewType) { Impact(r) > 0 && (!meets || InView(r, view)) }

  predicate IsRow(db: Db, meets: Rec -> bool, view: ViewType, row: Row) {
    && row.name in db
    && var r := db[row.name];
    Kept(r, meets(r), view) && row == RowOf(row.name, r, meets(r))
  }

  /** The vulnerabilities found on some platform, node, workload or image. */
  function Found(db: Db, names: set<string>): set<string> {
    set n <- names | n in db && Impact(db[n]) > 0
  }

  lemma FoundMore(db: Db, names: set<string>, n: string)
    requires n in db && n !in names
    ensures |Found(db, names + {n})| == |Found(db, names)| + if Impact(db[n]) > 0 then 1 else 0
  {
    assert Found(db, names + {n}) == Found(db, names) + if Impact(db[n]) > 0 then {n} else {};
  }

  /** The rows are those of the names not in `rest`, each once. */
  ghost predicate RowsOf(db: Db, meets: Rec -> bool, view: ViewType, rest: set<string>, rows: seq<Row>) {
    && (forall row :: row in rows <==> row.name !in rest && IsRow(db, meets, view, row))
    && forall i, j :: 0 <= i < j < |rows| ==> rows[i].name != rows[j].name
  }

  lemma NextRow(db: Db, meets: Rec -> bool, view: ViewType, rest: set<string>, rows: seq<Row>, n: string)
    requires RowsOf(db, meets, view, rest, rows) && n in rest && n in db
    ensures var r := db[n];
            RowsOf(db, meets, view, rest - {n}, rows + if Kept(r, meets(r), view) then [RowOf(n, r, meets(r))] else [])
  {
    var r := db[n];
    assert forall i :: 0 <= i < |rows| ==> rows[i] in rows;
    if !Kept(r, meets(r), view) { assert rows + [] == rows; }
  }

  /** A row shows its vulnerability and whether that meets the search; if so, it weighs as much as there
      are assets listed under it, otherwise nothing. */
  predicate Weighted(db: Db, meets: Rec -> bool, row: Row) {
    && row.name in db && row.rec == db[row.name] && row.meetSearch == meets(row.rec)
    && row.impactWeight ==
       if row.meetSearch
       then |row.rec.platforms| + |row.rec.nodes| + |row.rec.workloads| + |row.rec.images| else 0
  }

  /** Goes through the result in any order; `meets` is the search filter. */
  method FilterVulAssets(db: Db, meets: Rec -> bool, view: ViewType) returns (rows: seq<Row>, total: nat)
    ensures total == |Found(db, db.Keys)|
    ensures forall row :: row in rows <==> IsRow(db, meets, view, row)
    ensures forall i, j :: 0 <= i < j < |rows| ==> rows[i].name != rows[j].name
    ensures forall row <- rows :: Weighted(db, meets, row)
  {
    rows, total := [], 0;
    var rest := db.Keys;
    while rest != {}
      invariant rest <= db.Keys && total == |Found(db, db.Keys - rest)|
      invariant RowsOf(db, meets, view, rest, rows)
    {
      var n :| n in rest;
      FoundMore(db, db.Keys - rest, n);
      assert db.Keys - (rest - {n}) == db.Keys - rest + {n};
      NextRow(db, meets, view, rest, rows, n);
      rest := rest - {n};
      var r := db[n];
      if |r.workloads| == 0 && |r.nodes| == 0 && |r.images| == 0 && |r.platforms| == 0 {
        continue;
      }
      total := total + 1;
      if !meets(r) {
        rows := rows + [Row(n, r, false, 0)];
      } else if InView(r, view) {
        rows := rows + [Row(n, r, true, |r.workloads| + |r.nodes| + |r.images| + |r.platforms|)];
      }
    }
    assert db.Keys - {} == db.Keys;
  }

  /** For every interleaving, the weight of a kept row is the number of times its vulnerability
      stands in the lists of platforms, nodes, workloads and images. */
  lemma ImpactIsOccurrences(assets: seq<Asset>, schedule: seq<nat>, name: string)
    requires Finished(assets, Run(assets, schedule)) && name in Run(assets, schedule).db
    ensures Impact(Run(assets, schedule).db[name]) ==
            InLists(assets, OfKind(name, Workload)) + InLists(assets, OfKind(name, Node))
            + InLists(assets, OfKind(name, Image)) + InLists(assets, OfKind(name, Platform))
  {
    EveryScheduleCounts(assets, schedule, name, Workload, "");
    EveryScheduleCounts(assets, schedule, name, Node, "");
    EveryScheduleCounts(assets, schedule, name, Image, "");
    EveryScheduleCounts(assets, schedule, name, Platform, "");
  }

  // ---- the rows in terms of the assets

  /** Some asset of the kind lists the vulnerability. */
  ghost predicate On(assets: seq<Asset>, name: string, kind: Kind) {
    exists i, j :: 0 <= i < |assets| && 0 <= j < |assets[i].cves| && assets[i].kind == kind && assets[i].cves[j].name == name
  }

  lemma {:induction false} UptoPositive(a: Asset, n: nat, w: Measure)
    requires n <= |a.cves|
    ensures Upto(a, n, w) > 0 <==> exists j :: 0 <= j < n && w(EventOf(a, j)) > 0
  {
    if n > 0 { UptoPositive(a, n - 1, w); }
  }

  lemma {:induction false} InListsPositive(assets: seq<Asset>, w: Measure)
    ensures InLists(assets, w) > 0 <==> exists i :: 0 <= i < |assets| && Upto(assets[i], |assets[i].cves|, w) > 0
  {
    if assets != [] {
      var n := |assets| - 1;
      InListsPositive(assets[..n], w);
      assert Complete(assets)[..n] == Complete(assets[..n]);
    }
  }

  lemma ListedMeans(assets: seq<Asset>, name: string, kind: Kind)
    ensures InLists(assets, OfKind(name, kind)) > 0 <==> On(assets, name, kind)
  {
    var w := OfKind(name, kind);
    InListsPositive(assets, w);
    if On(assets, name, kind) {
      var i, j :| 0 <= i < |assets| && 0 <= j < |assets[i].cves| && assets[i].kind == kind && assets[i].cves[j].name == name;
      UptoPositive(assets[i], |assets[i].cves|, w);
      assert w(EventOf(assets[i], j)) > 0;
    }
    if InLists(assets, w) > 0 {
      var i :| 0 <= i < |assets| && Upto(assets[i], |assets[i].cves|, w) > 0;
      UptoPositive(assets[i], |assets[i].cves|, w);
      var j :| 0 <= j < |assets[i].cves| && w(EventOf(assets[i], j)) > 0;
      assert assets[i].cves[j].name == name;
    }
  }

  lemma HeldMeans(assets: seq<Asset>, schedule: seq<nat>, name: string, kind: Kind)
    requires Finished(assets, Run(assets, schedule)) && kind != OtherKind
    ensures |Items(Run(assets, schedule).db, name, kind)| > 0 <==> On(assets, name, kind)
  {
    EveryScheduleCounts(assets, schedule, name, kind, "");
    ListedMeans(assets, name, kind);
  }

  /** What the view is about lists the vulnerability. */
  ghost predicate Viewed(assets: seq<Asset>, name: string, view: ViewType) {
    match view
    case AllTypes => true
    case Containers => On(assets, name, Workload)
    case Infrastructure => On(assets, name, Node) || On(assets, name, Platform)
    case Registry => On(assets, name, Image)
    case OtherView => false
  }

  /** For every interleaving: a vulnerability has a row if and only if some platform, node, workload or
      image lists it and, if it meets the search, one of those the view is about does. */
  lemma RowsByAssets(assets: seq<Asset>, schedule: seq<nat>, meets: Rec -> bool, view: ViewType, name: string)
    requires Finished(assets, Run(assets, schedule))
    ensures var db := Run(assets, schedule).db;
            (exists row: Row :: row.name == name && IsRow(db, meets, view, row)) <==>
            && name in db
            && (On(assets, name, Platform) || On(assets, name, Node) || On(assets, name, Workload) || On(assets, name, Image))
            && (meets(db[name]) ==> Viewed(assets, name, view))
  {
    var db := Run(assets, schedule).db;
    HeldMeans(assets, schedule, name, Platform);
    HeldMeans(assets, schedule, name, Node);
    HeldMeans(assets, schedule, name, Workload);
    HeldMeans(assets, schedule, name, Image);
    if name in db {
      var r := db[name];
      assert |Items(db, name, Platform)| == |r.platforms| && |Items(db, name, Node)| == |r.nodes|;
      assert |Items(db, name, Workload)| == |r.workloads| && |Items(db, name, Image)| == |r.images|;
      if Kept(r, meets(r), view) { assert IsRow(db, meets, view, RowOf(name, r, meets(r))); }
    }
  }
}
