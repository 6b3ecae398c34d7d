/** Stacking the merged process rules of a workload's groups and service by tier (agent/group_profile.go). */
module ProcessTiers {
  import opened Options
  import opened ProcessProfile
  import opened Sequences

  // ---- tiers

  datatype Group = Group(name: string, member: bool, rules: seq<Entry>)

  predicate Federal(g: Group) { |g.name| >= 4 && g.name[..4] == "fed." }

  lemma FederalMeans(g: Group)
    ensures Federal(g) <==> exists rest: string :: g.name == "fed." + rest
  {
    if Federal(g) { assert g.name == "fed." + g.name[4..]; }
  }

  function Ground(rules: seq<Entry>, ground: bool): seq<Entry> {
    if rules == [] then []
    else if rules[|rules| - 1].ground == ground then Ground(rules[..|rules| - 1], ground) + [rules[|rules| - 1]]
    else Ground(rules[..|rules| - 1], ground)
  }

  datatype Tiers = Tiers(fed: seq<Entry>, crd: seq<Entry>, other: seq<Entry>)

  function AddRules(t: Tiers, rules: seq<Entry>): Tiers {
    t.(crd := t.crd + Ground(rules, true), other := t.other + Ground(rules, false))
  }

  function Collect(groups: seq<Group>): Tiers {
    if groups == [] then Tiers([], [], [])
    else
      var t, g := Collect(groups[..|groups| - 1]), groups[|groups| - 1];
      if !g.member then t
      else if Federal(g) then t.(fed := t.fed + g.rules)
      else AddRules(t, g.rules)
  }

  ghost predicate TiersDistinguish(t: Tiers) {
    KeysDistinguish(t.fed) && KeysDistinguish(t.crd) && KeysDistinguish(t.other)
  }

  ghost predicate StackedAt(t: Tiers, list: seq<Entry>, i: nat, j: nat) {
    && i <= j <= |list|
    && IsMerge(t.fed, list[..i]) && IsMerge(t.crd, list[i..j]) && IsMerge(t.other, list[j..])
  }

  /** Federal rules on top, then rules from custom resources, then all others. */
  ghost predicate IsStack(t: Tiers, list: seq<Entry>) {
    exists i: nat, j: nat :: StackedAt(t, list, i, j)
  }

  /** The same with what the maps hold, whether or not their keys tell rules apart. */
  ghost predicate BucketedAt(t: Tiers, list: seq<Entry>, i: nat, j: nat) {
    && i <= j <= |list|
    && Bucketed(t.fed, list[..i]) && Bucketed(t.crd, list[i..j]) && Bucketed(t.other, list[j..])
  }

  lemma BucketedStacks(t: Tiers, list: seq<Entry>, i: nat, j: nat)
    requires BucketedAt(t, list, i, j)
    ensures StackedAt(t, list, i, j) <==> TiersDistinguish(t)
  {
    MergesWhenDistinguished(t.fed, list[..i]);
    MergesWhenDistinguished(t.crd, list[i..j]);
    MergesWhenDistinguished(t.other, list[j..]);
  }

  method SplitRules(rules: seq<Entry>) returns (crd: seq<Entry>, other: seq<Entry>)
    ensures crd == Ground(rules, true) && other == Ground(rules, false)
  {
    crd, other := [], [];
    for i := 0 to |rules|
      invariant crd == Ground(rules[..i], true) && other == Ground(rules[..i], false)
    {
      assert rules[..i + 1][..i] == rules[..i];
      if rules[i].ground {
        crd := crd + [rules[i]];
      } else {
        other := other + [rules[i]];
      }
    }
    assert rules[..|rules|] == rules;
  }

  /** One tier's rules merged; an empty tier is left alone. */
  method MergeTier(rules: seq<Entry>) returns (list: seq<Entry>)
    ensures Bucketed(rules, list)
  {
    list := [];
    if |rules| > 0 {
      list := MergeProcessProfiles(rules);
    }
  }

  method CollectTiers(groups: seq<Group>) returns (fed: seq<Entry>, crd: seq<Entry>, other: seq<Entry>)
    ensures Tiers(fed, crd, other) == Collect(groups)
  {
    fed, crd, other := [], [], [];
    for i := 0 to |groups|
      invariant Tiers(fed, crd, other) == Collect(groups[..i])
    {
      assert groups[..i + 1][..i] == groups[..i];
      var g := groups[i];
      if g.member {
        if Federal(g) {
          fed := fed + g.rules;
        } else {
          var c, o := SplitRules(g.rules);
          crd, other := crd + c, other + o;
        }
      }
    }
    assert groups[..|groups|] == groups;
  }

  lemma TierParts(t: Tiers, top: seq<Entry>, middle: seq<Entry>, bottom: seq<Entry>)
    requires Bucketed(t.fed, top) && Bucketed(t.crd, middle) && Bucketed(t.other, bottom)
    ensures BucketedAt(t, top + middle + bottom, |top|, |top| + |middle|)
  {
    var all := top + middle + bottom;
    assert all[..|top|] == top && all[|top|..|top| + |middle|] == middle && all[|top| + |middle|..] == bottom;
  }

  // ---- which rules prevail

  datatype Tier = Fed | Crd | Other

  function TierOf(g: Group, e: Entry): Tier { if Federal(g) then Fed else if e.ground then Crd else Other }

  function InTier(t: Tiers, tier: Tier): seq<Entry> {
    match tier
    case Fed => t.fed
    case Crd => t.crd
    case Other => t.other
  }

  /** All that gives rules to a workload, in order: its groups as the group map is walked, then its service. */
  function Sources(groups: seq<Group>, service: seq<Entry>): seq<Group> { groups + [Group("", true, service)] }

  /** Rule i of source g goes into the tier. */
  predicate Offers(gs: seq<Group>, tier: Tier, g: nat, i: nat) {
    g < |gs| && i < |gs[g].rules| && gs[g].member && TierOf(gs[g], gs[g].rules[i]) == tier
  }

  predicate Later(g: nat, i: nat, g': nat, i': nat) { g < g' || (g == g' && i < i') }

  /** No later rule of the tier has its name, path and action, and it does not deny everything. */
  ghost predicate Prevails(gs: seq<Group>, tier: Tier, g: nat, i: nat) {
    && Offers(gs, tier, g, i) && !DeniesAll(gs[g].rules[i])
    && forall g': nat, i': nat :: Offers(gs, tier, g', i') && Later(g, i, g', i') ==>
         !SameRule(gs[g'].rules[i'], gs[g].rules[i])
  }

  ghost predicate Prevailing(gs: seq<Group>, tier: Tier, e: Entry) {
    exists g: nat, i: nat :: Prevails(gs, tier, g, i) && gs[g].rules[i] == e
  }

  lemma SourcesCollect(groups: seq<Group>, service: seq<Entry>)
    ensures Collect(Sources(groups, service)) == AddRules(Collect(groups), service)
  {
    assert Sources(groups, service)[..|groups|] == groups;
  }

  /** What one source adds to a tier. */
  function Part(g: Group, tier: Tier): seq<Entry> {
    if !g.member || tier.Fed? != Federal(g) then []
    else if tier.Fed? then g.rules
    else Ground(g.rules, tier.Crd?)
  }

  lemma CollectAppend(gs: seq<Group>, tier: Tier)
    requires gs != []
    ensures InTier(Collect(gs), tier) == InTier(Collect(gs[..|gs| - 1]), tier) + Part(gs[|gs| - 1], tier)
  {
  }

  function Wanted(g: Group, tier: Tier): Entry -> bool { (e: Entry) => g.member && TierOf(g, e) == tier }

  lemma {:induction false} GroundIsFilter(rules: seq<Entry>, ground: bool, want: Entry -> bool)
    requires forall e :: want(e) <==> e.ground == ground
    ensures Ground(rules, ground) == Filter(rules, want)
  {
    if rules != [] { GroundIsFilter(rules[..|rules| - 1], ground, want); }
  }

  lemma {:induction false} FilterAll(rules: seq<Entry>, want: Entry -> bool, all: bool)
    requires forall e :: want(e) <==> all
    ensures Filter(rules, want) == if all then rules else []
  {
    if rules != [] { FilterAll(rules[..|rules| - 1], want, all); }
  }

  lemma PartIsFilter(g: Group, tier: Tier)
    ensures Part(g, tier) == Filter(g.rules, Wanted(g, tier))
  {
    if g.member && !tier.Fed? && !Federal(g) {
      GroundIsFilter(g.rules, tier.Crd?, Wanted(g, tier));
    } else {
      FilterAll(g.rules, Wanted(g, tier), g.member && tier.Fed? && Federal(g));
    }
  }

  predicate Fit(gs: seq<Group>, tier: Tier, cur: seq<Entry>, at: seq<(nat, nat)>) {
    && |at| == |cur|
    && forall k :: 0 <= k < |at| ==> Offers(gs, tier, at[k].0, at[k].1) && cur[k] == gs[at[k].0].rules[at[k].1]
  }

  predicate Rise(at: seq<(nat, nat)>) {
    forall k, l :: 0 <= k < l < |at| ==> Later(at[k].0, at[k].1, at[l].0, at[l].1)
  }

  ghost predicate Cover(gs: seq<Group>, tier: Tier, at: seq<(nat, nat)>) {
    forall g: nat, i: nat :: Offers(gs, tier, g, i) ==> (g, i) in at
  }

  /** The places, source by source, of the rules of a tier. */
  ghost predicate Placed(gs: seq<Group>, tier: Tier, cur: seq<Entry>, at: seq<(nat, nat)>) {
    Fit(gs, tier, cur, at) && Rise(at) && Cover(gs, tier, at)
  }

  function InSource(g: nat, at: seq<nat>): seq<(nat, nat)> { seq(|at|, k requires 0 <= k < |at| => (g, at[k])) }

  lemma FitNext(gs: seq<Group>, tier: Tier, cur: seq<Entry>, at: seq<(nat, nat)>, part: seq<Entry>, more: seq<nat>)
    requires gs != [] && Fit(gs[..|gs| - 1], tier, cur, at)
    requires var g := gs[|gs| - 1]; ArePlaces(g.rules, Wanted(g, tier), more) && StandsAt(g.rules, more, part)
    ensures Fit(gs, tier, cur + part, at + InSource(|gs| - 1, more))
  {
    var n := |gs| - 1;
    var all := at + InSource(n, more);
    forall k | 0 <= k < |all|
      ensures Offers(gs, tier, all[k].0, all[k].1) && (cur + part)[k] == gs[all[k].0].rules[all[k].1]
    {
      if k < |at| {
        assert Offers(gs[..n], tier, at[k].0, at[k].1);
      } else {
        assert more[k - |at|] in more;
      }
    }
  }

  lemma RiseNext(gs: seq<Group>, tier: Tier, cur: seq<Entry>, at: seq<(nat, nat)>, g: nat, more: seq<nat>)
    requires Fit(gs, tier, cur, at) && Rise(at) && g == |gs| && Increasing(more)
    ensures Rise(at + InSource(g, more))
  {
    var all := at + InSource(g, more);
    forall k, l | 0 <= k < l < |all|
      ensures Later(all[k].0, all[k].1, all[l].0, all[l].1)
    {
      if k < |at| { assert Offers(gs, tier, at[k].0, at[k].1); }
    }
  }

  lemma CoverNext(gs: seq<Group>, tier: Tier, at: seq<(nat, nat)>, more: seq<nat>)
    requires gs != [] && Cover(gs[..|gs| - 1], tier, at)
    requires var g := gs[|gs| - 1]; ArePlaces(g.rules, Wanted(g, tier), more)
    ensures Cover(gs, tier, at + InSource(|gs| - 1, more))
  {
    var n := |gs| - 1;
    var all := at + InSource(n, more);
    forall g: nat, i: nat | Offers(gs, tier, g, i)
      ensures (g, i) in all
    {
      if g < n {
        assert Offers(gs[..n], tier, g, i);
      } else {
        assert i in more;
        var k :| 0 <= k < |more| && more[k] == i;
        assert all[|at| + k] == (g, i);
      }
    }
  }

  lemma {:induction false} TierPlaces(gs: seq<Group>, tier: Tier) returns (at: seq<(nat, nat)>)
    ensures Placed(gs, tier, InTier(Collect(gs), tier), at)
  {
    if gs == [] {
      at := [];
    } else {
      var g := gs[|gs| - 1];
      at := TierPlaces(gs[..|gs| - 1], tier);
      PartIsFilter(g, tier);
      var more := FilterSelects(g.rules, Wanted(g, tier));
      CollectAppend(gs, tier);
      var cur := InTier(Collect(gs[..|gs| - 1]), tier);
      FitNext(gs, tier, cur, at, Part(g, tier), more);
      RiseNext(gs[..|gs| - 1], tier, cur, at, |gs| - 1, more);
      CoverNext(gs, tier, at, more);
      at := at + InSource(|gs| - 1, more);
    }
  }

  lemma LaterIsNot(g: nat, i: nat, g': nat, i': nat)
    ensures !(Later(g, i, g', i') && Later(g', i', g, i)) && !Later(g, i, g, i)
  {
  }

  lemma PrevailsAt(gs: seq<Group>, tier: Tier, cur: seq<Entry>, at: seq<(nat, nat)>, k: nat)
    requires Placed(gs, tier, cur, at) && k < |cur|
    ensures Prevails(gs, tier, at[k].0, at[k].1) <==> !DeniesAll(cur[k]) && !GivenAgain(cur, k)
  {
    var (g, i) := at[k];
    if GivenAgain(cur, k) {
      var l :| k < l < |cur| && SameRule(cur[l], cur[k]);
      assert Offers(gs, tier, at[l].0, at[l].1) && Later(g, i, at[l].0, at[l].1);
    } else {
      forall g': nat, i': nat | Offers(gs, tier, g', i') && Later(g, i, g', i')
        ensures !SameRule(gs[g'].rules[i'], gs[g].rules[i])
      {
        assert (g', i') in at;
        var l :| 0 <= l < |at| && at[l] == (g', i');
        LaterIsNot(g, i, g', i');
        assert k < l;
      }
    }
  }

  /** The rules that a merged tier holds are those that prevail in it. */
  lemma TierHoldsPrevailing(gs: seq<Group>, tier: Tier, list: seq<Entry>, e: Entry)
    requires IsMerge(InTier(Collect(gs), tier), list)
    ensures e in list <==> Prevailing(gs, tier, e)
  {
    var cur := InTier(Collect(gs), tier);
    var at := TierPlaces(gs, tier);
    MergeHoldsLast(cur, list, e);
    if e in list {
      var k: nat :| k < |cur| && cur[k] == e && !GivenAgain(cur, k);
      PrevailsAt(gs, tier, cur, at, k);
    }
    if Prevailing(gs, tier, e) {
      var g: nat, i: nat :| Prevails(gs, tier, g, i) && gs[g].rules[i] == e;
      assert (g, i) in at;
      var k :| 0 <= k < |at| && at[k] == (g, i);
      PrevailsAt(gs, tier, cur, at, k);
    }
  }

  /** Within each tier the map keys tell rules of different names or paths apart. */
  ghost predicate TellApart(gs: seq<Group>) {
    forall tier, g: nat, i: nat, g': nat, i': nat :: Offers(gs, tier, g, i) && Offers(gs, tier, g', i') ==>
      var x, y := gs[g].rules[i], gs[g'].rules[i'];
      Bucket(x) == Bucket(y) < DROPPED && KeyOf(x) == KeyOf(y) ==> x.name == y.name && x.path == y.path
  }

  lemma TierDistinguishes(gs: seq<Group>, tier: Tier)
    requires TellApart(gs)
    ensures KeysDistinguish(InTier(Collect(gs), tier))
  {
    var cur := InTier(Collect(gs), tier);
    var at := TierPlaces(gs, tier);
    forall x, y | x in cur && y in cur && Bucket(x) == Bucket(y) < DROPPED && KeyOf(x) == KeyOf(y)
      ensures x.name == y.name && x.path == y.path
    {
      var k :| 0 <= k < |cur| && cur[k] == x;
      var l :| 0 <= l < |cur| && cur[l] == y;
      assert Offers(gs, tier, at[k].0, at[k].1) && Offers(gs, tier, at[l].0, at[l].1);
    }
  }

  ghost predicate HoldsPrevailing(gs: seq<Group>, tier: Tier, list: seq<Entry>) {
    Ordered(Ranks(list)) && forall e :: e in list <==> Prevailing(gs, tier, e)
  }

  /** A workload's profile: the rules that prevail among the federal ones, then those among the ones from
      custom resources, then those among the others, each tier sorted. */
  ghost predicate IsProfile(gs: seq<Group>, list: seq<Entry>) {
    exists i: nat, j: nat ::
      && i <= j <= |list|
      && HoldsPrevailing(gs, Fed, list[..i]) && HoldsPrevailing(gs, Crd, list[i..j]) && HoldsPrevailing(gs, Other, list[j..])
  }

  lemma MergedTierHolds(gs: seq<Group>, tier: Tier, list: seq<Entry>)
    requires IsMerge(InTier(Collect(gs), tier), list)
    ensures HoldsPrevailing(gs, tier, list)
  {
    forall e
      ensures e in list <==> Prevailing(gs, tier, e)
    {
      TierHoldsPrevailing(gs, tier, list, e);
    }
  }

  lemma StackIsProfile(gs: seq<Group>, list: seq<Entry>)
    requires IsStack(Collect(gs), list)
    ensures IsProfile(gs, list)
  {
    var i: nat, j: nat :| StackedAt(Collect(gs), list, i, j);
    MergedTierHolds(gs, Fed, list[..i]);
    MergedTierHolds(gs, Crd, list[i..j]);
    MergedTierHolds(gs, Other, list[j..]);
  }

  /** The service gives the same rule, for the same tier, again later. */
  predicate Repeated(service: seq<Entry>, i: nat)
    requires i < |service|
  {
    exists j :: i < j < |service| && SameRule(service[j], service[i]) && service[j].ground == service[i].ground
  }

  /** Whatever the groups say, the service's own rules stand in the profile. */
  lemma ServicePrevails(groups: seq<Group>, service: seq<Entry>, list: seq<Entry>, i: nat)
    requires IsProfile(Sources(groups, service), list)
    requires i < |service| && !DeniesAll(service[i]) && !Repeated(service, i)
    ensures service[i] in list
  {
    var gs := Sources(groups, service);
    var n, tier := |groups|, if service[i].ground then Crd else Other;
    assert Offers(gs, tier, n, i);
    forall g': nat, i': nat | Offers(gs, tier, g', i') && Later(n, i, g', i')
      ensures !SameRule(gs[g'].rules[i'], gs[n].rules[i])
    {
      assert g' == n && gs[n].rules == service;
    }
    assert Prevails(gs, tier, n, i);
    assert Prevailing(gs, tier, service[i]);
  }

  lemma Settles(groups: seq<Group>, service: seq<Entry>, list: seq<Entry>, i: nat, j: nat)
    requires TellApart(Sources(groups, service)) && BucketedAt(AddRules(Collect(groups), service), list, i, j)
    ensures IsProfile(Sources(groups, service), list)
    ensures forall k :: 0 <= k < |service| && !DeniesAll(service[k]) && !Repeated(service, k) ==> service[k] in list
  {
    var gs := Sources(groups, service);
    SourcesCollect(groups, service);
    TierDistinguishes(gs, Fed);
    TierDistinguishes(gs, Crd);
    TierDistinguishes(gs, Other);
    BucketedStacks(Collect(gs), list, i, j);
    StackIsProfile(gs, list);
    forall k | 0 <= k < |service| && !DeniesAll(service[k]) && !Repeated(service, k)
      ensures service[k] in list
    {
      ServicePrevails(groups, service, list, k);
    }
  }

  /** `groups` in whatever order the group map is walked; no service profile, no result. Otherwise the
      profile is what the maps of the three tiers hold, one tier after the other, and these are the
      merged tiers if and only if the map keys tell the rules of each tier apart. */
  method CalculateProcGroupProfile(groups: seq<Group>, service: Option<seq<Entry>>) returns (profile: Option<seq<Entry>>)
    ensures profile.None? <==> service.None?
    ensures profile.Some? ==>
              var t := AddRules(Collect(groups), service.value);
              && (exists i: nat, j: nat :: BucketedAt(t, profile.value, i, j) && (StackedAt(t, profile.value, i, j) <==> TiersDistinguish(t)))
              && (TiersDistinguish(t) ==> IsStack(t, profile.value))
    ensures profile.Some? && TellApart(Sources(groups, service.value)) ==>
              && IsProfile(Sources(groups, service.value), profile.value)
              && forall i :: 0 <= i < |service.value| && !DeniesAll(service.value[i]) && !Repeated(service.value, i) ==>
                   service.value[i] in profile.value
  {
    var fed, crd, other := CollectTiers(groups);
    if service.None? {
      return None;
    }
    var c, o := SplitRules(service.value);
    crd, other := crd + c, other + o;
    var top := MergeTier(fed);
    var middle := MergeTier(crd);
    var bottom := MergeTier(other);
    profile := Some(top + middle + bottom);
    ghost var t := AddRules(Collect(groups), service.value);
    ghost var i, j := |top|, |top| + |middle|;
    TierParts(t, top, middle, bottom);
    BucketedStacks(t, profile.value, i, j);
    if TellApart(Sources(groups, service.value)) { Settles(groups, service.value, profile.value, i, j); }
  }

  lemma {:induction false} GroundMembers(rules: seq<Entry>, ground: bool)
    ensures forall e :: e in Ground(rules, ground) <==> e in rules && e.ground == ground
  {
    if rules != [] {
      assert rules == rules[..|rules| - 1] + [rules[|rules| - 1]];
      GroundMembers(rules[..|rules| - 1], ground);
    }
  }

  predicate FromGroup(g: Group, e: Entry, federal: bool) { g.member && Federal(g) == federal && e in g.rules }

  lemma {:induction false} CollectMembers(groups: seq<Group>, e: Entry)
    ensures e in Collect(groups).fed <==> exists g <- groups :: FromGroup(g, e, true)
    ensures e in Collect(groups).crd <==> e.ground && exists g <- groups :: FromGroup(g, e, false)
    ensures e in Collect(groups).other <==> !e.ground && exists g <- groups :: FromGroup(g, e, false)
  {
    if groups != [] {
      var init, g := groups[..|groups| - 1], groups[|groups| - 1];
      assert groups == init + [g];
      CollectMembers(init, e);
      GroundMembers(g.rules, true);
      GroundMembers(g.rules, false);
      assert (exists x <- groups :: FromGroup(x, e, true)) <==> FromGroup(g, e, true) || exists x <- init :: FromGroup(x, e, true);
      assert (exists x <- groups :: FromGroup(x, e, false)) <==> FromGroup(g, e, false) || exists x <- init :: FromGroup(x, e, false);
    }
  }

  lemma RanksOfParts(list: seq<Entry>, i: nat, j: nat)
    requires i <= j <= |list|
    ensures Ranks(list) == Ranks(list[..i]) + Ranks(list[i..j]) + Ranks(list[j..])
  {
  }

  /** The order in which the group map is walked does not change where rules of which name,
      path and bucket stand in the profile. */
  lemma ProfileIgnoresGroupOrder(groups: seq<Group>, groups': seq<Group>, service: seq<Entry>, list: seq<Entry>, list': seq<Entry>)
    requires forall g :: g in groups <==> g in groups'
    requires IsStack(AddRules(Collect(groups), service), list) && IsStack(AddRules(Collect(groups'), service), list')
    ensures Ranks(list) == Ranks(list')
  {
    var t, t' := AddRules(Collect(groups), service), AddRules(Collect(groups'), service);
    var i: nat, j: nat :| StackedAt(t, list, i, j);
    var i': nat, j': nat :| StackedAt(t', list', i', j');
    forall e
      ensures e in t.fed <==> e in t'.fed
      ensures e in t.crd <==> e in t'.crd
      ensures e in t.other <==> e in t'.other
    {
      CollectMembers(groups, e);
      CollectMembers(groups', e);
    }
    MergeIgnoresOrder(t.fed, list[..i], t'.fed, list'[..i']);
    MergeIgnoresOrder(t.crd, list[i..j], t'.crd, list'[i'..j']);
    MergeIgnoresOrder(t.other, list[j..], t'.other, list'[j'..]);
    RanksOfParts(list, i, j);
    RanksOfParts(list', i', j');
  }

  // ---- the rule that applies

  function First(list: seq<Entry>, matches: (string, string) -> bool): Option<Entry> {
    if list == [] then None
    else if matches(list[0].name, list[0].path) then Some(list[0])
    else First(list[1..], matches)
  }

  predicate Applies(e: Entry, matches: (string, string) -> bool) {
    Bucket(e) < DROPPED && matches(e.name, e.path)
  }

  /** No rule that applies sits in a lower bucket. */
  predicate Best(cur: seq<Entry>, e: Entry, matches: (string, string) -> bool) {
    && e in cur && Applies(e, matches)
    && forall x <- cur :: Applies(x, matches) ==> Bucket(e) <= Bucket(x)
  }

  predicate NoneApplies(cur: seq<Entry>, matches: (string, string) -> bool) {
    forall x <- cur :: !Applies(x, matches)
  }

  lemma {:induction false} FirstSplit(a: seq<Entry>, b: seq<Entry>, matches: (string, string) -> bool)
    ensures First(a + b, matches) == if First(a, matches).Some? then First(a, matches) else First(b, matches)
  {
    if a == [] {
      assert a + b == b;
    } else {
      assert (a + b)[1..] == a[1..] + b;
      FirstSplit(a[1..], b, matches);
    }
  }

  lemma {:induction false} FirstIndex(list: seq<Entry>, matches: (string, string) -> bool) returns (i: nat)
    ensures i <= |list| && forall k :: 0 <= k < i ==> !matches(list[k].name, list[k].path)
    ensures i < |list| ==> First(list, matches) == Some(list[i]) && matches(list[i].name, list[i].path)
    ensures i == |list| ==> First(list, matches) == None
  {
    if list == [] || matches(list[0].name, list[0].path) {
      i := 0;
    } else {
      i := FirstIndex(list[1..], matches);
      i := i + 1;
    }
  }

  lemma FirstOfMerge(cur: seq<Entry>, list: seq<Entry>, matches: (string, string) -> bool)
    requires IsMerge(cur, list)
    ensures First(list, matches).None? <==> NoneApplies(cur, matches)
    ensures First(list, matches).Some? ==> Best(cur, First(list, matches).value, matches)
  {
    var i := FirstIndex(list, matches);
    if i < |list| {
      assert list[i] in list;
      LastIsMember(cur, RankOf(list[i]));
    }
    forall x <- cur | Applies(x, matches)
      ensures i < |list| && Bucket(list[i]) <= Bucket(x)
    {
      RanksMember(list, RankOf(x));
      var k :| 0 <= k < |list| && Ranks(list)[k] == RankOf(x);
      assert i <= k;
      if i < k { assert Before(Ranks(list)[i], Ranks(list)[k]); }
    }
  }

  lemma FirstOfParts(t: Tiers, a: seq<Entry>, b: seq<Entry>, c: seq<Entry>, matches: (string, string) -> bool)
    requires IsMerge(t.fed, a) && IsMerge(t.crd, b) && IsMerge(t.other, c)
    ensures var first := First(a + b + c, matches);
            && (first.None? <==> NoneApplies(t.fed, matches) && NoneApplies(t.crd, matches) && NoneApplies(t.other, matches))
            && (first.Some? ==>
                  || Best(t.fed, first.value, matches)
                  || (NoneApplies(t.fed, matches) && Best(t.crd, first.value, matches))
                  || (NoneApplies(t.fed, matches) && NoneApplies(t.crd, matches) && Best(t.other, first.value, matches)))
  {
    FirstOfMerge(t.fed, a, matches);
    FirstOfMerge(t.crd, b, matches);
    FirstOfMerge(t.other, c, matches);
    FirstSplit(a, b, matches);
    FirstSplit(a + b, c, matches);
  }

  /** The first match in a workload's profile is a rule of the best tier that has one that applies,
      and of the lowest bucket within that tier; deny-all rules never apply. */
  lemma FirstOfStack(t: Tiers, list: seq<Entry>, matches: (string, string) -> bool)
    requires IsStack(t, list)
    ensures First(list, matches).None? <==>
            NoneApplies(t.fed, matches) && NoneApplies(t.crd, matches) && NoneApplies(t.other, matches)
    ensures First(list, matches).Some? ==>
              var e := First(list, matches).value;
              || Best(t.fed, e, matches)
              || (NoneApplies(t.fed, matches) && Best(t.crd, e, matches))
              || (NoneApplies(t.fed, matches) && NoneApplies(t.crd, matches) && Best(t.other, e, matches))
  {
    var i: nat, j: nat :| StackedAt(t, list, i, j);
    assert list == list[..i] + list[i..j] + list[j..];
    FirstOfParts(t, list[..i], list[i..j], list[j..], matches);
  }
}
