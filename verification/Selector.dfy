/** Selecting workloads and service-IP groups by criteria (share/criteria.go). */
module Selector {
  import opened Glob
  import opened Options
  import opened Sequences

  datatype Op = Equal | NotEqual | Contains | Prefix | Regex | NotRegex | OtherOp

  datatype Criterion = Criterion(key: string, value: string, op: Op)

  datatype Workload = Workload(image: string, host: string, name: string, service: string, domain: string, labels: map<string, string>)

  const CRITERIA_VALUE_ANY := "any"

  predicate HasSubstring(s: string, sub: string) {
    exists i :: 0 <= i <= |s| && IsPrefix(s[i..], sub)
  }

  /** A regular expression that does not compile matches nothing. */
  predicate RegexMatch(engine: Engine, pattern: string, value: string) {
    engine(pattern, value) == Some(true)
  }

  /** Whether a criterion is met, and whether it is a positive one. */
  function IsCriterionMet(crt: Criterion, value: string, engine: Engine): (bool, bool) {
    match crt.op
    case Equal => (crt.value == CRITERIA_VALUE_ANY || EqualMatch(crt.value, value, engine), true)
    case NotEqual => (!EqualMatch(crt.value, value, engine), false)
    case Contains => (HasSubstring(value, crt.value), true)
    case Prefix => (IsPrefix(value, crt.value), true)
    case Regex => (RegexMatch(engine, crt.value, value), true)
    case NotRegex => (!RegexMatch(engine, crt.value, value), false)
    case OtherOp => (false, true)
  }

  /** The effective key a criterion is grouped under. */
  datatype Key = Key(name: string)

  /** A criterion contributes an entry under its effective key, is skipped, or ends the selection. */
  datatype Verdict = Skip | Stop | Entry(key: Key, met: bool, positive: bool)

  function Judge(key: Key, crt: Criterion, value: string, engine: Engine): Verdict {
    var (met, positive) := IsCriterionMet(crt, value, engine);
    Entry(key, met, positive)
  }

  function JudgeLabel(key: Key, crt: Criterion, name: string, labels: map<string, string>, engine: Engine): Verdict {
    if name in labels then Judge(key, crt, labels[name], engine) else Entry(key, false, true)
  }

  function JudgeWorkload(w: Workload, domain: Option<map<string, string>>, engine: Engine, crt: Criterion): Verdict {
    if crt.key == "image" then Judge(Key(crt.key), crt, w.image, engine)
    else if crt.key == "node" then Judge(Key(crt.key), crt, w.host, engine)
    else if crt.key == "container" then Judge(Key(crt.key), crt, w.name, engine)
    else if crt.key == "service" then Judge(Key(crt.key), crt, w.service, engine)
    else if crt.key == "domain" || crt.key == "namespace" then Judge(Key(crt.key), crt, w.domain, engine)
    else if crt.key == "address" then Stop
    else if IsPrefix(crt.key, "ns:") then
      if domain.Some? then JudgeLabel(Key("ns-label"), crt, crt.key[3..], domain.value, engine)
      else Entry(Key(crt.key), false, true)
    else JudgeLabel(Key("pod-label"), crt, crt.key, w.labels, engine)
  }

  function JudgeSvcIpGroup(groupDomain: string, engine: Engine, crt: Criterion): Verdict {
    if crt.key == "domain" || crt.key == "namespace" then Judge(Key(crt.key), crt, groupDomain, engine) else Skip
  }

  function Judgement(w: Workload, domain: Option<map<string, string>>, engine: Engine): Criterion -> Verdict {
    (crt: Criterion) => JudgeWorkload(w, domain, engine, crt)
  }

  function GroupJudgement(groupDomain: string, engine: Engine): Criterion -> Verdict {
    (crt: Criterion) => JudgeSvcIpGroup(groupDomain, engine, crt)
  }

  // ---- what the selection means

  predicate IsFor(v: Verdict, key: Key) { v.Entry? && v.key == key }

  /** The entries under one effective key, in selector order. */
  function ForKey(vs: seq<Verdict>, key: Key): seq<Verdict> {
    if vs == [] then []
    else if IsFor(vs[|vs| - 1], key) then ForKey(vs[..|vs| - 1], key) + [vs[|vs| - 1]]
    else ForKey(vs[..|vs| - 1], key)
  }

  predicate AllEntries(vs: seq<Verdict>) { forall v <- vs :: v.Entry? }

  predicate HasPositive(vs: seq<Verdict>)
    requires AllEntries(vs)
  {
    exists v <- vs :: v.positive
  }

  /** How many negative entries come before the first positive one. */
  function Leading(vs: seq<Verdict>): (n: nat)
    requires AllEntries(vs)
    ensures n <= |vs|
    ensures forall i :: 0 <= i < n ==> !vs[i].positive
    ensures n < |vs| ==> vs[n].positive
  {
    if vs == [] || vs[0].positive then 0 else 1 + Leading(vs[1..])
  }

  /** All met if all are negative; otherwise the leading negative entries all met, or some
      later entry met. */
  predicate Combined(vs: seq<Verdict>)
    requires AllEntries(vs)
  {
    var n := Leading(vs);
    || ((n > 0 || n == |vs|) && forall i :: 0 <= i < n ==> vs[i].met)
    || exists i :: n <= i < |vs| && vs[i].met
  }

  function KeysOf(vs: seq<Verdict>): set<Key> { set v <- vs | v.Entry? :: v.key }

  /** Different keys are combined by 'and'; no entry at all selects nothing. */
  ghost predicate Selected(vs: seq<Verdict>) {
    && Stop !in vs
    && KeysOf(vs) != {}
    && forall k <- KeysOf(vs) :: AllEntries(ForKey(vs, k)) && Combined(ForKey(vs, k))
  }

  function Verdicts(selector: seq<Criterion>, judge: Criterion -> Verdict): seq<Verdict> {
    seq(|selector|, i requires 0 <= i < |selector| => judge(selector[i]))
  }

  lemma {:induction false} ForKeyEntries(vs: seq<Verdict>, key: Key)
    ensures AllEntries(ForKey(vs, key))
    ensures ForKey(vs, key) != [] <==> key in KeysOf(vs)
  {
    if vs != [] {
      var init, last := vs[..|vs| - 1], vs[|vs| - 1];
      ForKeyEntries(init, key);
      assert vs == init + [last];
      assert KeysOf(vs) == KeysOf(init) + if last.Entry? then {last.key} else {};
    }
  }

  lemma {:induction false} LeadingAppend(vs: seq<Verdict>, e: Verdict)
    requires AllEntries(vs) && e.Entry?
    ensures AllEntries(vs + [e])
    ensures Leading(vs + [e]) == if HasPositive(vs) || e.positive then Leading(vs) else |vs| + 1
  {
    if vs == [] {
      assert vs + [e] == [e];
    } else {
      assert (vs + [e])[1..] == vs[1..] + [e];
      if !vs[0].positive {
        LeadingAppend(vs[1..], e);
        assert HasPositive(vs) <==> HasPositive(vs[1..]);
      }
    }
  }

  /** The incremental rule of the loop. */
  lemma CombinedAppend(vs: seq<Verdict>, e: Verdict)
    requires AllEntries(vs) && e.Entry?
    ensures AllEntries(vs + [e])
    ensures Combined(vs + [e]) ==
            if vs == [] then e.met
            else if !e.positive && !HasPositive(vs) then Combined(vs) && e.met
            else Combined(vs) || e.met
    ensures HasPositive(vs + [e]) == (HasPositive(vs) || e.positive)
  {
    LeadingAppend(vs, e);
    var es := vs + [e];
    assert forall i :: 0 <= i < |vs| ==> es[i] == vs[i];
    assert es[|vs|] == e;
    if HasPositive(vs) { assert Leading(vs) < |vs|; }
  }

  // ---- the loop

  /** The result and polarity kept for a key after its entries `vs`. */
  function Fold(vs: seq<Verdict>): (bool, bool)
    requires AllEntries(vs)
  {
    if vs == [] then (true, false)
    else
      var e := vs[|vs| - 1];
      if |vs| == 1 then (e.met, e.positive)
      else
        var (ret, pos) := Fold(vs[..|vs| - 1]);
        (if !e.positive && !pos then ret && e.met else ret || e.met, pos || e.positive)
  }

  /** Closed form of the loop, for one key. */
  lemma {:induction false} FoldIsCombined(vs: seq<Verdict>)
    requires AllEntries(vs)
    ensures Fold(vs) == (Combined(vs), HasPositive(vs))
  {
    if vs != [] {
      var init, e := vs[..|vs| - 1], vs[|vs| - 1];
      assert vs == init + [e];
      FoldIsCombined(init);
      CombinedAppend(init, e);
    }
  }

  /** What the maps say about one key. */
  predicate TracksKey(rets: map<Key, bool>, poss: map<Key, bool>, vs: seq<Verdict>, k: Key)
    requires k in rets && k in poss
  {
    AllEntries(ForKey(vs, k)) && Fold(ForKey(vs, k)) == (rets[k], poss[k])
  }

  /** `rets` and `poss` hold, for each key met so far, its result and polarity. */
  ghost predicate Tracks(rets: map<Key, bool>, poss: map<Key, bool>, vs: seq<Verdict>) {
    && rets.Keys == poss.Keys == KeysOf(vs)
    && forall k <- rets :: TracksKey(rets, poss, vs, k)
  }

  lemma KeysAppend(vs: seq<Verdict>, v: Verdict)
    ensures KeysOf(vs + [v]) == KeysOf(vs) + if v.Entry? then {v.key} else {}
  {
  }

  lemma ForKeyAppend(vs: seq<Verdict>, v: Verdict, k: Key)
    ensures ForKey(vs + [v], k) == if v.Entry? && v.key == k then ForKey(vs, k) + [v] else ForKey(vs, k)
  {
    assert (vs + [v])[..|vs|] == vs;
  }

  lemma FoldAppend(vs: seq<Verdict>, e: Verdict)
    requires AllEntries(vs) && e.Entry?
    ensures AllEntries(vs + [e])
    ensures Fold(vs + [e]) ==
            if vs == [] then (e.met, e.positive)
            else (if !e.positive && !Fold(vs).1 then Fold(vs).0 && e.met else Fold(vs).0 || e.met,
                  Fold(vs).1 || e.positive)
  {
    assert (vs + [e])[..|vs|] == vs;
  }

  function NextRet(rets: map<Key, bool>, poss: map<Key, bool>, e: Verdict): bool
    requires e.Entry? && rets.Keys == poss.Keys
  {
    if e.key !in rets then e.met
    else if !e.positive && !poss[e.key] then rets[e.key] && e.met
    else rets[e.key] || e.met
  }

  function NextPos(poss: map<Key, bool>, e: Verdict): bool
    requires e.Entry?
  {
    if e.key !in poss then e.positive else poss[e.key] || e.positive
  }

  method Updated(rets: map<Key, bool>, poss: map<Key, bool>, v: Verdict) returns (rets': map<Key, bool>, poss': map<Key, bool>)
    requires v.Entry? && rets.Keys == poss.Keys
    ensures rets' == rets[v.key := NextRet(rets, poss, v)] && poss' == poss[v.key := NextPos(poss, v)]
  {
    if v.key !in rets {
      return rets[v.key := v.met], poss[v.key := v.positive];
    }
    var p := poss[v.key];
    if !v.positive && !p {
      rets' := rets[v.key := rets[v.key] && v.met];
    } else {
      rets' := rets[v.key := rets[v.key] || v.met];
    }
    poss' := poss[v.key := p || v.positive];
  }

  lemma TracksOther(rets: map<Key, bool>, poss: map<Key, bool>, vs: seq<Verdict>, e: Verdict, k: Key)
    requires k in rets && k in poss && TracksKey(rets, poss, vs, k) && e.Entry? && k != e.key
    ensures TracksKey(rets, poss, vs + [e], k)
  {
    ForKeyAppend(vs, e, k);
  }

  lemma TracksOwn(rets: map<Key, bool>, poss: map<Key, bool>, vs: seq<Verdict>, e: Verdict)
    requires rets.Keys == poss.Keys == KeysOf(vs) && e.Entry?
    requires e.key in rets ==> TracksKey(rets, poss, vs, e.key)
    ensures TracksKey(rets[e.key := NextRet(rets, poss, e)], poss[e.key := NextPos(poss, e)], vs + [e], e.key)
  {
    ForKeyEntries(vs, e.key);
    ForKeyAppend(vs, e, e.key);
    FoldAppend(ForKey(vs, e.key), e);
  }

  lemma TracksAppend(rets: map<Key, bool>, poss: map<Key, bool>, vs: seq<Verdict>, e: Verdict)
    requires Tracks(rets, poss, vs) && e.Entry?
    ensures Tracks(rets[e.key := NextRet(rets, poss, e)], poss[e.key := NextPos(poss, e)], vs + [e])
  {
    var rets', poss' := rets[e.key := NextRet(rets, poss, e)], poss[e.key := NextPos(poss, e)];
    KeysAppend(vs, e);
    TracksOwn(rets, poss, vs, e);
    forall k | k in rets'
      ensures TracksKey(rets', poss', vs + [e], k)
    {
      if k != e.key {
        assert TracksKey(rets, poss, vs, k);
        TracksOther(rets, poss, vs, e, k);
      }
    }
  }

  lemma TracksSkip(rets: map<Key, bool>, poss: map<Key, bool>, vs: seq<Verdict>)
    requires Tracks(rets, poss, vs)
    ensures Tracks(rets, poss, vs + [Skip])
  {
    KeysAppend(vs, Skip);
    forall k | k in rets
      ensures TracksKey(rets, poss, vs + [Skip], k)
    {
      assert TracksKey(rets, poss, vs, k);
      ForKeyAppend(vs, Skip, k);
    }
  }

  /** One entry of the selector goes into the two maps; a criterion on another key is skipped. */
  method Record(rets: map<Key, bool>, poss: map<Key, bool>, v: Verdict, ghost seen: seq<Verdict>)
    returns (rets': map<Key, bool>, poss': map<Key, bool>)
    requires Tracks(rets, poss, seen) && !v.Stop?
    ensures Tracks(rets', poss', seen + [v])
  {
    rets', poss' := rets, poss;
    if v.Entry? {
      TracksAppend(rets, poss, seen, v);
      rets', poss' := Updated(rets, poss, v);
    } else {
      TracksSkip(rets, poss, seen);
    }
  }

  method AllTrue(rets: map<Key, bool>) returns (b: bool)
    ensures b <==> forall k <- rets.Keys :: rets[k]
  {
    var rest := rets.Keys;
    while rest != {}
      invariant rest <= rets.Keys && forall k <- rets.Keys - rest :: rets[k]
    {
      var k :| k in rest;
      if !rets[k] {
        return false;
      }
      rest := rest - {k};
    }
    return true;
  }

  lemma TracksSelected(rets: map<Key, bool>, poss: map<Key, bool>, vs: seq<Verdict>)
    requires Tracks(rets, poss, vs) && Stop !in vs
    ensures Selected(vs) <==> |rets| > 0 && forall k <- rets.Keys :: rets[k]
  {
    assert |rets| == |rets.Keys|;
    forall k | k in rets
      ensures AllEntries(ForKey(vs, k)) && rets[k] == Combined(ForKey(vs, k))
    {
      assert TracksKey(rets, poss, vs, k);
      FoldIsCombined(ForKey(vs, k));
    }
  }

  /** Goes through the selector once, keeping per-key results in two maps. */
  method Select(selector: seq<Criterion>, judge: Criterion -> Verdict) returns (selected: bool)
    ensures selected <==> Selected(Verdicts(selector, judge))
  {
    var rets, poss: map<Key, bool> := map[], map[];
    ghost var seen: seq<Verdict> := [];
    for i := 0 to |selector|
      invariant |seen| == i && forall j :: 0 <= j < i ==> seen[j] == judge(selector[j])
      invariant Stop !in seen && Tracks(rets, poss, seen)
    {
      var v := judge(selector[i]);
      if v.Stop? {
        assert Verdicts(selector, judge)[i] == Stop;
        return false;
      }
      rets, poss := Record(rets, poss, v, seen);
      seen := seen + [v];
    }
    assert seen == Verdicts(selector, judge);
    TracksSelected(rets, poss, seen);
    if |rets| == 0 {
      return false;
    }
    selected := AllTrue(rets);
  }

  // ---- what a selector asks for

  /** What a criterion says of a value. A value with wildcards is a glob. */
  ghost predicate Says(op: Op, want: string, value: string, engine: Engine) {
    match op
    case Equal => want == "any" || if HasWildcard(want) then GlobMatch(want, value, false) else value == want
    case NotEqual => if HasWildcard(want) then !GlobMatch(want, value, false) else value != want
    case Contains => exists before: string, after: string :: value == before + want + after
    case Prefix => exists after: string :: value == want + after
    case Regex => engine(want, value) == Some(true)
    case NotRegex => engine(want, value) != Some(true)
    case OtherOp => false
  }

  /** Any regular expression, and any value that is no glob or one for a regexp engine of the usual kind. */
  ghost predicate Understood(crt: Criterion, engine: Engine) {
    (crt.op.Equal? || crt.op.NotEqual?) && HasWildcard(crt.value) ==> Standard(engine) && Plain(crt.value)
  }

  const FIELD_KEYS := {"image", "node", "container", "service", "domain", "namespace"}

  /** The value a criterion is about: a field of the workload, or a label of its namespace or its own. */
  function Subject(w: Workload, domain: Option<map<string, string>>, key: string): Option<string> {
    if key in FIELD_KEYS then
      Some(map["image" := w.image, "node" := w.host, "container" := w.name, "service" := w.service,
               "domain" := w.domain, "namespace" := w.domain][key])
    else if key == "address" then None
    else
      var (labels, name) := if IsPrefix(key, "ns:") then (domain, key[3..]) else (Some(w.labels), key);
      if labels.Some? && name in labels.value then Some(labels.value[name]) else None
  }

  /** The criterion is about something there is, and is right about it. */
  ghost predicate Holds(w: Workload, domain: Option<map<string, string>>, engine: Engine, crt: Criterion) {
    var subject := Subject(w, domain, crt.key);
    subject.Some? && Says(crt.op, crt.value, subject.value, engine)
  }

  predicate IsPodLabel(key: string) { key !in FIELD_KEYS && key != "address" && !IsPrefix(key, "ns:") }

  /** Two criteria of the same kind are alternatives: on one key, or both on labels of the namespace, or
      both on labels of the workload. */
  predicate SameKind(domain: Option<map<string, string>>, key: string, key': string) {
    || key == key'
    || (IsPrefix(key, "ns:") && IsPrefix(key', "ns:") && domain.Some?)
    || (IsPodLabel(key) && IsPodLabel(key'))
  }

  predicate IsPositive(op: Op) { !op.NotEqual? && !op.NotRegex? }

  lemma SubstringMeans(s: string, sub: string)
    ensures HasSubstring(s, sub) <==> exists before: string, after: string :: s == before + sub + after
  {
    if HasSubstring(s, sub) {
      var i :| 0 <= i <= |s| && IsPrefix(s[i..], sub);
      assert s == s[..i] + sub + s[i..][|sub|..];
    }
    if before: string, after: string :| s == before + sub + after {
      assert s[|before|..] == sub + after;
      assert IsPrefix(s[|before|..], sub);
    }
  }

  lemma PrefixMeans(s: string, prefix: string)
    ensures IsPrefix(s, prefix) <==> exists after: string :: s == prefix + after
  {
    if IsPrefix(s, prefix) { assert s == prefix + s[|prefix|..]; }
  }

  lemma MetMeans(crt: Criterion, value: string, engine: Engine)
    requires Understood(crt, engine)
    ensures IsCriterionMet(crt, value, engine) == (Says(crt.op, crt.value, value, engine), IsPositive(crt.op))
  {
    SubstringMeans(value, crt.value);
    PrefixMeans(value, crt.value);
    if (crt.op.Equal? || crt.op.NotEqual?) && HasWildcard(crt.value) { EqualMatchIsGlob(crt.value, value, engine); }
  }

  /** The verdict `v` says whether the criterion holds, and counts as positive if there is nothing it is about. */
  ghost predicate Rules(w: Workload, domain: Option<map<string, string>>, engine: Engine, crt: Criterion, v: Verdict) {
    && v.Entry?
    && (v.met <==> Holds(w, domain, engine, crt))
    && (v.positive <==> Subject(w, domain, crt.key).None? || IsPositive(crt.op))
  }

  lemma JudgedField(w: Workload, domain: Option<map<string, string>>, engine: Engine, crt: Criterion)
    requires Understood(crt, engine) && crt.key in FIELD_KEYS
    ensures Rules(w, domain, engine, crt, JudgeWorkload(w, domain, engine, crt))
  {
    MetMeans(crt, Subject(w, domain, crt.key).value, engine);
  }

  lemma JudgedLabel(w: Workload, domain: Option<map<string, string>>, engine: Engine, crt: Criterion)
    requires Understood(crt, engine) && crt.key !in FIELD_KEYS && crt.key != "address"
    ensures Rules(w, domain, engine, crt, JudgeWorkload(w, domain, engine, crt))
  {
    var subject := Subject(w, domain, crt.key);
    if subject.Some? { MetMeans(crt, subject.value, engine); }
  }

  lemma JudgedAs(w: Workload, domain: Option<map<string, string>>, engine: Engine, crt: Criterion)
    requires Understood(crt, engine)
    ensures var v := JudgeWorkload(w, domain, engine, crt);
            if crt.key == "address" then v.Stop? else Rules(w, domain, engine, crt, v)
  {
    if crt.key in FIELD_KEYS {
      JudgedField(w, domain, engine, crt);
    } else if crt.key != "address" {
      JudgedLabel(w, domain, engine, crt);
    }
  }

  function KindOf(domain: Option<map<string, string>>, key: string): string {
    if key in FIELD_KEYS then key
    else if IsPrefix(key, "ns:") then if domain.Some? then "ns-label" else key
    else "pod-label"
  }

  lemma FieldsAreNoLabels(key: string)
    ensures key in FIELD_KEYS || key == "address" ==> !IsPrefix(key, "ns:")
    ensures "ns-label" !in FIELD_KEYS && "pod-label" !in FIELD_KEYS
    ensures IsPrefix(key, "ns:") ==> key != "ns-label" && key != "pod-label"
  {
    assert "ns:"[1] == 's' && "ns:"[2] == ':';
    assert "image"[1] == 'm' && "node"[1] == 'o' && "container"[1] == 'o' && "service"[1] == 'e' && "domain"[1] == 'o'
           && "namespace"[1] == 'a' && "address"[1] == 'd' && "pod-label"[1] == 'o' && "ns-label"[1] == 's';
    assert "ns-label"[2] == '-';
    if IsPrefix(key, "ns:") { assert key[1] == key[..3][1] && key[2] == key[..3][2]; }
  }

  lemma VerdictKey(w: Workload, domain: Option<map<string, string>>, engine: Engine, crt: Criterion)
    requires crt.key != "address"
    ensures var v := JudgeWorkload(w, domain, engine, crt); v.Entry? && v.key == Key(KindOf(domain, crt.key))
  {
    FieldsAreNoLabels(crt.key);
  }

  lemma KindIsKey(domain: Option<map<string, string>>, key: string, key': string)
    requires key != "address" && key' != "address"
    ensures KindOf(domain, key) == KindOf(domain, key') <==> SameKind(domain, key, key')
  {
    FieldsAreNoLabels(key);
    FieldsAreNoLabels(key');
  }

  /** Where the entries of a key are. */
  function Positions(vs: seq<Verdict>, key: Key): (ps: seq<nat>)
    ensures Increasing(ps)
    ensures forall p: nat :: p in ps <==> p < |vs| && IsFor(vs[p], key)
  {
    if vs == [] then []
    else
      var n := |vs| - 1;
      var ps := Positions(vs[..n], key);
      assert forall i :: 0 <= i < |ps| ==> ps[i] in ps;
      assert forall p: nat :: p < n ==> vs[..n][p] == vs[p];
      if IsFor(vs[n], key) then ps + [n] else ps
  }

  lemma {:induction false} ForKeyAt(vs: seq<Verdict>, key: Key)
    ensures |ForKey(vs, key)| == |Positions(vs, key)|
    ensures forall i :: 0 <= i < |Positions(vs, key)| ==>
              Positions(vs, key)[i] < |vs| && ForKey(vs, key)[i] == vs[Positions(vs, key)[i]]
  {
    if vs != [] { ForKeyAt(vs[..|vs| - 1], key); }
  }

  // ---- the rule by place

  /** Entry i of the key is negative and no positive one comes before it. */
  predicate LeadsAt(vs: seq<Verdict>, key: Key, i: nat) {
    && i < |vs| && IsFor(vs[i], key)
    && forall j :: 0 <= j <= i && IsFor(vs[j], key) ==> !vs[j].positive
  }

  ghost predicate CombinedAt(vs: seq<Verdict>, key: Key) {
    || ((exists i: nat :: LeadsAt(vs, key, i)) && forall i: nat :: LeadsAt(vs, key, i) ==> vs[i].met)
    || exists i: nat :: i < |vs| && IsFor(vs[i], key) && !LeadsAt(vs, key, i) && vs[i].met
  }

  lemma LeadingPlace(vs: seq<Verdict>, key: Key, a: nat)
    requires a < |Positions(vs, key)|
    ensures AllEntries(ForKey(vs, key)) && |ForKey(vs, key)| == |Positions(vs, key)|
    ensures Positions(vs, key)[a] < |vs| && ForKey(vs, key)[a] == vs[Positions(vs, key)[a]]
    ensures LeadsAt(vs, key, Positions(vs, key)[a]) <==> a < Leading(ForKey(vs, key))
  {
    var ps := Positions(vs, key);
    ForKeyAt(vs, key);
    ForKeyEntries(vs, key);
    var es := ForKey(vs, key);
    var n := Leading(es);
    assert ps[a] in ps;
    if a < n {
      forall j: nat | j <= ps[a] && IsFor(vs[j], key)
        ensures !vs[j].positive
      {
        assert j in ps;
        var b :| 0 <= b < |ps| && ps[b] == j;
        assert b <= a;
        assert es[b] == vs[j];
      }
    } else {
      assert ps[n] in ps && es[n] == vs[ps[n]];
    }
  }

  lemma PlaceOf(vs: seq<Verdict>, key: Key, i: nat) returns (a: nat)
    requires i < |vs| && IsFor(vs[i], key)
    ensures a < |Positions(vs, key)| && Positions(vs, key)[a] == i
  {
    assert i in Positions(vs, key);
    a :| 0 <= a < |Positions(vs, key)| && Positions(vs, key)[a] == i;
  }

  lemma CombinedThenAt(vs: seq<Verdict>, key: Key)
    requires key in KeysOf(vs) && AllEntries(ForKey(vs, key)) && Combined(ForKey(vs, key))
    ensures CombinedAt(vs, key)
  {
    ForKeyAt(vs, key);
    ForKeyEntries(vs, key);
    var es, ps := ForKey(vs, key), Positions(vs, key);
    var n := Leading(es);
    if a :| n <= a < |es| && es[a].met {
      LeadingPlace(vs, key, a);
      assert ps[a] in ps;
    } else {
      LeadingPlace(vs, key, 0);
      forall i: nat | LeadsAt(vs, key, i)
        ensures vs[i].met
      {
        var a := PlaceOf(vs, key, i);
        LeadingPlace(vs, key, a);
      }
    }
  }

  lemma AtThenCombined(vs: seq<Verdict>, key: Key)
    requires key in KeysOf(vs) && AllEntries(ForKey(vs, key)) && CombinedAt(vs, key)
    ensures Combined(ForKey(vs, key))
  {
    ForKeyAt(vs, key);
    var es, ps := ForKey(vs, key), Positions(vs, key);
    var n := Leading(es);
    if i: nat :| i < |vs| && IsFor(vs[i], key) && !LeadsAt(vs, key, i) && vs[i].met {
      var a := PlaceOf(vs, key, i);
      LeadingPlace(vs, key, a);
      assert es[a].met;
    } else {
      var i: nat :| LeadsAt(vs, key, i);
      var a := PlaceOf(vs, key, i);
      LeadingPlace(vs, key, a);
      forall b | 0 <= b < n
        ensures es[b].met
      {
        LeadingPlace(vs, key, b);
      }
    }
  }

  lemma SelectedByPlace(vs: seq<Verdict>)
    ensures Selected(vs) <==> Stop !in vs && KeysOf(vs) != {} && forall k <- KeysOf(vs) :: CombinedAt(vs, k)
  {
    forall k <- KeysOf(vs)
      ensures AllEntries(ForKey(vs, k)) && (Combined(ForKey(vs, k)) <==> CombinedAt(vs, k))
    {
      ForKeyEntries(vs, k);
      if Combined(ForKey(vs, k)) { CombinedThenAt(vs, k); }
      if CombinedAt(vs, k) { AtThenCombined(vs, k); }
    }
  }

  // ---- what a selector selects

  predicate IsNegative(w: Workload, domain: Option<map<string, string>>, crt: Criterion) {
    Subject(w, domain, crt.key).Some? && !IsPositive(crt.op)
  }

  /** Criterion i is of the kind of criterion k. */
  predicate OfKind(domain: Option<map<string, string>>, selector: seq<Criterion>, k: nat, i: nat)
    requires k < |selector|
  {
    i < |selector| && SameKind(domain, selector[k].key, selector[i].key)
  }

  /** And it and all of its kind before it are negative. */
  predicate Leads(w: Workload, domain: Option<map<string, string>>, selector: seq<Criterion>, k: nat, i: nat)
    requires k < |selector|
  {
    && OfKind(domain, selector, k, i)
    && forall j :: 0 <= j <= i && OfKind(domain, selector, k, j) ==> IsNegative(w, domain, selector[j])
  }

  /** Of the criteria of a kind, the negative ones that come first all hold, if there are any, or one of
      the others holds. */
  ghost predicate KindHolds(w: Workload, domain: Option<map<string, string>>, engine: Engine, selector: seq<Criterion>, k: nat)
    requires k < |selector|
  {
    || ((exists i: nat :: Leads(w, domain, selector, k, i)) &&
        forall i: nat :: Leads(w, domain, selector, k, i) ==> Holds(w, domain, engine, selector[i]))
    || exists i: nat :: OfKind(domain, selector, k, i) && !Leads(w, domain, selector, k, i) && Holds(w, domain, engine, selector[i])
  }

  /** No criterion on addresses, at least one at all, and every kind holds. */
  ghost predicate Selects(w: Workload, domain: Option<map<string, string>>, engine: Engine, selector: seq<Criterion>) {
    && selector != []
    && (forall crt <- selector :: crt.key != "address")
    && forall k: nat :: k < |selector| ==> KindHolds(w, domain, engine, selector, k)
  }

  ghost predicate AllUnderstood(selector: seq<Criterion>, engine: Engine) { forall crt <- selector :: Understood(crt, engine) }

  /** How a verdict of the list reads. */
  lemma Reading(w: Workload, domain: Option<map<string, string>>, engine: Engine, selector: seq<Criterion>, i: nat)
    requires AllUnderstood(selector, engine) && i < |selector| && selector[i].key != "address"
    ensures var v := Verdicts(selector, Judgement(w, domain, engine))[i];
            && v.Entry? && v.key == Key(KindOf(domain, selector[i].key))
            && (v.met <==> Holds(w, domain, engine, selector[i])) && (v.positive <==> !IsNegative(w, domain, selector[i]))
  {
    assert selector[i] in selector;
    JudgedAs(w, domain, engine, selector[i]);
    VerdictKey(w, domain, engine, selector[i]);
  }

  lemma LeadsReads(w: Workload, domain: Option<map<string, string>>, engine: Engine, selector: seq<Criterion>, k: nat, i: nat)
    requires AllUnderstood(selector, engine) && k < |selector| && forall crt <- selector :: crt.key != "address"
    ensures var vs, key := Verdicts(selector, Judgement(w, domain, engine)), Key(KindOf(domain, selector[k].key));
            && (i < |vs| && IsFor(vs[i], key) <==> OfKind(domain, selector, k, i))
            && (LeadsAt(vs, key, i) <==> Leads(w, domain, selector, k, i))
  {
    var vs, key := Verdicts(selector, Judgement(w, domain, engine)), Key(KindOf(domain, selector[k].key));
    forall j: nat | j < |selector|
      ensures IsFor(vs[j], key) <==> OfKind(domain, selector, k, j)
      ensures vs[j].Entry? && (vs[j].positive <==> !IsNegative(w, domain, selector[j]))
    {
      Reading(w, domain, engine, selector, j);
      KindIsKey(domain, selector[k].key, selector[j].key);
    }
  }

  lemma KindReads(w: Workload, domain: Option<map<string, string>>, engine: Engine, selector: seq<Criterion>, k: nat)
    requires AllUnderstood(selector, engine) && k < |selector| && forall crt <- selector :: crt.key != "address"
    ensures CombinedAt(Verdicts(selector, Judgement(w, domain, engine)), Key(KindOf(domain, selector[k].key)))
            <==> KindHolds(w, domain, engine, selector, k)
  {
    var vs, key := Verdicts(selector, Judgement(w, domain, engine)), Key(KindOf(domain, selector[k].key));
    forall i: nat
      ensures i < |vs| && IsFor(vs[i], key) <==> OfKind(domain, selector, k, i)
      ensures LeadsAt(vs, key, i) <==> Leads(w, domain, selector, k, i)
      ensures i < |vs| ==> vs[i].Entry? && (vs[i].met <==> Holds(w, domain, engine, selector[i]))
    {
      LeadsReads(w, domain, engine, selector, k, i);
      if i < |vs| { Reading(w, domain, engine, selector, i); }
    }
  }

  lemma KeysRead(w: Workload, domain: Option<map<string, string>>, engine: Engine, selector: seq<Criterion>)
    requires AllUnderstood(selector, engine) && forall crt <- selector :: crt.key != "address"
    ensures KeysOf(Verdicts(selector, Judgement(w, domain, engine))) == set k: nat | k < |selector| :: Key(KindOf(domain, selector[k].key))
  {
    var vs := Verdicts(selector, Judgement(w, domain, engine));
    forall k: nat | k < |selector|
      ensures vs[k].Entry? && vs[k].key == Key(KindOf(domain, selector[k].key)) && vs[k] in vs
    {
      Reading(w, domain, engine, selector, k);
    }
  }

  lemma KindsRead(w: Workload, domain: Option<map<string, string>>, engine: Engine, selector: seq<Criterion>, vs: seq<Verdict>)
    requires AllUnderstood(selector, engine) && forall crt <- selector :: crt.key != "address"
    requires vs == Verdicts(selector, Judgement(w, domain, engine))
    ensures (forall k <- KeysOf(vs) :: CombinedAt(vs, k)) <==>
            forall k: nat :: k < |selector| ==> KindHolds(w, domain, engine, selector, k)
  {
    KeysRead(w, domain, engine, selector);
    if forall k <- KeysOf(vs) :: CombinedAt(vs, k) {
      forall k: nat | k < |selector|
        ensures KindHolds(w, domain, engine, selector, k)
      {
        assert Key(KindOf(domain, selector[k].key)) in KeysOf(vs);
        KindReads(w, domain, engine, selector, k);
      }
    }
    if forall k: nat :: k < |selector| ==> KindHolds(w, domain, engine, selector, k) {
      forall key <- KeysOf(vs)
        ensures CombinedAt(vs, key)
      {
        var k: nat :| k < |selector| && key == Key(KindOf(domain, selector[k].key));
        KindReads(w, domain, engine, selector, k);
      }
    }
  }

  lemma NothingStops(w: Workload, domain: Option<map<string, string>>, engine: Engine, selector: seq<Criterion>, vs: seq<Verdict>)
    requires AllUnderstood(selector, engine) && vs == Verdicts(selector, Judgement(w, domain, engine))
    ensures Stop in vs <==> exists crt <- selector :: crt.key == "address"
    ensures Stop !in vs ==> (KeysOf(vs) != {} <==> selector != [])
  {
    if crt :| crt in selector && crt.key == "address" {
      var i :| 0 <= i < |selector| && selector[i] == crt;
      assert vs[i] == Stop;
    } else {
      forall i | 0 <= i < |vs|
        ensures vs[i].Entry?
      {
        assert selector[i] in selector;
        Reading(w, domain, engine, selector, i);
      }
      if selector != [] { assert vs[0] in vs && vs[0].key in KeysOf(vs); }
    }
  }

  /** The selection in terms of the criteria and what they are about. */
  lemma SelectedMeans(w: Workload, domain: Option<map<string, string>>, engine: Engine, selector: seq<Criterion>)
    requires AllUnderstood(selector, engine)
    ensures Selected(Verdicts(selector, Judgement(w, domain, engine))) <==> Selects(w, domain, engine, selector)
  {
    var vs := Verdicts(selector, Judgement(w, domain, engine));
    NothingStops(w, domain, engine, selector, vs);
    if Stop !in vs {
      SelectedByPlace(vs);
      KindsRead(w, domain, engine, selector, vs);
    }
  }

  lemma AloneHolds(w: Workload, domain: Option<map<string, string>>, engine: Engine, selector: seq<Criterion>)
    requires |selector| == 1 && selector[0].key != "address"
    ensures KindHolds(w, domain, engine, selector, 0) <==> Holds(w, domain, engine, selector[0])
  {
    assert OfKind(domain, selector, 0, 0);
    assert forall i: nat :: OfKind(domain, selector, 0, i) ==> i == 0;
    if Holds(w, domain, engine, selector[0]) && IsNegative(w, domain, selector[0]) {
      assert Leads(w, domain, selector, 0, 0);
    }
  }

  /** One criterion selects the workloads of which it holds. */
  lemma OneCriterion(w: Workload, domain: Option<map<string, string>>, engine: Engine, crt: Criterion)
    requires Understood(crt, engine)
    ensures Selected(Verdicts([crt], Judgement(w, domain, engine))) <==> Holds(w, domain, engine, crt)
  {
    var selector := [crt];
    assert selector[0] in selector;
    SelectedMeans(w, domain, engine, selector);
    if crt.key != "address" { AloneHolds(w, domain, engine, selector); }
  }

  /** Key by key. */
  lemma EachKeySelects(w: Workload, domain: Option<map<string, string>>, engine: Engine, crt: Criterion)
    requires Understood(crt, engine)
    ensures var selected := Selected(Verdicts([crt], Judgement(w, domain, engine)));
            var op, value := crt.op, crt.value;
            && (crt.key == "image" ==> (selected <==> Says(op, value, w.image, engine)))
            && (crt.key == "node" ==> (selected <==> Says(op, value, w.host, engine)))
            && (crt.key == "container" ==> (selected <==> Says(op, value, w.name, engine)))
            && (crt.key == "service" ==> (selected <==> Says(op, value, w.service, engine)))
            && (crt.key == "domain" || crt.key == "namespace" ==> (selected <==> Says(op, value, w.domain, engine)))
            && (crt.key == "address" ==> !selected)
  {
    OneCriterion(w, domain, engine, crt);
  }

  lemma EachLabelSelects(w: Workload, domain: Option<map<string, string>>, engine: Engine, crt: Criterion, name: string)
    requires Understood(crt, engine)
    ensures var selected := Selected(Verdicts([crt], Judgement(w, domain, engine)));
            && (crt.key == "ns:" + name ==>
                  (selected <==> domain.Some? && name in domain.value && Says(crt.op, crt.value, domain.value[name], engine)))
            && (crt.key == name && IsPodLabel(name) ==>
                  (selected <==> name in w.labels && Says(crt.op, crt.value, w.labels[name], engine)))
  {
    OneCriterion(w, domain, engine, crt);
    FieldsAreNoLabels(crt.key);
    if crt.key == "ns:" + name { assert crt.key[..3] == "ns:" && crt.key[3..] == name; }
  }

  lemma SameSubjectSameVerdict(w: Workload, domain: Option<map<string, string>>,
      w': Workload, domain': Option<map<string, string>>, engine: Engine, crt: Criterion)
    requires domain.Some? <==> domain'.Some?
    requires Subject(w, domain, crt.key) == Subject(w', domain', crt.key)
    ensures JudgeWorkload(w, domain, engine, crt) == JudgeWorkload(w', domain', engine, crt)
  {
  }

  /** A selector gives the same answer for workloads that agree on what its criteria are about. */
  lemma SameSubjectsSameSelection(w: Workload, domain: Option<map<string, string>>,
      w': Workload, domain': Option<map<string, string>>, engine: Engine, selector: seq<Criterion>)
    requires domain.Some? <==> domain'.Some?
    requires forall crt <- selector :: Subject(w, domain, crt.key) == Subject(w', domain', crt.key)
    ensures Selected(Verdicts(selector, Judgement(w, domain, engine))) <==>
            Selected(Verdicts(selector, Judgement(w', domain', engine)))
  {
    forall i | 0 <= i < |selector|
      ensures JudgeWorkload(w, domain, engine, selector[i]) == JudgeWorkload(w', domain', engine, selector[i])
    {
      SameSubjectSameVerdict(w, domain, w', domain', engine, selector[i]);
    }
    assert Verdicts(selector, Judgement(w, domain, engine)) == Verdicts(selector, Judgement(w', domain', engine));
  }

  /** The selection depends only on each key's entries, in their order. */
  lemma SameEntriesSameSelection(vs: seq<Verdict>, vs': seq<Verdict>)
    requires forall k :: ForKey(vs, k) == ForKey(vs', k)
    requires Stop in vs <==> Stop in vs'
    ensures Selected(vs) <==> Selected(vs')
  {
    forall k
      ensures k in KeysOf(vs) <==> k in KeysOf(vs')
    {
      ForKeyEntries(vs, k);
      ForKeyEntries(vs', k);
    }
    assert KeysOf(vs) == KeysOf(vs');
  }

  // ---- service-IP groups

  const DOMAIN_KEYS := {"domain", "namespace"}

  function OnDomain(): Criterion -> bool { (crt: Criterion) => crt.key in DOMAIN_KEYS }

  /** Something of which only the domain is known. */
  function InDomain(domain: string): Workload { Workload("", "", "", "", domain, map[]) }

  lemma VerdictsAppend(selector: seq<Criterion>, judge: Criterion -> Verdict)
    requires selector != []
    ensures Verdicts(selector, judge) == Verdicts(selector[..|selector| - 1], judge) + [judge(selector[|selector| - 1])]
  {
  }

  lemma SameOnDomain(groupDomain: string, engine: Engine, crt: Criterion)
    ensures var v := JudgeSvcIpGroup(groupDomain, engine, crt);
            if crt.key in DOMAIN_KEYS then v.Entry? && v == JudgeWorkload(InDomain(groupDomain), None, engine, crt) else v == Skip
  {
  }

  lemma {:induction false} OtherKeysSkipped(selector: seq<Criterion>, judge: Criterion -> Verdict, judge': Criterion -> Verdict, key: Key)
    requires forall crt: Criterion :: if crt.key in DOMAIN_KEYS then judge(crt).Entry? && judge(crt) == judge'(crt) else judge(crt) == Skip
    ensures var vs, vs' := Verdicts(selector, judge), Verdicts(Filter(selector, OnDomain()), judge');
            ForKey(vs, key) == ForKey(vs', key) && Stop !in vs && Stop !in vs'
  {
    if selector != [] {
      var init, crt := selector[..|selector| - 1], selector[|selector| - 1];
      OtherKeysSkipped(init, judge, judge', key);
      VerdictsAppend(selector, judge);
      ForKeyAppend(Verdicts(init, judge), judge(crt), key);
      if crt.key in DOMAIN_KEYS {
        var kept := Filter(selector, OnDomain());
        assert kept[..|kept| - 1] == Filter(init, OnDomain());
        VerdictsAppend(kept, judge');
        ForKeyAppend(Verdicts(Filter(init, OnDomain()), judge'), judge'(crt), key);
      }
    }
  }

  /** A service-IP group is selected as a workload of its domain would be, by the criteria on domains alone. */
  lemma GroupSelectedMeans(groupDomain: string, engine: Engine, selector: seq<Criterion>)
    requires AllUnderstood(selector, engine)
    ensures Selected(Verdicts(selector, GroupJudgement(groupDomain, engine))) <==>
            Selects(InDomain(groupDomain), None, engine, Filter(selector, OnDomain()))
  {
    var at := FilterSelects(selector, OnDomain());
    var kept := Filter(selector, OnDomain());
    forall crt <- kept
      ensures Understood(crt, engine)
    {
      var i :| 0 <= i < |kept| && kept[i] == crt;
      assert crt == selector[at[i]];
    }
    var judge, judge' := GroupJudgement(groupDomain, engine), Judgement(InDomain(groupDomain), None, engine);
    forall crt: Criterion
      ensures if crt.key in DOMAIN_KEYS then judge(crt).Entry? && judge(crt) == judge'(crt) else judge(crt) == Skip
    {
      SameOnDomain(groupDomain, engine, crt);
    }
    forall key
      ensures ForKey(Verdicts(selector, judge), key) == ForKey(Verdicts(kept, judge'), key)
    {
      OtherKeysSkipped(selector, judge, judge', key);
    }
    OtherKeysSkipped(selector, judge, judge', Key(""));
    SameEntriesSameSelection(Verdicts(selector, judge), Verdicts(kept, judge'));
    SelectedMeans(InDomain(groupDomain), None, engine, kept);
  }

  method IsWorkloadSelected(w: Workload, selector: seq<Criterion>, domain: Option<map<string, string>>, engine: Engine)
    returns (selected: bool)
    ensures selected <==> Selected(Verdicts(selector, Judgement(w, domain, engine)))
    ensures AllUnderstood(selector, engine) ==> (selected <==> Selects(w, domain, engine, selector))
    ensures (exists crt <- selector :: crt.key == "address") ==> !selected
  {
    var judge := Judgement(w, domain, engine);
    selected := Select(selector, judge);
    if exists crt <- selector :: crt.key == "address" {
      var i :| 0 <= i < |selector| && selector[i].key == "address";
      assert Verdicts(selector, judge)[i] == Stop;
    }
    if AllUnderstood(selector, engine) { SelectedMeans(w, domain, engine, selector); }
  }

  method IsSvcIpGroupSelected(groupDomain: string, selector: seq<Criterion>, engine: Engine) returns (selected: bool)
    ensures selected <==> Selected(Verdicts(selector, GroupJudgement(groupDomain, engine)))
    ensures AllUnderstood(selector, engine) ==>
              (selected <==> Selects(InDomain(groupDomain), None, engine, Filter(selector, OnDomain())))
  {
    selected := Select(selector, GroupJudgement(groupDomain, engine));
    if AllUnderstood(selector, engine) { GroupSelectedMeans(groupDomain, engine, selector); }
  }
}
