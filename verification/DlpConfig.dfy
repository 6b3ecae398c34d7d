/** DLP and WAF rule lists that arrive in several messages (dp/ctrl.c).

    Each endpoint has a map from signature to action. The first message of a stream
    disables every entry, each message enables or adds its rules, and the last one
    deletes what is still disabled, up to a fixed number of deletions per message.
    A rule for a signature that is not in the map needs memory, and is lost without.
    The DLP and the WAF maps are handled alike, each with its own deletion count. */
module DlpConfig {
  import opened MapSums
  import opened Options
  import opened Sequences

  const MAX_DLPCFG_DELETE: nat := 256

  type Mac = nat
  type Sig = nat

  datatype Cfg = Cfg(action: nat, enable: bool)

  type EpMap = map<Sig, Cfg>

  datatype Rule = Rule(sig: Sig, action: nat)

  /** `rules` is None when the message carries no rule names of this kind. */
  datatype Msg = Msg(macs: seq<Mac>, first: bool, last: bool, rules: Option<seq<Rule>>)

  /** Whether memory for the j-th rule at the i-th endpoint named is to be had. */
  type Alloc = (nat, nat) -> bool

  function Oks(alloc: Alloc, i: nat, n: nat): (oks: seq<bool>)
    ensures |oks| == n
  {
    seq(n, (j: nat) => alloc(i, j))
  }

  // ---- what a stream means

  function Enabled(m: EpMap): map<Sig, nat> { map k | k in m && m[k].enable :: m[k].action }

  function Stale(m: EpMap): set<Sig> { set k | k in m && !m[k].enable }

  function Sigs(rules: seq<Rule>): set<Sig> { set r <- rules :: r.sig }

  /** Rules taken in order; of several for a signature the first counts. */
  function FirstOf(acc: map<Sig, nat>, rules: seq<Rule>): map<Sig, nat> {
    if rules == [] then acc
    else
      var m, r := FirstOf(acc, rules[..|rules| - 1]), rules[|rules| - 1];
      if r.sig in m then m else m[r.sig := r.action]
  }

  /** The rules that are not lost on an endpoint that has entries for `keys`. */
  function Kept(keys: set<Sig>, rules: seq<Rule>, oks: seq<bool>): seq<Rule>
    requires |rules| == |oks|
  {
    if rules == [] then []
    else
      var n := |rules| - 1;
      Kept(keys, rules[..n], oks[..n]) + if oks[n] || rules[n].sig in keys then [rules[n]] else []
  }

  /** The map with just these rules, all enabled. */
  function Exactly(rules: map<Sig, nat>): EpMap { map k | k in rules :: Cfg(rules[k], true) }

  lemma KeysSplit(m: EpMap)
    ensures m.Keys == Enabled(m).Keys + Stale(m)
  {
  }

  lemma ExactlyWithoutStale(m: EpMap, rules: map<Sig, nat>)
    requires Enabled(m) == rules
    ensures m == Exactly(rules) <==> Stale(m) == {}
  {
    KeysSplit(m);
    if Stale(m) == {} {
      assert forall k <- m :: k in Enabled(m) && m[k] == Cfg(Enabled(m)[k], true);
    }
  }

  lemma SigsLast(rules: seq<Rule>)
    requires rules != []
    ensures Sigs(rules) == Sigs(rules[..|rules| - 1]) + {rules[|rules| - 1].sig}
  {
    assert rules == rules[..|rules| - 1] + [rules[|rules| - 1]];
  }

  lemma {:induction false} FirstOfKeys(acc: map<Sig, nat>, rules: seq<Rule>)
    ensures FirstOf(acc, rules).Keys == acc.Keys + Sigs(rules)
    ensures forall k :: k in acc ==> FirstOf(acc, rules)[k] == acc[k]
  {
    if rules != [] {
      SigsLast(rules);
      FirstOfKeys(acc, rules[..|rules| - 1]);
    }
  }

  lemma {:induction false} FirstOfSaturated(acc: map<Sig, nat>, rules: seq<Rule>)
    requires Sigs(rules) <= acc.Keys
    ensures FirstOf(acc, rules) == acc
  {
    if rules != [] {
      SigsLast(rules);
      FirstOfSaturated(acc, rules[..|rules| - 1]);
    }
  }

  lemma {:induction false} FirstOfSplit(acc: map<Sig, nat>, a: seq<Rule>, b: seq<Rule>)
    ensures FirstOf(acc, a + b) == FirstOf(FirstOf(acc, a), b)
  {
    if b == [] {
      assert a + b == a;
    } else {
      assert (a + b)[..|a + b| - 1] == a + b[..|b| - 1];
      FirstOfSplit(acc, a, b[..|b| - 1]);
    }
  }

  /** The action of a signature is that of the first rule that names it. */
  lemma {:induction false} FirstOfIsFirst(rules: seq<Rule>, sig: Sig)
    ensures sig in FirstOf(map[], rules) <==> exists i :: 0 <= i < |rules| && rules[i].sig == sig
    ensures sig in FirstOf(map[], rules) ==>
              exists i :: 0 <= i < |rules| && rules[i] == Rule(sig, FirstOf(map[], rules)[sig])
                          && forall j :: 0 <= j < i ==> rules[j].sig != sig
  {
    if rules != [] {
      var n := |rules| - 1;
      FirstOfIsFirst(rules[..n], sig);
      if sig in FirstOf(map[], rules[..n]) {
        var i :| 0 <= i < n && rules[..n][i] == Rule(sig, FirstOf(map[], rules[..n])[sig])
                 && forall j :: 0 <= j < i ==> rules[..n][j].sig != sig;
        assert rules[i] == rules[..n][i] && forall j :: 0 <= j < i ==> rules[j] == rules[..n][j];
      } else {
        assert forall j :: 0 <= j < n ==> rules[j] == rules[..n][j];
        if rules[n].sig == sig {
          assert rules[n] == Rule(sig, FirstOf(map[], rules)[sig]);
        }
      }
    }
  }

  // ---- rules that are lost

  lemma {:induction false} KeptSigs(keys: set<Sig>, rules: seq<Rule>, oks: seq<bool>)
    requires |rules| == |oks|
    ensures Sigs(rules) * keys <= Sigs(Kept(keys, rules, oks)) <= Sigs(rules)
    ensures (forall j :: 0 <= j < |oks| ==> oks[j]) ==> Kept(keys, rules, oks) == rules
  {
    if rules != [] {
      var n := |rules| - 1;
      var kept := Kept(keys, rules[..n], oks[..n]);
      KeptSigs(keys, rules[..n], oks[..n]);
      SigsLast(rules);
      assert Sigs(kept + [rules[n]]) == Sigs(kept) + {rules[n].sig};
      assert kept + [] == kept;
      assert rules == rules[..n] + [rules[n]];
    }
  }

  lemma {:induction false} KeptSplit(keys: set<Sig>, a: seq<Rule>, b: seq<Rule>, oksA: seq<bool>, oksB: seq<bool>)
    requires |a| == |oksA| && |b| == |oksB|
    ensures Kept(keys, a + b, oksA + oksB) == Kept(keys, a, oksA) + Kept(keys, b, oksB)
  {
    if b == [] {
      assert a + b == a && oksA + oksB == oksA && Kept(keys, a, oksA) + [] == Kept(keys, a, oksA);
    } else {
      var n := |b| - 1;
      assert (a + b)[..|a| + n] == a + b[..n] && (oksA + oksB)[..|a| + n] == oksA + oksB[..n];
      KeptSplit(keys, a, b[..n], oksA, oksB[..n]);
    }
  }

  /** Entries for signatures that are enabled anyway make no difference. */
  lemma {:induction false} KeptMoreKeys(acc: map<Sig, nat>, keys: set<Sig>, rules: seq<Rule>, oks: seq<bool>)
    requires |rules| == |oks|
    ensures FirstOf(acc, Kept(keys + acc.Keys, rules, oks)) == FirstOf(acc, Kept(keys, rules, oks))
  {
    if rules != [] {
      var n := |rules| - 1;
      var more, kept := Kept(keys + acc.Keys, rules[..n], oks[..n]), Kept(keys, rules[..n], oks[..n]);
      KeptMoreKeys(acc, keys, rules[..n], oks[..n]);
      FirstOfKeys(acc, kept);
      FirstOfSplit(acc, more, [rules[n]]);
      FirstOfSplit(acc, kept, [rules[n]]);
      assert [rules[n]][..0] == [];
      assert more + [] == more && kept + [] == kept;
    }
  }

  function Rules(sigs: seq<Sig>, actions: seq<nat>): seq<Rule>
    requires |sigs| == |actions|
  {
    seq(|sigs|, i requires 0 <= i < |sigs| => Rule(sigs[i], actions[i]))
  }

  /** The first rule for each signature the endpoint has no entry for gets its memory. */
  predicate FirstsAllocated(keys: set<Sig>, sigs: seq<Sig>, oks: seq<bool>)
    requires |sigs| == |oks|
  {
    forall j :: 0 <= j < |sigs| && sigs[j] !in keys && sigs[j] !in sigs[..j] ==> oks[j]
  }

  lemma {:induction false} FirstsSuffice(keys: set<Sig>, sigs: seq<Sig>, actions: seq<nat>, oks: seq<bool>)
    requires |sigs| == |oks| == |actions| && FirstsAllocated(keys, sigs, oks)
    ensures FirstOf(map[], Kept(keys, Rules(sigs, actions), oks)) == FirstOf(map[], Rules(sigs, actions))
  {
    if sigs != [] {
      var n := |sigs| - 1;
      var rules := Rules(sigs, actions);
      var init := Rules(sigs[..n], actions[..n]);
      assert rules[..n] == init;
      assert forall j :: 0 <= j < n ==> sigs[..n][..j] == sigs[..j];
      FirstsSuffice(keys, sigs[..n], actions[..n], oks[..n]);
      FirstOfKeys(map[], init);
      FirstOfSplit(map[], Kept(keys, init, oks[..n]), [rules[n]]);
      assert [rules[n]][..0] == [];
      if sigs[n] in sigs[..n] {
        var i :| 0 <= i < n && sigs[i] == sigs[n];
        assert init[i] in init;
      }
      assert Kept(keys, init, oks[..n]) + [] == Kept(keys, init, oks[..n]);
    }
  }

  lemma {:induction false} KeptMember(keys: set<Sig>, rules: seq<Rule>, oks: seq<bool>, k: nat)
    requires |rules| == |oks| && k < |Kept(keys, rules, oks)|
    ensures exists i :: 0 <= i < |rules| && rules[i] == Kept(keys, rules, oks)[k] && (oks[i] || rules[i].sig in keys)
  {
    var n := |rules| - 1;
    var kept := Kept(keys, rules[..n], oks[..n]);
    if k < |kept| {
      KeptMember(keys, rules[..n], oks[..n], k);
      var i :| 0 <= i < n && rules[..n][i] == kept[k] && (oks[..n][i] || rules[..n][i].sig in keys);
      assert rules[i] == kept[k] && (oks[i] || rules[i].sig in keys);
    } else {
      assert rules[n] == Kept(keys, rules, oks)[k] && (oks[n] || rules[n].sig in keys);
    }
  }

  function Numbered(n: nat): seq<nat> { seq(n, i => i) }

  lemma LostFirstShows(keys: set<Sig>, sigs: seq<Sig>, oks: seq<bool>, j: nat)
    requires |sigs| == |oks| && j < |sigs| && sigs[j] !in keys && sigs[j] !in sigs[..j] && !oks[j]
    ensures var rules := Rules(sigs, Numbered(|sigs|));
            FirstOf(map[], Kept(keys, rules, oks)) != FirstOf(map[], rules)
  {
    var rules, sig := Rules(sigs, Numbered(|sigs|)), sigs[j];
    var kept := Kept(keys, rules, oks);
    FirstOfIsFirst(rules, sig);
    assert rules[j].sig == sig;
    var i :| 0 <= i < |rules| && rules[i] == Rule(sig, FirstOf(map[], rules)[sig]) && forall h :: 0 <= h < i ==> rules[h].sig != sig;
    assert forall h :: 0 <= h < j ==> sigs[h] in sigs[..j];
    assert i == j;
    forall k | 0 <= k < |kept|
      ensures kept[k] != Rule(sig, j)
    {
      KeptMember(keys, rules, oks, k);
      var h :| 0 <= h < |rules| && rules[h] == kept[k] && (oks[h] || rules[h].sig in keys);
    }
    FirstOfIsFirst(kept, sig);
  }

  ghost predicate NothingLost(keys: set<Sig>, sigs: seq<Sig>, oks: seq<bool>)
    requires |sigs| == |oks|
  {
    forall actions: seq<nat> | |actions| == |sigs| ::
      FirstOf(map[], Kept(keys, Rules(sigs, actions), oks)) == FirstOf(map[], Rules(sigs, actions))
  }

  /** Whatever the actions, the enabled entries are those of the stream if and only if the first rule
      for each signature that the endpoint has no entry for gets its memory. */
  lemma NothingLostIffFirstsAllocated(keys: set<Sig>, sigs: seq<Sig>, oks: seq<bool>)
    requires |sigs| == |oks|
    ensures NothingLost(keys, sigs, oks) <==> FirstsAllocated(keys, sigs, oks)
  {
    if FirstsAllocated(keys, sigs, oks) {
      forall actions: seq<nat> | |actions| == |sigs|
        ensures FirstOf(map[], Kept(keys, Rules(sigs, actions), oks)) == FirstOf(map[], Rules(sigs, actions))
      {
        FirstsSuffice(keys, sigs, actions, oks);
      }
    } else {
      var j :| 0 <= j < |sigs| && sigs[j] !in keys && sigs[j] !in sigs[..j] && !oks[j];
      LostFirstShows(keys, sigs, oks, j);
      assert |Numbered(|sigs|)| == |sigs|;
    }
  }

  // ---- one endpoint, one message

  function AddRule(m: EpMap, r: Rule, ok: bool): EpMap {
    if r.sig !in m then (if ok then m[r.sig := Cfg(r.action, true)] else m)
    else if !m[r.sig].enable then m[r.sig := Cfg(r.action, true)]
    else m
  }

  function AddRules(m: EpMap, rules: seq<Rule>, oks: seq<bool>): EpMap
    requires |rules| == |oks|
  {
    if rules == [] then m
    else
      var n := |rules| - 1;
      AddRule(AddRules(m, rules[..n], oks[..n]), rules[n], oks[n])
  }

  lemma AddRuleEffect(m: EpMap, r: Rule, ok: bool)
    ensures Enabled(AddRule(m, r, ok)) ==
            if r.sig in Enabled(m) || (r.sig !in m && !ok) then Enabled(m) else Enabled(m)[r.sig := r.action]
    ensures Stale(AddRule(m, r, ok)) == Stale(m) - {r.sig}
    ensures AddRule(m, r, ok).Keys == m.Keys + Enabled(AddRule(m, r, ok)).Keys
  {
  }

  lemma {:induction false} AddRulesEffect(m: EpMap, rules: seq<Rule>, oks: seq<bool>)
    requires |rules| == |oks|
    ensures Enabled(AddRules(m, rules, oks)) == FirstOf(Enabled(m), Kept(m.Keys, rules, oks))
    ensures Stale(AddRules(m, rules, oks)) == Stale(m) - Sigs(rules)
    ensures AddRules(m, rules, oks).Keys == m.Keys + Enabled(AddRules(m, rules, oks)).Keys
  {
    if rules == [] {
      KeysSplit(m);
    } else {
      var n := |rules| - 1;
      var m1, kept := AddRules(m, rules[..n], oks[..n]), Kept(m.Keys, rules[..n], oks[..n]);
      AddRulesEffect(m, rules[..n], oks[..n]);
      AddRuleEffect(m1, rules[n], oks[n]);
      SigsLast(rules);
      FirstOfSplit(Enabled(m), kept, [rules[n]]);
      assert [rules[n]][..0] == [];
      assert kept + [] == kept;
    }
  }

  function Disabled(m: EpMap): EpMap { map k | k in m :: m[k].(enable := false) }

  /** What is enabled before the message's rules are. */
  function Base(m: EpMap, msg: Msg): map<Sig, nat> { if msg.first then map[] else Enabled(m) }

  /** What is disabled once they are. */
  function Left(m: EpMap, msg: Msg): set<Sig>
    requires msg.rules.Some?
  {
    (if msg.first then m.Keys else Stale(m)) - Sigs(msg.rules.value)
  }

  /** What one message leaves: the rules it enables, and of the disabled entries some or, before
      the last message, all. */
  predicate Handled(m: EpMap, msg: Msg, oks: seq<bool>, m': EpMap)
    requires msg.rules.Some? && |oks| == |msg.rules.value|
  {
    && Enabled(m') == FirstOf(Base(m, msg), Kept(m.Keys, msg.rules.value, oks))
    && Stale(m') <= Left(m, msg)
    && (!msg.last ==> Stale(m') == Left(m, msg) && m'.Keys == m.Keys + Enabled(m').Keys)
  }

  lemma DeleteStale(m: EpMap, k: Sig)
    requires k in m && !m[k].enable
    ensures Enabled(m - {k}) == Enabled(m) && Stale(m - {k}) == Stale(m) - {k} && |Stale(m - {k})| + 1 == |Stale(m)|
  {
    assert Stale(m) == Stale(m - {k}) + {k};
  }

  /** Deletes disabled entries in any order while the count allows. */
  method Sweep(p: EpMap, cnt: nat) returns (m: EpMap, cnt': nat)
    requires cnt <= MAX_DLPCFG_DELETE
    ensures Enabled(m) == Enabled(p) && Stale(m) <= Stale(p)
    ensures cnt' == Min(MAX_DLPCFG_DELETE, cnt + |Stale(p)|) && |Stale(m)| + cnt' == |Stale(p)| + cnt
  {
    m, cnt' := p, cnt;
    var rest := p.Keys;
    while rest != {}
      invariant rest <= m.Keys && cnt' <= MAX_DLPCFG_DELETE
      invariant Enabled(m) == Enabled(p) && Stale(m) <= Stale(p)
      invariant |Stale(m)| + cnt' == |Stale(p)| + cnt
      invariant cnt' < MAX_DLPCFG_DELETE ==> Stale(m) <= rest
    {
      var k :| k in rest;
      rest := rest - {k};
      if !m[k].enable && cnt' < MAX_DLPCFG_DELETE {
        DeleteStale(m, k);
        m := m - {k};
        cnt' := cnt' + 1;
      }
    }
    if cnt' < MAX_DLPCFG_DELETE { assert Stale(m) == {}; }
  }

  method EnableRules(m: EpMap, rules: seq<Rule>, oks: seq<bool>) returns (m': EpMap)
    requires |rules| == |oks|
    ensures m' == AddRules(m, rules, oks)
    ensures Enabled(m') == FirstOf(Enabled(m), Kept(m.Keys, rules, oks)) && Stale(m') == Stale(m) - Sigs(rules)
  {
    m' := m;
    for j := 0 to |rules|
      invariant m' == AddRules(m, rules[..j], oks[..j])
    {
      assert rules[..j + 1][..j] == rules[..j] && oks[..j + 1][..j] == oks[..j];
      var r := rules[j];
      if r.sig !in m' {
        if oks[j] {
          m' := m'[r.sig := Cfg(r.action, true)];
        }
      } else if !m'[r.sig].enable {
        m' := m'[r.sig := Cfg(r.action, true)];
      }
    }
    assert rules[..|rules|] == rules && oks[..|oks|] == oks;
    AddRulesEffect(m, rules, oks);
  }

  lemma DisabledEffect(m: EpMap)
    ensures Enabled(Disabled(m)) == map[] && Stale(Disabled(m)) == m.Keys && Disabled(m).Keys == m.Keys
  {
  }

  method HandleEndpoint(m: EpMap, msg: Msg, oks: seq<bool>, cnt: nat) returns (m': EpMap, cnt': nat)
    requires msg.rules.Some? && |oks| == |msg.rules.value| && cnt <= MAX_DLPCFG_DELETE
    ensures Handled(m, msg, oks, m')
    ensures var left := |Left(m, msg)|;
            && cnt' == (if msg.last then Min(MAX_DLPCFG_DELETE, cnt + left) else cnt)
            && |Stale(m')| + cnt' == left + cnt
  {
    m', cnt' := m, cnt;
    if msg.first {
      m' := map k | k in m :: m[k].(enable := false);
    }
    DisabledEffect(m);
    AddRulesEffect(m', msg.rules.value, oks);
    m' := EnableRules(m', msg.rules.value, oks);
    if msg.last {
      m', cnt' := Sweep(m', cnt);
    }
  }

  // ---- all endpoints of a message

  /** The message as handled at the i-th endpoint it names. */
  predicate HandledAt(m: EpMap, msg: Msg, alloc: Alloc, i: nat, m': EpMap)
    requires msg.rules.Some?
  {
    Handled(m, msg, Oks(alloc, i, |msg.rules.value|), m')
  }

  /** An endpoint's map once the first n endpoints named have been handled: it takes its turn as often
      as it is named. */
  ghost predicate Visited(m0: EpMap, msg: Msg, alloc: Alloc, mac: Mac, n: nat, m': EpMap)
    requires msg.rules.Some? && n <= |msg.macs|
  {
    if n == 0 then m' == m0
    else
      var i := n - 1;
      if msg.macs[i] == mac then exists m :: Visited(m0, msg, alloc, mac, i, m) && HandledAt(m, msg, alloc, i, m')
      else Visited(m0, msg, alloc, mac, i, m')
  }

  /** A second turn finds disabled what the first left so, and enables what the first enabled. */
  lemma SecondTurn(m: EpMap, msg: Msg, m1: EpMap)
    requires msg.rules.Some?
    requires Stale(m1) <= Left(m, msg) && Enabled(m1).Keys <= Base(m, msg).Keys + Sigs(msg.rules.value)
    ensures Left(m1, msg) == Stale(m1)
  {
    KeysSplit(m1);
  }

  lemma HandledKeys(m: EpMap, msg: Msg, oks: seq<bool>, m': EpMap)
    requires msg.rules.Some? && |oks| == |msg.rules.value| && Handled(m, msg, oks, m')
    ensures Base(m, msg).Keys + Sigs(msg.rules.value) * m.Keys <= Enabled(m').Keys <= Base(m, msg).Keys + Sigs(msg.rules.value)
  {
    FirstOfKeys(Base(m, msg), Kept(m.Keys, msg.rules.value, oks));
    KeptSigs(m.Keys, msg.rules.value, oks);
  }

  /** What the turns of an endpoint leave, whatever memory there is. */
  predicate Turned(m0: EpMap, msg: Msg, m': EpMap)
    requires msg.rules.Some?
  {
    && Stale(m') <= Left(m0, msg)
    && Base(m0, msg).Keys <= Enabled(m').Keys <= Base(m0, msg).Keys + Sigs(msg.rules.value)
    && (!msg.last ==> Stale(m') == Left(m0, msg) && m'.Keys == m0.Keys + Enabled(m').Keys)
  }

  lemma TurnAgain(m0: EpMap, msg: Msg, m: EpMap, oks: seq<bool>, m': EpMap)
    requires msg.rules.Some? && |oks| == |msg.rules.value| && Turned(m0, msg, m) && Handled(m, msg, oks, m')
    ensures Turned(m0, msg, m')
  {
    SecondTurn(m0, msg, m);
    HandledKeys(m, msg, oks, m');
    KeysSplit(m);
  }

  lemma {:induction false} VisitedTurns(m0: EpMap, msg: Msg, alloc: Alloc, mac: Mac, n: nat, m': EpMap)
    requires msg.rules.Some? && n <= |msg.macs| && Visited(m0, msg, alloc, mac, n, m')
    ensures if mac in msg.macs[..n] then Turned(m0, msg, m') else m' == m0
  {
    if n > 0 {
      assert msg.macs[..n] == msg.macs[..n - 1] + [msg.macs[n - 1]];
      if msg.macs[n - 1] == mac {
        var m :| Visited(m0, msg, alloc, mac, n - 1, m) && HandledAt(m, msg, alloc, n - 1, m');
        var oks := Oks(alloc, n - 1, |msg.rules.value|);
        VisitedTurns(m0, msg, alloc, mac, n - 1, m);
        if mac in msg.macs[..n - 1] {
          TurnAgain(m0, msg, m, oks, m');
        } else {
          HandledKeys(m0, msg, oks, m');
        }
      } else {
        VisitedTurns(m0, msg, alloc, mac, n - 1, m');
      }
    }
  }

  /** Memory is to be had whenever the endpoint takes its turn. */
  predicate Plenty(msg: Msg, alloc: Alloc, mac: Mac, n: nat)
    requires msg.rules.Some? && n <= |msg.macs|
  {
    forall i, j :: 0 <= i < n && msg.macs[i] == mac && 0 <= j < |msg.rules.value| ==> alloc(i, j)
  }

  lemma PlentyKeeps(m: EpMap, msg: Msg, alloc: Alloc, mac: Mac, n: nat, m': EpMap)
    requires msg.rules.Some? && 0 < n <= |msg.macs| && msg.macs[n - 1] == mac
    requires Plenty(msg, alloc, mac, n) && HandledAt(m, msg, alloc, n - 1, m')
    ensures Enabled(m') == FirstOf(Base(m, msg), msg.rules.value)
  {
    KeptSigs(m.Keys, msg.rules.value, Oks(alloc, n - 1, |msg.rules.value|));
  }

  /** With enough memory an endpoint named more than once is left as by naming it once. */
  lemma {:induction false} VisitedWithPlenty(m0: EpMap, msg: Msg, alloc: Alloc, mac: Mac, n: nat, m': EpMap)
    requires msg.rules.Some? && n <= |msg.macs| && mac in msg.macs[..n]
    requires Visited(m0, msg, alloc, mac, n, m') && Plenty(msg, alloc, mac, n)
    ensures Enabled(m') == FirstOf(Base(m0, msg), msg.rules.value)
  {
    assert msg.macs[..n] == msg.macs[..n - 1] + [msg.macs[n - 1]];
    if msg.macs[n - 1] == mac {
      var m :| Visited(m0, msg, alloc, mac, n - 1, m) && HandledAt(m, msg, alloc, n - 1, m');
      PlentyKeeps(m, msg, alloc, mac, n, m');
      if mac in msg.macs[..n - 1] {
        VisitedWithPlenty(m0, msg, alloc, mac, n - 1, m);
        FirstOfKeys(Base(m0, msg), msg.rules.value);
        if !msg.first { FirstOfSaturated(Enabled(m), msg.rules.value); }
      } else {
        VisitedTurns(m0, msg, alloc, mac, n - 1, m);
      }
    } else {
      VisitedWithPlenty(m0, msg, alloc, mac, n - 1, m');
    }
  }

  /** The endpoint is named at this place and nowhere else. */
  predicate OnceAt(macs: seq<Mac>, mac: Mac, i: nat) {
    i < |macs| && macs[i] == mac && forall j :: 0 <= j < |macs| && macs[j] == mac ==> j == i
  }

  lemma {:induction false} VisitedOnce(m0: EpMap, msg: Msg, alloc: Alloc, mac: Mac, i: nat, n: nat, m': EpMap)
    requires msg.rules.Some? && n <= |msg.macs| && OnceAt(msg.macs, mac, i) && Visited(m0, msg, alloc, mac, n, m')
    ensures if i < n then HandledAt(m0, msg, alloc, i, m') else m' == m0
  {
    if n > 0 {
      if n - 1 == i {
        var m :| Visited(m0, msg, alloc, mac, n - 1, m) && HandledAt(m, msg, alloc, n - 1, m');
        VisitedOnce(m0, msg, alloc, mac, i, n - 1, m);
      } else {
        VisitedOnce(m0, msg, alloc, mac, i, n - 1, m');
      }
    }
  }

  /** How many disabled entries the last message finds on each endpoint it names. */
  function Pending(eps: map<Mac, EpMap>, msg: Msg): map<Mac, nat>
    requires msg.rules.Some?
  {
    map mac | mac in eps && mac in msg.macs :: |Left(eps[mac], msg)|
  }

  function Itself(): nat -> nat { (n: nat) => n }

  ghost predicate Done(eps0: map<Mac, EpMap>, msg: Msg, alloc: Alloc, eps: map<Mac, EpMap>, n: nat)
    requires msg.rules.Some? && n <= |msg.macs|
  {
    eps.Keys == eps0.Keys && forall mac <- eps :: Visited(eps0[mac], msg, alloc, mac, n, eps[mac])
  }

  predicate CountsAt(eps0: map<Mac, EpMap>, msg: Msg, eps: map<Mac, EpMap>, n: nat, left: map<Mac, nat>, mac: Mac)
    requires msg.rules.Some? && n <= |msg.macs| && eps.Keys == eps0.Keys && mac in left && mac in eps
  {
    left[mac] == if mac in msg.macs[..n] then |Stale(eps[mac])| else |Left(eps0[mac], msg)|
  }

  /** `left` counts the disabled entries of each named endpoint, as they are or will be found. */
  ghost predicate Counts(eps0: map<Mac, EpMap>, msg: Msg, eps: map<Mac, EpMap>, n: nat, left: map<Mac, nat>)
    requires msg.rules.Some? && n <= |msg.macs| && eps.Keys == eps0.Keys
  {
    && left.Keys == Pending(eps0, msg).Keys
    && forall mac <- left :: CountsAt(eps0, msg, eps, n, left, mac)
  }

  /** What the endpoint's turn finds is what is counted. */
  lemma AlreadyCounted(eps0: map<Mac, EpMap>, msg: Msg, alloc: Alloc, eps: map<Mac, EpMap>, i: nat, left: map<Mac, nat>)
    requires msg.rules.Some? && i < |msg.macs| && msg.macs[i] in eps
    requires Done(eps0, msg, alloc, eps, i) && Counts(eps0, msg, eps, i, left)
    ensures msg.macs[i] in left && left[msg.macs[i]] == |Left(eps[msg.macs[i]], msg)|
  {
    var mac := msg.macs[i];
    assert mac in msg.macs && mac in left && CountsAt(eps0, msg, eps, i, left, mac);
    VisitedTurns(eps0[mac], msg, alloc, mac, i, eps[mac]);
    if mac in msg.macs[..i] { SecondTurn(eps0[mac], msg, eps[mac]); }
  }

  lemma Named(msg: Msg, i: nat, x: Mac)
    requires i < |msg.macs|
    ensures x in msg.macs[..i + 1] <==> x in msg.macs[..i] || x == msg.macs[i]
  {
    assert msg.macs[..i + 1] == msg.macs[..i] + [msg.macs[i]];
  }

  lemma NextDone(eps0: map<Mac, EpMap>, msg: Msg, alloc: Alloc, eps: map<Mac, EpMap>, i: nat, m: EpMap)
    requires msg.rules.Some? && i < |msg.macs| && msg.macs[i] in eps
    requires Done(eps0, msg, alloc, eps, i) && HandledAt(eps[msg.macs[i]], msg, alloc, i, m)
    ensures Done(eps0, msg, alloc, eps[msg.macs[i] := m], i + 1)
  {
    var eps' := eps[msg.macs[i] := m];
    forall x | x in eps'
      ensures Visited(eps0[x], msg, alloc, x, i + 1, eps'[x])
    {
      assert Visited(eps0[x], msg, alloc, x, i, eps[x]);
    }
  }

  lemma NextCountsAt(eps0: map<Mac, EpMap>, msg: Msg, eps: map<Mac, EpMap>, i: nat, left: map<Mac, nat>, m: EpMap, x: Mac)
    requires msg.rules.Some? && i < |msg.macs| && eps.Keys == eps0.Keys && x in left && x in eps && msg.macs[i] in eps
    requires CountsAt(eps0, msg, eps, i, left, x)
    ensures CountsAt(eps0, msg, eps[msg.macs[i] := m], i + 1, left[msg.macs[i] := |Stale(m)|], x)
  {
    Named(msg, i, x);
  }

  lemma SameKeys<K, V>(m: map<K, V>, k: K, v: V)
    requires k in m
    ensures m[k := v].Keys == m.Keys
  {
  }

  lemma NextCounts(eps0: map<Mac, EpMap>, msg: Msg, eps: map<Mac, EpMap>, i: nat, left: map<Mac, nat>, m: EpMap)
    requires msg.rules.Some? && i < |msg.macs| && msg.macs[i] in left && eps.Keys == eps0.Keys
    requires Counts(eps0, msg, eps, i, left)
    ensures Counts(eps0, msg, eps[msg.macs[i] := m], i + 1, left[msg.macs[i] := |Stale(m)|])
  {
    SameKeys(eps, msg.macs[i], m);
    SameKeys(left, msg.macs[i], |Stale(m)|);
    forall x | x in left
      ensures CountsAt(eps0, msg, eps[msg.macs[i] := m], i + 1, left[msg.macs[i] := |Stale(m)|], x)
    {
      assert CountsAt(eps0, msg, eps, i, left, x);
      NextCountsAt(eps0, msg, eps, i, left, m, x);
    }
  }

  lemma SkipUnknown(eps0: map<Mac, EpMap>, msg: Msg, alloc: Alloc, eps: map<Mac, EpMap>, i: nat, left: map<Mac, nat>)
    requires msg.rules.Some? && i < |msg.macs| && msg.macs[i] !in eps
    requires Done(eps0, msg, alloc, eps, i) && Counts(eps0, msg, eps, i, left)
    ensures Done(eps0, msg, alloc, eps, i + 1) && Counts(eps0, msg, eps, i + 1, left)
  {
    forall x | x in eps
      ensures Visited(eps0[x], msg, alloc, x, i + 1, eps[x]) && (x in msg.macs[..i + 1] <==> x in msg.macs[..i])
    {
      assert Visited(eps0[x], msg, alloc, x, i, eps[x]);
      Named(msg, i, x);
    }
    forall x | x in left
      ensures CountsAt(eps0, msg, eps, i + 1, left, x)
    {
      assert CountsAt(eps0, msg, eps, i, left, x);
    }
  }

  /** With `cnt` deletions made so far, what is left to delete; none of it at endpoints done while the
      count allowed. */
  ghost predicate Budget(eps0: map<Mac, EpMap>, msg: Msg, n: nat, left: map<Mac, nat>, cnt: nat)
    requires msg.rules.Some? && n <= |msg.macs|
  {
    && cnt <= MAX_DLPCFG_DELETE
    && Sum(left, Itself()) + cnt == Sum(Pending(eps0, msg), Itself())
    && (cnt < MAX_DLPCFG_DELETE ==> forall mac <- left :: mac in msg.macs[..n] ==> left[mac] == 0)
  }

  lemma CleanWhenWithinLimit(eps0: map<Mac, EpMap>, msg: Msg, eps: map<Mac, EpMap>, left: map<Mac, nat>, cnt: nat)
    requires msg.rules.Some? && eps.Keys == eps0.Keys && msg.macs[..|msg.macs|] == msg.macs
    requires Counts(eps0, msg, eps, |msg.macs|, left) && Budget(eps0, msg, |msg.macs|, left, cnt)
    ensures (forall mac <- eps :: mac in msg.macs ==> Stale(eps[mac]) == {}) <==>
            Sum(Pending(eps0, msg), Itself()) <= MAX_DLPCFG_DELETE
  {
    SumZero<Mac, nat>(left, Itself());
    forall mac | mac in left
      ensures left[mac] == |Stale(eps[mac])|
    {
      assert CountsAt(eps0, msg, eps, |msg.macs|, left, mac);
    }
  }

  lemma NextBudget(eps0: map<Mac, EpMap>, msg: Msg, i: nat, left: map<Mac, nat>, cnt: nat, stale: nat, cnt': nat)
    requires msg.rules.Some? && i < |msg.macs| && Budget(eps0, msg, i, left, cnt) && msg.macs[i] in left
    requires cnt' == Min(MAX_DLPCFG_DELETE, cnt + left[msg.macs[i]]) && stale + cnt' == left[msg.macs[i]] + cnt
    ensures Budget(eps0, msg, i + 1, left[msg.macs[i] := stale], cnt')
  {
    SumPut<Mac, nat>(left, msg.macs[i], stale, Itself());
    forall x | x in left && x in msg.macs[..i + 1]
      ensures x in msg.macs[..i] || x == msg.macs[i]
    {
      Named(msg, i, x);
    }
  }

  lemma SkipBudget(eps0: map<Mac, EpMap>, msg: Msg, i: nat, left: map<Mac, nat>, cnt: nat)
    requires msg.rules.Some? && i < |msg.macs| && Budget(eps0, msg, i, left, cnt) && msg.macs[i] !in left
    ensures Budget(eps0, msg, i + 1, left, cnt)
  {
    forall x | x in left && x in msg.macs[..i + 1]
      ensures x in msg.macs[..i]
    {
      Named(msg, i, x);
    }
  }

  /** After n of the endpoints named. */
  ghost predicate UpTo(eps0: map<Mac, EpMap>, msg: Msg, alloc: Alloc, eps: map<Mac, EpMap>, n: nat, left: map<Mac, nat>, cnt: nat)
    requires msg.rules.Some? && n <= |msg.macs|
  {
    && Done(eps0, msg, alloc, eps, n) && Counts(eps0, msg, eps, n, left)
    && cnt <= MAX_DLPCFG_DELETE && (msg.last ==> Budget(eps0, msg, n, left, cnt))
  }

  lemma NextUpTo(eps0: map<Mac, EpMap>, msg: Msg, alloc: Alloc, eps: map<Mac, EpMap>, i: nat, left: map<Mac, nat>, cnt: nat,
                 m: EpMap, cnt': nat)
    requires msg.rules.Some? && i < |msg.macs| && msg.macs[i] in eps && UpTo(eps0, msg, alloc, eps, i, left, cnt)
    requires HandledAt(eps[msg.macs[i]], msg, alloc, i, m)
    requires var found := |Left(eps[msg.macs[i]], msg)|;
             cnt' == (if msg.last then Min(MAX_DLPCFG_DELETE, cnt + found) else cnt) && |Stale(m)| + cnt' == found + cnt
    ensures UpTo(eps0, msg, alloc, eps[msg.macs[i] := m], i + 1, left[msg.macs[i] := |Stale(m)|], cnt')
  {
    AlreadyCounted(eps0, msg, alloc, eps, i, left);
    NextDone(eps0, msg, alloc, eps, i, m);
    NextCounts(eps0, msg, eps, i, left, m);
    if msg.last { NextBudget(eps0, msg, i, left, cnt, |Stale(m)|, cnt'); }
  }

  lemma SkipUpTo(eps0: map<Mac, EpMap>, msg: Msg, alloc: Alloc, eps: map<Mac, EpMap>, i: nat, left: map<Mac, nat>, cnt: nat)
    requires msg.rules.Some? && i < |msg.macs| && msg.macs[i] !in eps && UpTo(eps0, msg, alloc, eps, i, left, cnt)
    ensures UpTo(eps0, msg, alloc, eps, i + 1, left, cnt)
  {
    SkipUnknown(eps0, msg, alloc, eps, i, left);
    if msg.last { SkipBudget(eps0, msg, i, left, cnt); }
  }

  lemma StartUpTo(eps0: map<Mac, EpMap>, msg: Msg, alloc: Alloc)
    requires msg.rules.Some?
    ensures UpTo(eps0, msg, alloc, eps0, 0, Pending(eps0, msg), 0)
  {
    forall mac | mac in Pending(eps0, msg)
      ensures CountsAt(eps0, msg, eps0, 0, Pending(eps0, msg), mac)
    {
    }
  }

  lemma EndUpTo(eps0: map<Mac, EpMap>, msg: Msg, alloc: Alloc, eps: map<Mac, EpMap>, left: map<Mac, nat>, cnt: nat)
    requires msg.rules.Some? && UpTo(eps0, msg, alloc, eps, |msg.macs|, left, cnt)
    ensures Done(eps0, msg, alloc, eps, |msg.macs|)
    ensures msg.last ==>
              ((forall mac <- eps :: mac in msg.macs ==> Stale(eps[mac]) == {}) <==>
               Sum(Pending(eps0, msg), Itself()) <= MAX_DLPCFG_DELETE)
  {
    assert msg.macs[..|msg.macs|] == msg.macs;
    if msg.last { CleanWhenWithinLimit(eps0, msg, eps, left, cnt); }
  }

  /** The next endpoint named, if it is known. */
  method HandleNext(ghost eps0: map<Mac, EpMap>, msg: Msg, alloc: Alloc, eps: map<Mac, EpMap>, i: nat, cnt: nat, ghost left: map<Mac, nat>)
    returns (eps': map<Mac, EpMap>, cnt': nat, ghost left': map<Mac, nat>)
    requires msg.rules.Some? && i < |msg.macs| && UpTo(eps0, msg, alloc, eps, i, left, cnt)
    ensures UpTo(eps0, msg, alloc, eps', i + 1, left', cnt')
  {
    var mac := msg.macs[i];
    if mac !in eps {
      SkipUpTo(eps0, msg, alloc, eps, i, left, cnt);
      return eps, cnt, left;
    }
    var m;
    m, cnt' := HandleEndpoint(eps[mac], msg, Oks(alloc, i, |msg.rules.value|), cnt);
    assert HandledAt(eps[mac], msg, alloc, i, m);
    NextUpTo(eps0, msg, alloc, eps, i, left, cnt, m, cnt');
    eps', left' := eps[mac := m], left[mac := |Stale(m)|];
  }

  method HandleAll(eps0: map<Mac, EpMap>, msg: Msg, alloc: Alloc) returns (eps: map<Mac, EpMap>)
    requires msg.rules.Some?
    ensures Done(eps0, msg, alloc, eps, |msg.macs|)
    ensures msg.last ==>
              ((forall mac <- eps :: mac in msg.macs ==> Stale(eps[mac]) == {}) <==>
               Sum(Pending(eps0, msg), Itself()) <= MAX_DLPCFG_DELETE)
  {
    var cnt: nat := 0;
    eps := eps0;
    ghost var left: map<Mac, nat> := Pending(eps0, msg);
    StartUpTo(eps0, msg, alloc);
    for i := 0 to |msg.macs|
      invariant UpTo(eps0, msg, alloc, eps, i, left, cnt)
    {
      eps, cnt, left := HandleNext(eps0, msg, alloc, eps, i, cnt, left);
    }
    EndUpTo(eps0, msg, alloc, eps, left, cnt);
  }
}
