/** What streams of DLP and WAF rule messages leave on the endpoints they name (dp/ctrl.c).

    Each message of a stream names its own endpoints, an endpoint perhaps more than
    once, and any rule for a new signature can be lost for want of memory. */
module DlpStreams {
  import opened DlpConfig
  import opened MapSums
  import opened Options
  import opened Sequences

  /** One message of a stream, with the memory there is when it is handled. */
  datatype Part = Part(macs: seq<Mac>, rules: seq<Rule>, alloc: Alloc)

  function MsgAt(parts: seq<Part>, i: nat): (msg: Msg)
    requires i < |parts|
    ensures msg.rules.Some?
  {
    Msg(parts[i].macs, i == 0, i == |parts| - 1, Some(parts[i].rules))
  }

  // ---- what an endpoint is given

  /** The rules of the first n messages that name the endpoint. */
  function Given(parts: seq<Part>, n: nat, mac: Mac): seq<Rule>
    requires n <= |parts|
  {
    if n == 0 then []
    else Given(parts, n - 1, mac) + if mac in parts[n - 1].macs then parts[n - 1].rules else []
  }

  function PlaceOf(macs: seq<Mac>, mac: Mac): (i: nat)
    requires mac in macs
    ensures i < |macs| && macs[i] == mac
  {
    if macs[0] == mac then 0 else 1 + PlaceOf(macs[1..], mac)
  }

  /** Whether there is memory for these rules, at the endpoint's place in each message. */
  function GivenOks(parts: seq<Part>, n: nat, mac: Mac): (oks: seq<bool>)
    requires n <= |parts|
    ensures |oks| == |Given(parts, n, mac)|
  {
    if n == 0 then []
    else
      GivenOks(parts, n - 1, mac) +
      if mac in parts[n - 1].macs
      then Oks(parts[n - 1].alloc, PlaceOf(parts[n - 1].macs, mac), |parts[n - 1].rules|) else []
  }

  /** The endpoint was named by the message that starts the stream. */
  predicate Begun(parts: seq<Part>, n: nat, mac: Mac)
    requires n <= |parts|
  {
    n > 0 && mac in parts[0].macs
  }

  predicate NeverNamed(parts: seq<Part>, n: nat, mac: Mac)
    requires n <= |parts|
  {
    forall i :: 0 <= i < n ==> mac !in parts[i].macs
  }

  predicate OnceEach(parts: seq<Part>, n: nat, mac: Mac)
    requires n <= |parts|
  {
    forall i :: 0 <= i < n && mac in parts[i].macs ==> OnceAt(parts[i].macs, mac, PlaceOf(parts[i].macs, mac))
  }

  predicate PlentyAll(parts: seq<Part>, n: nat, mac: Mac)
    requires n <= |parts|
  {
    forall i :: 0 <= i < n ==> Plenty(MsgAt(parts, i), parts[i].alloc, mac, |parts[i].macs|)
  }

  /** What stays enabled and what is to go: a stream starts afresh at the endpoints its start names. */
  function BaseOf(m0: EpMap, begun: bool): map<Sig, nat> { if begun then map[] else Enabled(m0) }

  function Rest(m0: EpMap, begun: bool, rules: seq<Rule>): set<Sig> { (if begun then m0.Keys else Stale(m0)) - Sigs(rules) }

  /** The enabled entries: the rules given, of several for a signature the first, if there is memory;
      and those of the rules that were not lost, if the endpoint is named at most once by a message. */
  predicate Gets(m0: EpMap, parts: seq<Part>, n: nat, mac: Mac, m: EpMap)
    requires n <= |parts|
  {
    var base, given := BaseOf(m0, Begun(parts, n, mac)), Given(parts, n, mac);
    && base.Keys <= Enabled(m).Keys <= base.Keys + Sigs(given)
    && (PlentyAll(parts, n, mac) ==> Enabled(m) == FirstOf(base, given))
    && (OnceEach(parts, n, mac) ==> Enabled(m) == FirstOf(base, Kept(m0.Keys, given, GivenOks(parts, n, mac))))
  }

  /** An endpoint in the middle of a stream. */
  predicate Midway(m0: EpMap, parts: seq<Part>, n: nat, mac: Mac, m: EpMap)
    requires n <= |parts|
  {
    && Gets(m0, parts, n, mac, m)
    && Stale(m) == Rest(m0, Begun(parts, n, mac), Given(parts, n, mac))
    && m.Keys == m0.Keys + Enabled(m).Keys
    && (NeverNamed(parts, n, mac) ==> m == m0)
  }

  /** An endpoint at the end of one: only the last message deletes, and only at the endpoints it names. */
  predicate Streamed(m0: EpMap, parts: seq<Part>, mac: Mac, m: EpMap)
    requires |parts| > 0
  {
    var rest := Rest(m0, Begun(parts, |parts|, mac), Given(parts, |parts|, mac));
    && Gets(m0, parts, |parts|, mac, m)
    && Stale(m) <= rest
    && (mac !in parts[|parts| - 1].macs ==> Stale(m) == rest)
    && (NeverNamed(parts, |parts|, mac) ==> m == m0)
  }

  lemma StartMidway(m0: EpMap, parts: seq<Part>, mac: Mac)
    ensures Midway(m0, parts, 0, mac, m0)
  {
    KeysSplit(m0);
    assert Sigs([]) == {};
  }

  lemma SigsJoin(a: seq<Rule>, b: seq<Rule>)
    ensures Sigs(a + b) == Sigs(a) + Sigs(b)
  {
  }

  /** A message that does not name the endpoint changes nothing for it. */
  lemma PassedOver(m0: EpMap, parts: seq<Part>, n: nat, mac: Mac, m: EpMap, m': EpMap)
    requires n < |parts| && mac !in parts[n].macs && Midway(m0, parts, n, mac, m)
    requires Visited(m, MsgAt(parts, n), parts[n].alloc, mac, |parts[n].macs|, m')
    ensures m' == m && Midway(m0, parts, n + 1, mac, m')
  {
    var macs := parts[n].macs;
    assert macs[..|macs|] == macs;
    VisitedTurns(m, MsgAt(parts, n), parts[n].alloc, mac, |macs|, m');
    assert Given(parts, n + 1, mac) == Given(parts, n, mac);
    assert GivenOks(parts, n + 1, mac) == GivenOks(parts, n, mac);
  }

  /** What a message that names it finds: the base is what the endpoint has enabled, or nothing. */
  lemma FoundBase(m0: EpMap, parts: seq<Part>, n: nat, mac: Mac, m: EpMap)
    requires n < |parts| && mac in parts[n].macs && Midway(m0, parts, n, mac, m)
    ensures Begun(parts, n + 1, mac) == (n == 0 || Begun(parts, n, mac))
    ensures n == 0 ==> m == m0 && Given(parts, 0, mac) == []
    ensures Base(m, MsgAt(parts, n)) == if n == 0 then map[] else Enabled(m)
    ensures Left(m, MsgAt(parts, n)) == Rest(m0, Begun(parts, n + 1, mac), Given(parts, n + 1, mac))
  {
    SigsJoin(Given(parts, n, mac), parts[n].rules);
    assert Sigs([]) == {};
  }

  lemma GetsKeys(m0: EpMap, parts: seq<Part>, n: nat, mac: Mac, m: EpMap, m': EpMap)
    requires n < |parts| && mac in parts[n].macs && Midway(m0, parts, n, mac, m) && Turned(m, MsgAt(parts, n), m')
    ensures var base := BaseOf(m0, Begun(parts, n + 1, mac));
            base.Keys <= Enabled(m').Keys <= base.Keys + Sigs(Given(parts, n + 1, mac))
  {
    FoundBase(m0, parts, n, mac, m);
    SigsJoin(Given(parts, n, mac), parts[n].rules);
  }

  lemma GetsWithPlenty(m0: EpMap, parts: seq<Part>, n: nat, mac: Mac, m: EpMap, m': EpMap)
    requires n < |parts| && mac in parts[n].macs && Midway(m0, parts, n, mac, m) && PlentyAll(parts, n + 1, mac)
    requires Visited(m, MsgAt(parts, n), parts[n].alloc, mac, |parts[n].macs|, m')
    ensures Enabled(m') == FirstOf(BaseOf(m0, Begun(parts, n + 1, mac)), Given(parts, n + 1, mac))
  {
    var msg, macs := MsgAt(parts, n), parts[n].macs;
    FoundBase(m0, parts, n, mac, m);
    assert macs[..|macs|] == macs;
    VisitedWithPlenty(m, msg, parts[n].alloc, mac, |macs|, m');
    FirstOfSplit(BaseOf(m0, Begun(parts, n, mac)), Given(parts, n, mac), parts[n].rules);
    assert [] + parts[n].rules == parts[n].rules;
  }

  lemma GetsOnce(m0: EpMap, parts: seq<Part>, n: nat, mac: Mac, m: EpMap, m': EpMap)
    requires n < |parts| && mac in parts[n].macs && Midway(m0, parts, n, mac, m) && OnceEach(parts, n + 1, mac)
    requires Visited(m, MsgAt(parts, n), parts[n].alloc, mac, |parts[n].macs|, m')
    ensures Enabled(m') ==
            FirstOf(BaseOf(m0, Begun(parts, n + 1, mac)), Kept(m0.Keys, Given(parts, n + 1, mac), GivenOks(parts, n + 1, mac)))
  {
    var msg, rules, i := MsgAt(parts, n), parts[n].rules, PlaceOf(parts[n].macs, mac);
    var given, oks, more := Given(parts, n, mac), GivenOks(parts, n, mac), Oks(parts[n].alloc, i, |rules|);
    FoundBase(m0, parts, n, mac, m);
    VisitedOnce(m, msg, parts[n].alloc, mac, i, |parts[n].macs|, m');
    KeptSplit(m0.Keys, given, rules, oks, more);
    FirstOfSplit(BaseOf(m0, Begun(parts, n, mac)), Kept(m0.Keys, given, oks), Kept(m0.Keys, rules, more));
    if n == 0 {
      assert [] + Kept(m0.Keys, rules, more) == Kept(m0.Keys, rules, more);
    } else {
      KeptMoreKeys(Enabled(m), m0.Keys, rules, more);
    }
  }

  lemma NextGets(m0: EpMap, parts: seq<Part>, n: nat, mac: Mac, m: EpMap, m': EpMap)
    requires n < |parts| && mac in parts[n].macs && Midway(m0, parts, n, mac, m)
    requires Visited(m, MsgAt(parts, n), parts[n].alloc, mac, |parts[n].macs|, m')
    ensures Turned(m, MsgAt(parts, n), m') && Gets(m0, parts, n + 1, mac, m')
  {
    var macs := parts[n].macs;
    assert macs[..|macs|] == macs;
    VisitedTurns(m, MsgAt(parts, n), parts[n].alloc, mac, |macs|, m');
    GetsKeys(m0, parts, n, mac, m, m');
    if PlentyAll(parts, n + 1, mac) { GetsWithPlenty(m0, parts, n, mac, m, m'); }
    if OnceEach(parts, n + 1, mac) { GetsOnce(m0, parts, n, mac, m, m'); }
  }

  lemma NextMidway(m0: EpMap, parts: seq<Part>, n: nat, mac: Mac, m: EpMap, m': EpMap)
    requires n < |parts| - 1 && Midway(m0, parts, n, mac, m)
    requires Visited(m, MsgAt(parts, n), parts[n].alloc, mac, |parts[n].macs|, m')
    ensures Midway(m0, parts, n + 1, mac, m')
  {
    if mac in parts[n].macs {
      NextGets(m0, parts, n, mac, m, m');
      FoundBase(m0, parts, n, mac, m);
    } else {
      PassedOver(m0, parts, n, mac, m, m');
    }
  }

  lemma LastNamed(m0: EpMap, parts: seq<Part>, mac: Mac, m: EpMap, m': EpMap)
    requires |parts| > 0 && mac in parts[|parts| - 1].macs && Midway(m0, parts, |parts| - 1, mac, m)
    requires Turned(m, MsgAt(parts, |parts| - 1), m') && Gets(m0, parts, |parts|, mac, m')
    ensures Streamed(m0, parts, mac, m')
  {
    FoundBase(m0, parts, |parts| - 1, mac, m);
  }

  lemma LastPassedOver(m0: EpMap, parts: seq<Part>, mac: Mac, m: EpMap)
    requires |parts| > 0 && Midway(m0, parts, |parts|, mac, m)
    ensures Streamed(m0, parts, mac, m)
  {
  }

  lemma LastMidway(m0: EpMap, parts: seq<Part>, n: nat, mac: Mac, m: EpMap, m': EpMap)
    requires |parts| == n + 1 && Midway(m0, parts, n, mac, m)
    requires Visited(m, MsgAt(parts, n), parts[n].alloc, mac, |parts[n].macs|, m')
    ensures Streamed(m0, parts, mac, m')
  {
    if mac in parts[n].macs {
      NextGets(m0, parts, n, mac, m, m');
      LastNamed(m0, parts, mac, m, m');
    } else {
      PassedOver(m0, parts, n, mac, m, m');
      LastPassedOver(m0, parts, mac, m');
    }
  }

  // ---- all endpoints

  function Owed(m0: EpMap, parts: seq<Part>, mac: Mac): nat {
    |Rest(m0, Begun(parts, |parts|, mac), Given(parts, |parts|, mac))|
  }

  /** How many entries of each endpoint the last message names it has to delete, in terms of the maps
      before the stream. */
  function Unfinished(eps0: map<Mac, EpMap>, parts: seq<Part>): map<Mac, nat>
    requires |parts| > 0
  {
    map mac | mac in eps0 && mac in parts[|parts| - 1].macs :: Owed(eps0[mac], parts, mac)
  }

  ghost predicate UnderWay(eps0: map<Mac, EpMap>, parts: seq<Part>, n: nat, eps: map<Mac, EpMap>)
    requires n <= |parts|
  {
    eps.Keys == eps0.Keys && forall mac <- eps :: Midway(eps0[mac], parts, n, mac, eps[mac])
  }

  lemma StartUnderWay(eps0: map<Mac, EpMap>, parts: seq<Part>)
    ensures UnderWay(eps0, parts, 0, eps0)
  {
    forall mac <- eps0
      ensures Midway(eps0[mac], parts, 0, mac, eps0[mac])
    {
      StartMidway(eps0[mac], parts, mac);
    }
  }

  lemma NextUnderWay(eps0: map<Mac, EpMap>, parts: seq<Part>, n: nat, eps: map<Mac, EpMap>, eps': map<Mac, EpMap>)
    requires n < |parts| - 1 && UnderWay(eps0, parts, n, eps)
    requires Done(eps, MsgAt(parts, n), parts[n].alloc, eps', |parts[n].macs|)
    ensures UnderWay(eps0, parts, n + 1, eps')
  {
    forall mac <- eps'
      ensures Midway(eps0[mac], parts, n + 1, mac, eps'[mac])
    {
      NextMidway(eps0[mac], parts, n, mac, eps[mac], eps'[mac]);
    }
  }

  ghost predicate AllStreamed(eps0: map<Mac, EpMap>, parts: seq<Part>, eps: map<Mac, EpMap>)
    requires |parts| > 0
  {
    eps.Keys == eps0.Keys && forall mac <- eps :: Streamed(eps0[mac], parts, mac, eps[mac])
  }

  lemma LastStreamed(eps0: map<Mac, EpMap>, parts: seq<Part>, n: nat, eps: map<Mac, EpMap>, eps': map<Mac, EpMap>)
    requires |parts| == n + 1 && UnderWay(eps0, parts, n, eps)
    requires Done(eps, MsgAt(parts, n), parts[n].alloc, eps', |parts[n].macs|)
    ensures AllStreamed(eps0, parts, eps')
  {
    forall mac <- eps'
      ensures Streamed(eps0[mac], parts, mac, eps'[mac])
    {
      LastMidway(eps0[mac], parts, n, mac, eps[mac], eps'[mac]);
    }
  }

  lemma LastOwesAt(m0: EpMap, parts: seq<Part>, n: nat, mac: Mac, m: EpMap)
    requires |parts| == n + 1 && mac in parts[n].macs && Midway(m0, parts, n, mac, m)
    ensures |Left(m, MsgAt(parts, n))| == Owed(m0, parts, mac)
  {
    FoundBase(m0, parts, n, mac, m);
  }

  lemma LastOwes(eps0: map<Mac, EpMap>, parts: seq<Part>, n: nat, eps: map<Mac, EpMap>)
    requires |parts| == n + 1 && UnderWay(eps0, parts, n, eps)
    ensures Pending(eps, MsgAt(parts, n)) == Unfinished(eps0, parts)
  {
    var found, owed := Pending(eps, MsgAt(parts, n)), Unfinished(eps0, parts);
    assert found.Keys == owed.Keys;
    forall mac <- found
      ensures found[mac] == owed[mac]
    {
      LastOwesAt(eps0[mac], parts, n, mac, eps[mac]);
    }
    SameEntries(found, owed);
  }

  function RulesOf(parts: seq<Part>): seq<seq<Rule>> { seq(|parts|, i requires 0 <= i < |parts| => parts[i].rules) }

  /** Every message names the same endpoints, and there is memory for all of them. */
  predicate Uniform(parts: seq<Part>, macs: seq<Mac>) {
    forall i :: 0 <= i < |parts| ==>
      && parts[i].macs == macs
      && forall mac :: mac in macs ==> Plenty(MsgAt(parts, i), parts[i].alloc, mac, |macs|)
  }

  lemma {:induction false} GivenAll(parts: seq<Part>, n: nat, mac: Mac)
    requires n <= |parts| && forall i :: 0 <= i < n ==> mac in parts[i].macs
    ensures Given(parts, n, mac) == Flatten(RulesOf(parts)[..n])
  {
    if n > 0 {
      GivenAll(parts, n - 1, mac);
      assert RulesOf(parts)[..n][..n - 1] == RulesOf(parts)[..n - 1];
    }
  }

  /** How many entries of each named endpoint are not among the rules. */
  function Unmentioned(eps: map<Mac, EpMap>, macs: seq<Mac>, rules: map<Sig, nat>): map<Mac, nat> {
    map mac | mac in eps && mac in macs :: |eps[mac].Keys - rules.Keys|
  }

  lemma UniformOwed(m0: EpMap, parts: seq<Part>, macs: seq<Mac>, mac: Mac)
    requires |parts| > 0 && Uniform(parts, macs) && mac in macs
    ensures Owed(m0, parts, mac) == |m0.Keys - FirstOf(map[], Flatten(RulesOf(parts))).Keys|
  {
    var rules := Flatten(RulesOf(parts));
    GivenAll(parts, |parts|, mac);
    assert RulesOf(parts)[..|parts|] == RulesOf(parts);
    FirstOfKeys(map[], rules);
    assert Rest(m0, true, rules) == m0.Keys - FirstOf(map[], rules).Keys;
  }

  lemma UniformGets(m0: EpMap, parts: seq<Part>, macs: seq<Mac>, mac: Mac, m: EpMap)
    requires |parts| > 0 && Uniform(parts, macs) && mac in macs && Streamed(m0, parts, mac, m)
    ensures var all := FirstOf(map[], Flatten(RulesOf(parts)));
            Enabled(m) == all && (m == Exactly(all) <==> Stale(m) == {})
  {
    GivenAll(parts, |parts|, mac);
    assert RulesOf(parts)[..|parts|] == RulesOf(parts);
    assert PlentyAll(parts, |parts|, mac);
    ExactlyWithoutStale(m, FirstOf(map[], Flatten(RulesOf(parts))));
  }

  /** With the same endpoints and enough memory: the enabled entries of every endpoint named are the
      stream's rules, and all their maps are exactly that if and only if the entries the stream does not
      mention, counted over all of them as they were before it, fit the limit. */
  ghost predicate Settled(eps0: map<Mac, EpMap>, parts: seq<Part>, macs: seq<Mac>, eps: map<Mac, EpMap>) {
    var all := FirstOf(map[], Flatten(RulesOf(parts)));
    && (forall mac <- eps :: mac in macs ==> Enabled(eps[mac]) == all)
    && ((forall mac <- eps :: mac in macs ==> eps[mac] == Exactly(all)) <==>
        Sum(Unmentioned(eps0, macs, all), Itself()) <= MAX_DLPCFG_DELETE)
  }

  lemma UniformOwes(eps0: map<Mac, EpMap>, parts: seq<Part>, macs: seq<Mac>)
    requires |parts| > 0 && Uniform(parts, macs)
    ensures Unfinished(eps0, parts) == Unmentioned(eps0, macs, FirstOf(map[], Flatten(RulesOf(parts))))
  {
    var owed, left := Unfinished(eps0, parts), Unmentioned(eps0, macs, FirstOf(map[], Flatten(RulesOf(parts))));
    assert owed.Keys == left.Keys;
    forall mac <- owed
      ensures owed[mac] == left[mac]
    {
      UniformOwed(eps0[mac], parts, macs, mac);
    }
    SameEntries(owed, left);
  }

  lemma UniformSettles(eps0: map<Mac, EpMap>, parts: seq<Part>, macs: seq<Mac>, eps: map<Mac, EpMap>)
    requires |parts| > 0 && Uniform(parts, macs) && AllStreamed(eps0, parts, eps)
    requires (forall mac <- eps :: mac in macs ==> Stale(eps[mac]) == {}) <==>
             Sum(Unfinished(eps0, parts), Itself()) <= MAX_DLPCFG_DELETE
    ensures Settled(eps0, parts, macs, eps)
  {
    var all := FirstOf(map[], Flatten(RulesOf(parts)));
    UniformOwes(eps0, parts, macs);
    forall mac <- eps | mac in macs
      ensures Enabled(eps[mac]) == all && (eps[mac] == Exactly(all) <==> Stale(eps[mac]) == {})
    {
      UniformGets(eps0[mac], parts, macs, mac, eps[mac]);
    }
  }

  class Endpoints {
    var eps: map<Mac, EpMap>

    /** One message. Endpoints not named, or not known, are left alone. With the last message of a
        stream all named endpoints end up without a disabled entry exactly when the disabled entries
        found on all of them fit the limit. */
    method CfgDlp(msg: Msg, alloc: Alloc) returns (ret: int)
      modifies this
      ensures ret == (if |msg.macs| == 0 then -1 else 0)
      ensures msg.rules.None? ==> eps == old(eps)
      ensures msg.rules.Some? ==> Done(old(eps), msg, alloc, eps, |msg.macs|)
      ensures msg.rules.Some? && msg.last ==>
                ((forall mac <- eps :: mac in msg.macs ==> Stale(eps[mac]) == {}) <==>
                 Sum(Pending(old(eps), msg), Itself()) <= MAX_DLPCFG_DELETE)
    {
      if |msg.macs| == 0 {
        if msg.rules.Some? { assert Pending(eps, msg) == map[]; }
        return -1;
      }
      if msg.rules.None? {
        return 0;
      }
      eps := HandleAll(eps, msg, alloc);
      return 0;
    }

    /** A whole stream. */
    method CfgStream(parts: seq<Part>)
      requires |parts| > 0
      modifies this
      ensures AllStreamed(old(eps), parts, eps)
      ensures (forall mac <- eps :: mac in parts[|parts| - 1].macs ==> Stale(eps[mac]) == {}) <==>
              Sum(Unfinished(old(eps), parts), Itself()) <= MAX_DLPCFG_DELETE
      ensures Uniform(parts, parts[0].macs) ==> Settled(old(eps), parts, parts[0].macs, eps)
    {
      var n: nat := |parts| - 1;
      StartUnderWay(eps, parts);
      for i := 0 to n
        invariant UnderWay(old(eps), parts, i, eps)
      {
        ghost var before := eps;
        var _ := CfgDlp(MsgAt(parts, i), parts[i].alloc);
        NextUnderWay(old(eps), parts, i, before, eps);
      }
      ghost var before := eps;
      var _ := CfgDlp(MsgAt(parts, n), parts[n].alloc);
      LastStreamed(old(eps), parts, n, before, eps);
      LastOwes(old(eps), parts, n, before);
      if Uniform(parts, parts[0].macs) { UniformSettles(old(eps), parts, parts[0].macs, eps); }
    }
  }
}
