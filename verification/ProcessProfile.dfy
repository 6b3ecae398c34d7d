/** Merging process rules and stacking them by tier (agent/group_profile.go). */
module ProcessProfile {
  import opened Options

  /** `ground` marks a rule from a custom resource; `tag` stands for its other fields. */
  datatype Entry = Entry(name: string, path: string, deny: bool, ground: bool, tag: nat)

  // ---- priorities

  predicate HasSuffix(s: string, suffix: string) { |s| >= |suffix| && s[|s| - |suffix|..] == suffix }

  /** Buckets 0 to 6 in order of precedence; a deny-all rule belongs to none of them. */
  const DROPPED: nat := 7

  function Bucket(e: Entry): (b: nat)
    ensures b <= DROPPED
  {
    if e.deny then
      if e.name == "*" && e.path == "*" then DROPPED
      else if e.name == "*" then 3
      else if HasSuffix(e.path, "/*") then 2
      else 1
    else
      if e.name == "*" && e.path == "*" then 0
      else if e.name == "*" then 6
      else if HasSuffix(e.path, "/*") then 5
      else 4
  }

  datatype Scope = Everything | OneProcess | OneDirectory | AnyName

  ghost function ScopeOf(e: Entry): Scope {
    if e.name == "*" then (if e.path == "*" then Everything else AnyName)
    else if exists dir: string :: dir + "/*" == e.path then OneDirectory
    else OneProcess
  }

  /** The precedence of rules: whether they deny, and how much they cover. */
  const PRIORITIES: seq<(bool, Scope)> := [
    (false, Everything),
    (true, OneProcess), (true, OneDirectory), (true, AnyName),
    (false, OneProcess), (false, OneDirectory), (false, AnyName)]

  /** A bucket is a place in the precedence, and only a rule that denies everything has none. */
  lemma BucketIsPriority(e: Entry)
    ensures Bucket(e) < DROPPED ==> PRIORITIES[Bucket(e)] == (e.deny, ScopeOf(e))
    ensures Bucket(e) == DROPPED <==> (e.deny, ScopeOf(e)) !in PRIORITIES
  {
    if HasSuffix(e.path, "/*") {
      assert e.path[..|e.path| - 2] + "/*" == e.path;
    }
    forall dir: string | dir + "/*" == e.path
      ensures HasSuffix(e.path, "/*")
    {
      assert (dir + "/*")[|dir|..] == "/*";
    }
    if Bucket(e) < DROPPED { assert PRIORITIES[Bucket(e)] in PRIORITIES; }
  }

  function KeyOf(e: Entry): string { e.name + ":" + e.path }

  datatype Rank = Rank(bucket: nat, name: string, path: string)

  function RankOf(e: Entry): Rank { Rank(Bucket(e), e.name, e.path) }

  // ---- the order of the result

  predicate StrLess(a: string, b: string) {
    b != [] && (a == [] || a[0] < b[0] || (a[0] == b[0] && StrLess(a[1..], b[1..])))
  }

  predicate Before(a: Rank, b: Rank) {
    || a.bucket < b.bucket
    || (a.bucket == b.bucket && (StrLess(a.name, b.name) || (a.name == b.name && StrLess(a.path, b.path))))
  }

  lemma {:induction false} StrLessTotal(a: string, b: string)
    ensures a == b || StrLess(a, b) || StrLess(b, a)
    ensures !(StrLess(a, b) && StrLess(b, a))
    ensures a == b ==> !StrLess(a, b)
  {
    if a != [] && b != [] {
      StrLessTotal(a[1..], b[1..]);
      assert a == [a[0]] + a[1..] && b == [b[0]] + b[1..];
    }
  }

  lemma {:induction false} StrLessTransitive(a: string, b: string, c: string)
    requires StrLess(a, b) && StrLess(b, c)
    ensures StrLess(a, c)
  {
    if a != [] && a[0] == b[0] == c[0] { StrLessTransitive(a[1..], b[1..], c[1..]); }
  }

  /** Where two strings first differ, the first has the smaller character, or has ended. */
  ghost predicate FirstDifference(a: string, b: string, n: nat) {
    && n <= |a| && n < |b| && a[..n] == b[..n]
    && (n == |a| || a[n] < b[n])
  }

  lemma {:induction false} StrLessMeans(a: string, b: string)
    ensures StrLess(a, b) <==> exists n: nat :: FirstDifference(a, b, n)
  {
    if b != [] {
      if a == [] || a[0] < b[0] {
        assert FirstDifference(a, b, 0);
      } else if a[0] == b[0] {
        StrLessMeans(a[1..], b[1..]);
        if StrLess(a, b) {
          var n: nat :| FirstDifference(a[1..], b[1..], n);
          assert a[..n + 1] == [a[0]] + a[1..][..n] && b[..n + 1] == [b[0]] + b[1..][..n];
          assert FirstDifference(a, b, n + 1);
        }
        if n: nat :| FirstDifference(a, b, n) {
          assert n > 0;
          assert a[1..][..n - 1] == a[..n][1..] && b[1..][..n - 1] == b[..n][1..];
          assert FirstDifference(a[1..], b[1..], n - 1);
        }
      } else {
        forall n: nat
          ensures !FirstDifference(a, b, n)
        {
          if n > 0 && n <= |a| && n < |b| { assert a[..n][0] == a[0] && b[..n][0] == b[0]; }
        }
      }
    }
  }

  lemma BeforeTotal(a: Rank, b: Rank)
    ensures a == b || Before(a, b) || Before(b, a)
    ensures !(Before(a, b) && Before(b, a))
    ensures a == b ==> !Before(a, b)
  {
    StrLessTotal(a.name, b.name);
    StrLessTotal(a.path, b.path);
  }

  lemma BeforeTransitive(a: Rank, b: Rank, c: Rank)
    requires Before(a, b) && Before(b, c)
    ensures Before(a, c)
  {
    if StrLess(a.name, b.name) && StrLess(b.name, c.name) { StrLessTransitive(a.name, b.name, c.name); }
    if StrLess(a.path, b.path) && StrLess(b.path, c.path) { StrLessTransitive(a.path, b.path, c.path); }
  }

  predicate Ordered(rs: seq<Rank>) {
    forall i, j :: 0 <= i < j < |rs| ==> Before(rs[i], rs[j])
  }

  lemma NoMembers(b: seq<Rank>)
    ensures b == [] || exists r :: r in b
  {
    if b != [] { assert b[0] in b; }
  }

  lemma SameTail(a: seq<Rank>, b: seq<Rank>, r: Rank)
    requires Ordered(a) && a != [] && b != [] && a[0] == b[0] && forall x :: x in a ==> x in b
    ensures r in a[1..] ==> r in b[1..]
  {
    if r in a[1..] {
      var i :| 0 <= i < |a[1..]| && a[1..][i] == r;
      BeforeTotal(a[0], a[i + 1]);
      assert r in a && r != b[0];
      assert b == [b[0]] + b[1..];
    }
  }

  /** An ordered sequence is determined by its members. */
  lemma {:induction false} OrderedIsUnique(a: seq<Rank>, b: seq<Rank>)
    requires Ordered(a) && Ordered(b) && forall r :: r in a <==> r in b
    ensures a == b
  {
    if a == [] {
      NoMembers(b);
    } else {
      assert a[0] in b;
      var j :| 0 <= j < |b| && b[j] == a[0];
      assert b[0] in a;
      var i :| 0 <= i < |a| && a[i] == b[0];
      BeforeTotal(a[0], b[0]);
      assert a[0] == b[0];
      forall r
        ensures r in a[1..] <==> r in b[1..]
      {
        SameTail(a, b, r);
        SameTail(b, a, r);
      }
      OrderedIsUnique(a[1..], b[1..]);
      assert a == [a[0]] + a[1..] && b == [b[0]] + b[1..];
    }
  }

  // ---- the merge

  /** The last entry of that rank. */
  function Last(cur: seq<Entry>, r: Rank): Option<Entry> {
    if cur == [] then None
    else if RankOf(cur[|cur| - 1]) == r then Some(cur[|cur| - 1])
    else Last(cur[..|cur| - 1], r)
  }

  function Ranks(list: seq<Entry>): seq<Rank> { seq(|list|, i requires 0 <= i < |list| => RankOf(list[i])) }

  /** One rule per bucket, name and path, in that order; of several, the last one given. */
  ghost predicate IsMerge(cur: seq<Entry>, list: seq<Entry>) {
    && Ordered(Ranks(list))
    && (forall e <- list :: Bucket(e) < DROPPED && Last(cur, RankOf(e)) == Some(e))
    && (forall e <- cur :: Bucket(e) < DROPPED ==> RankOf(e) in Ranks(list))
  }

  /** Rules of one bucket that share a map key have the same name and path. */
  ghost predicate KeysDistinguish(cur: seq<Entry>) {
    forall x, y :: x in cur && y in cur && Bucket(x) == Bucket(y) < DROPPED && KeyOf(x) == KeyOf(y) ==>
                     x.name == y.name && x.path == y.path
  }

  lemma {:induction false} FirstColon(a: string, p: string, b: string, q: string)
    requires ':' !in a && ':' !in b && a + ":" + p == b + ":" + q
    ensures a == b && p == q
  {
    var l, r := a + ":" + p, b + ":" + q;
    assert l[|a|] == ':' && r[|b|] == ':';
    assert forall i :: 0 <= i < |a| ==> l[i] == a[i] && a[i] in a;
    assert forall i :: 0 <= i < |b| ==> r[i] == b[i] && b[i] in b;
    assert |a| == |b|;
    assert l[..|a|] == a && r[..|b|] == b && l[|a| + 1..] == p && r[|b| + 1..] == q;
  }

  /** Names without a colon are enough. */
  lemma NoColonDistinguishes(cur: seq<Entry>)
    requires forall e <- cur :: ':' !in e.name
    ensures KeysDistinguish(cur)
  {
    forall x, y | x in cur && y in cur && Bucket(x) == Bucket(y) < DROPPED && KeyOf(x) == KeyOf(y)
      ensures x.name == y.name && x.path == y.path
    {
      FirstColon(x.name, x.path, y.name, y.path);
    }
  }

  /** Two rules that only differ in what the merge does not look at. */
  predicate SameRule(x: Entry, y: Entry) { x.name == y.name && x.path == y.path && x.deny == y.deny }

  predicate DeniesAll(e: Entry) { e.deny && e.name == "*" && e.path == "*" }

  lemma RankIsRule(x: Entry, y: Entry)
    ensures RankOf(x) == RankOf(y) <==> SameRule(x, y)
    ensures Bucket(x) == DROPPED <==> DeniesAll(x)
  {
  }

  // ---- the code

  /** The map of one bucket after the entries `cur`. */
  function BucketMap(cur: seq<Entry>, b: nat): map<string, Entry> {
    if cur == [] then map[]
    else
      var m, e := BucketMap(cur[..|cur| - 1], b), cur[|cur| - 1];
      if Bucket(e) == b then m[KeyOf(e) := e] else m
  }

  /** Insertion where the comparator puts it: by name, then path. */
  function Insert(list: seq<Entry>, e: Entry): seq<Entry> {
    if list == [] then [e]
    else if Before(RankOf(list[|list| - 1]), RankOf(e)) then list + [e]
    else Insert(list[..|list| - 1], e) + [list[|list| - 1]]
  }

  lemma OrderedAppend(list: seq<Entry>, e: Entry)
    requires Ordered(Ranks(list))
    requires list != [] ==> Before(RankOf(list[|list| - 1]), RankOf(e))
    ensures Ordered(Ranks(list + [e]))
  {
    var rs := Ranks(list + [e]);
    forall i, j | 0 <= i < j < |rs|
      ensures Before(rs[i], rs[j])
    {
      if j < |list| {
        assert rs[i] == Ranks(list)[i] && rs[j] == Ranks(list)[j];
      } else if i < |list| - 1 {
        assert Before(Ranks(list)[i], Ranks(list)[|list| - 1]);
        BeforeTransitive(Ranks(list)[i], Ranks(list)[|list| - 1], rs[j]);
      }
    }
  }

  lemma {:induction false} InsertKeepsOrder(list: seq<Entry>, e: Entry)
    requires Ordered(Ranks(list)) && forall x <- list :: RankOf(x) != RankOf(e)
    ensures Ordered(Ranks(Insert(list, e)))
    ensures forall x :: x in Insert(list, e) <==> x in list || x == e
    ensures |Insert(list, e)| == |list| + 1
  {
    if list != [] {
      var init, last := list[..|list| - 1], list[|list| - 1];
      assert list == init + [last];
      var rs := Ranks(list);
      assert Ranks(init) == rs[..|init|];
      if Before(RankOf(last), RankOf(e)) {
        OrderedAppend(list, e);
      } else {
        InsertKeepsOrder(init, e);
        BeforeTotal(RankOf(last), RankOf(e));
        var x := Insert(init, e)[|init|];
        assert x in Insert(init, e);
        if x != e {
          var i :| 0 <= i < |init| && init[i] == x;
          assert Before(rs[i], rs[|init|]);
        }
        OrderedAppend(Insert(init, e), last);
      }
    }
  }

  /** A bucket's map holds, under each key, the last entry of the bucket with that key. */
  lemma {:induction false} BucketMapHolds(cur: seq<Entry>, b: nat, k: string)
    requires k in BucketMap(cur, b)
    ensures var v := BucketMap(cur, b)[k];
            v in cur && Bucket(v) == b && KeyOf(v) == k && Last(cur, RankOf(v)) == Some(v)
  {
    var init, e := cur[..|cur| - 1], cur[|cur| - 1];
    if !(Bucket(e) == b && KeyOf(e) == k) {
      BucketMapHolds(init, b, k);
    }
  }

  lemma {:induction false} BucketMapHas(cur: seq<Entry>, e: Entry)
    requires e in cur
    ensures KeyOf(e) in BucketMap(cur, Bucket(e))
  {
    var init, last := cur[..|cur| - 1], cur[|cur| - 1];
    assert cur == init + [last];
    if e != last { BucketMapHas(init, e); }
  }

  predicate InBucketMap(cur: seq<Entry>, e: Entry) {
    var m := BucketMap(cur, Bucket(e));
    KeyOf(e) in m && m[KeyOf(e)] == e
  }

  /** What the code's maps hold, in order. */
  ghost predicate Bucketed(cur: seq<Entry>, list: seq<Entry>) {
    Ordered(Ranks(list)) && forall e :: e in list <==> Bucket(e) < DROPPED && InBucketMap(cur, e)
  }

  /** What the code's maps hold is the merge exactly when the map keys tell rules apart. */
  lemma MergesWhenDistinguished(cur: seq<Entry>, list: seq<Entry>)
    requires Bucketed(cur, list)
    ensures IsMerge(cur, list) <==> KeysDistinguish(cur)
  {
    forall e <- list
      ensures Last(cur, RankOf(e)) == Some(e)
    {
      BucketMapHolds(cur, Bucket(e), KeyOf(e));
    }
    if KeysDistinguish(cur) {
      forall e <- cur | Bucket(e) < DROPPED
        ensures RankOf(e) in Ranks(list)
      {
        BucketMapHas(cur, e);
        BucketMapHolds(cur, Bucket(e), KeyOf(e));
        var v := BucketMap(cur, Bucket(e))[KeyOf(e)];
        assert v in list;
        var i :| 0 <= i < |list| && list[i] == v;
        assert Ranks(list)[i] == RankOf(e);
      }
    }
    if IsMerge(cur, list) {
      forall x, y | x in cur && y in cur && Bucket(x) == Bucket(y) < DROPPED && KeyOf(x) == KeyOf(y)
        ensures x.name == y.name && x.path == y.path
      {
        var i :| 0 <= i < |list| && Ranks(list)[i] == RankOf(x);
        var j :| 0 <= j < |list| && Ranks(list)[j] == RankOf(y);
        assert list[i] in list && list[j] in list;
        assert list[i] == list[j];
      }
    }
  }

  lemma OrderedConcat(a: seq<Entry>, b: seq<Entry>, n: nat)
    requires Ordered(Ranks(a)) && Ordered(Ranks(b))
    requires (forall e <- a :: Bucket(e) < n) && forall e <- b :: Bucket(e) == n
    ensures Ordered(Ranks(a + b))
  {
    var rs := Ranks(a + b);
    forall i, j | 0 <= i < j < |rs|
      ensures Before(rs[i], rs[j])
    {
      if j < |a| {
        assert rs[i] == Ranks(a)[i] && rs[j] == Ranks(a)[j];
      } else if i >= |a| {
        assert rs[i] == Ranks(b)[i - |a|] && rs[j] == Ranks(b)[j - |a|];
      } else {
        assert a[i] in a && b[j - |a|] in b;
      }
    }
  }

  /** The entries of one bucket's map, taken in any order, sorted by name and path. */
  method MapProcToSortedSlices(m: map<string, Entry>, b: nat) returns (list: seq<Entry>)
    requires forall k <- m :: KeyOf(m[k]) == k && Bucket(m[k]) == b
    ensures Ordered(Ranks(list))
    ensures forall e :: e in list <==> KeyOf(e) in m && m[KeyOf(e)] == e
  {
    list := [];
    var rest := m.Keys;
    while rest != {}
      invariant rest <= m.Keys && Ordered(Ranks(list))
      invariant forall e :: e in list <==> KeyOf(e) in m && KeyOf(e) !in rest && m[KeyOf(e)] == e
    {
      var k :| k in rest;
      InsertKeepsOrder(list, m[k]);
      list := Insert(list, m[k]);
      rest := rest - {k};
    }
  }

  method MergeProcessProfiles(cur: seq<Entry>) returns (list: seq<Entry>)
    ensures Bucketed(cur, list)
    ensures IsMerge(cur, list) <==> KeysDistinguish(cur)
  {
    var m := seq(7, _ => map[]);
    for i := 0 to |cur|
      invariant |m| == 7 && forall b :: 0 <= b < 7 ==> m[b] == BucketMap(cur[..i], b)
    {
      assert cur[..i + 1][..i] == cur[..i];
      var entry := cur[i];
      var key := entry.name + ":" + entry.path;
      if entry.deny {
        if entry.name == "*" && entry.path == "*" {
          // not a valid rule
        } else if entry.name == "*" {
          m := m[3 := m[3][key := entry]];
        } else if HasSuffix(entry.path, "/*") {
          m := m[2 := m[2][key := entry]];
        } else {
          m := m[1 := m[1][key := entry]];
        }
      } else {
        if entry.name == "*" && entry.path == "*" {
          m := m[0 := m[0][key := entry]];
        } else if entry.name == "*" {
          m := m[6 := m[6][key := entry]];
        } else if HasSuffix(entry.path, "/*") {
          m := m[5 := m[5][key := entry]];
        } else {
          m := m[4 := m[4][key := entry]];
        }
      }
    }
    assert cur[..|cur|] == cur;
    list := [];
    for b := 0 to 7
      invariant Ordered(Ranks(list))
      invariant forall e :: e in list <==> Bucket(e) < b && InBucketMap(cur, e)
    {
      forall k | k in m[b]
        ensures KeyOf(m[b][k]) == k && Bucket(m[b][k]) == b
      {
        BucketMapHolds(cur, b, k);
      }
      var part := MapProcToSortedSlices(m[b], b);
      OrderedConcat(list, part, b);
      list := list + part;
    }
    MergesWhenDistinguished(cur, list);
  }

  // ---- laws of the merge

  lemma RanksMember(list: seq<Entry>, r: Rank)
    ensures r in Ranks(list) <==> exists e <- list :: RankOf(e) == r
  {
    if r in Ranks(list) {
      var i :| 0 <= i < |list| && Ranks(list)[i] == r;
      assert list[i] in list;
    }
    if exists e <- list :: RankOf(e) == r {
      var i :| 0 <= i < |list| && RankOf(list[i]) == r;
      assert Ranks(list)[i] == r;
    }
  }

  lemma {:induction false} LastIsMember(cur: seq<Entry>, r: Rank)
    ensures Last(cur, r).Some? ==> Last(cur, r).value in cur && RankOf(Last(cur, r).value) == r
    ensures (exists e <- cur :: RankOf(e) == r) ==> Last(cur, r).Some?
  {
    if cur != [] {
      assert cur == cur[..|cur| - 1] + [cur[|cur| - 1]];
      LastIsMember(cur[..|cur| - 1], r);
    }
  }

  lemma MergeRanks(cur: seq<Entry>, list: seq<Entry>, r: Rank)
    requires IsMerge(cur, list)
    ensures r in Ranks(list) <==> r.bucket < DROPPED && exists e <- cur :: RankOf(e) == r
  {
    RanksMember(list, r);
    LastIsMember(cur, r);
  }

  /** Rules given in any order, and merged in any map order, come out at the same places. */
  lemma MergeIgnoresOrder(cur: seq<Entry>, list: seq<Entry>, cur': seq<Entry>, list': seq<Entry>)
    requires IsMerge(cur, list) && IsMerge(cur', list') && forall e :: e in cur <==> e in cur'
    ensures Ranks(list) == Ranks(list')
  {
    forall r
      ensures r in Ranks(list) <==> r in Ranks(list')
    {
      MergeRanks(cur, list, r);
      MergeRanks(cur', list', r);
    }
    OrderedIsUnique(Ranks(list), Ranks(list'));
  }

  /** The merge is a function of its input. */
  lemma MergeIsUnique(cur: seq<Entry>, list: seq<Entry>, list': seq<Entry>)
    requires IsMerge(cur, list) && IsMerge(cur, list')
    ensures list == list'
  {
    MergeIgnoresOrder(cur, list, cur, list');
    assert |list| == |Ranks(list)| == |list'|;
    forall i | 0 <= i < |list|
      ensures list[i] == list'[i]
    {
      assert Ranks(list)[i] == Ranks(list')[i];
      assert list[i] in list && list'[i] in list';
    }
  }

  lemma SameRankSameEntry(list: seq<Entry>, x: Entry, y: Entry)
    requires Ordered(Ranks(list)) && x in list && y in list && RankOf(x) == RankOf(y)
    ensures x == y
  {
    var i :| 0 <= i < |list| && list[i] == x;
    var j :| 0 <= j < |list| && list[j] == y;
    BeforeTotal(Ranks(list)[i], Ranks(list)[j]);
  }

  /** Merging a merged list changes nothing. */
  lemma MergeIsIdempotent(cur: seq<Entry>, list: seq<Entry>, again: seq<Entry>)
    requires IsMerge(cur, list)
    ensures KeysDistinguish(cur) ==> KeysDistinguish(list)
    ensures IsMerge(list, list)
    ensures IsMerge(list, again) ==> again == list
  {
    forall e <- list
      ensures e in cur
    {
      LastIsMember(cur, RankOf(e));
    }
    forall e <- list
      ensures Last(list, RankOf(e)) == Some(e) && RankOf(e) in Ranks(list)
    {
      RanksMember(list, RankOf(e));
      LastIsMember(list, RankOf(e));
      SameRankSameEntry(list, e, Last(list, RankOf(e)).value);
    }
    if IsMerge(list, again) { MergeIsUnique(list, again, list); }
  }

  /** With a colon in a name two different rules can share a map key. */
  lemma ColonCollides()
    ensures !KeysDistinguish([Entry("a:b", "c", false, false, 0), Entry("a", "b:c", false, false, 0)])
  {
    var x, y := Entry("a:b", "c", false, false, 0), Entry("a", "b:c", false, false, 0);
    assert x in [x, y] && y in [x, y];
    assert KeyOf(x) == "a:b:c" == KeyOf(y);
  }

  // ---- what a merge holds

  /** The rule is given again later. */
  predicate GivenAgain(cur: seq<Entry>, i: nat)
    requires i < |cur|
  {
    exists j :: i < j < |cur| && SameRule(cur[j], cur[i])
  }

  lemma {:induction false} LastMeans(cur: seq<Entry>, e: Entry)
    ensures Last(cur, RankOf(e)) == Some(e) <==> exists i: nat :: i < |cur| && cur[i] == e && !GivenAgain(cur, i)
  {
    if cur != [] {
      var n := |cur| - 1;
      var init := cur[..n];
      LastMeans(init, e);
      RankIsRule(cur[n], e);
      if RankOf(cur[n]) == RankOf(e) {
        assert !GivenAgain(cur, n);
        assert forall i: nat :: i < n && cur[i] == e ==> GivenAgain(cur, i);
      } else {
        forall i: nat | i < n && cur[i] == e
          ensures GivenAgain(cur, i) <==> GivenAgain(init, i)
        {
          if GivenAgain(init, i) {
            var j :| i < j < |init| && SameRule(init[j], init[i]);
            assert SameRule(cur[j], cur[i]);
          }
          if GivenAgain(cur, i) {
            var j :| i < j < |cur| && SameRule(cur[j], cur[i]);
            assert SameRule(init[j], init[i]);
          }
        }
      }
    }
  }

  lemma MergeHas(cur: seq<Entry>, list: seq<Entry>, e: Entry)
    requires IsMerge(cur, list)
    ensures e in list <==> Bucket(e) < DROPPED && Last(cur, RankOf(e)) == Some(e)
  {
    if Bucket(e) < DROPPED && Last(cur, RankOf(e)) == Some(e) {
      LastIsMember(cur, RankOf(e));
      RanksMember(list, RankOf(e));
    }
  }

  /** The rules of a merge are exactly those, apart from denying everything, that are not given again
      later under the same name, path and action. */
  lemma MergeHoldsLast(cur: seq<Entry>, list: seq<Entry>, e: Entry)
    requires IsMerge(cur, list)
    ensures e in list <==> !DeniesAll(e) && exists i: nat :: i < |cur| && cur[i] == e && !GivenAgain(cur, i)
  {
    MergeHas(cur, list, e);
    LastMeans(cur, e);
    RankIsRule(e, e);
  }

  /** They come by bucket, within a bucket by name, and under one name by path, as strings are ordered. */
  lemma MergeIsSorted(list: seq<Entry>, i: nat, j: nat)
    requires Ordered(Ranks(list)) && i < j < |list|
    ensures Bucket(list[i]) <= Bucket(list[j])
    ensures Bucket(list[i]) == Bucket(list[j]) && list[i].name != list[j].name ==>
              exists n: nat :: FirstDifference(list[i].name, list[j].name, n)
    ensures Bucket(list[i]) == Bucket(list[j]) && list[i].name == list[j].name ==>
              exists n: nat :: FirstDifference(list[i].path, list[j].path, n)
  {
    assert Before(Ranks(list)[i], Ranks(list)[j]);
    StrLessMeans(list[i].name, list[j].name);
    StrLessMeans(list[i].path, list[j].path);
    StrLessTotal(list[i].name, list[j].name);
  }
}
