/** What sequences of subnet messages install (dp/ctrl.c).

    Any message can be lost to a failed allocation, and one pointer gathers the
    parts of two lists. This module says what is installed in every case, when a
    list is installed in one piece, and when the two lists stay apart. */
module SubnetStreams {
  import opened Options
  import opened SubnetConfig
  import opened Sequences

  // ---- what is gathered and installed

  function Installed<T>(a: Lists<T>, internal: bool): Option<seq<T>> {
    if internal then a.internal else a.policy
  }

  /** The allocations this message needs succeed. */
  predicate Succeeds(f: Flags) { f.alloc && (f.first || f.allocJoined) }

  predicate Starts(f: Flags) { f.first && f.alloc }

  /** The parts of the messages that were not lost, in order. */
  function Joined<T>(ms: seq<Msg<T>>): seq<T> {
    if ms == [] then []
    else Joined(ms[..|ms| - 1]) + if Succeeds(ms[|ms| - 1].flags) then ms[|ms| - 1].part else []
  }

  /** The last start that was not lost. */
  predicate LastStart<T>(ms: seq<Msg<T>>, s: nat) {
    s < |ms| && Starts(ms[s].flags) && forall j :: s < j < |ms| ==> !Starts(ms[j].flags)
  }

  predicate NoStart<T>(ms: seq<Msg<T>>) { forall j :: 0 <= j < |ms| ==> !Starts(ms[j].flags) }

  /** What is gathered is the concatenation of the parts that joined since the last start. */
  lemma {:induction false} GatheredIs<T>(ms: seq<Msg<T>>, s: nat)
    requires LastStart(ms, s)
    ensures ReceiveAll(Unset(), ms).gathered == Some(Joined(ms[s..]))
    decreases |ms|
  {
    var init, m := ms[..|ms| - 1], ms[|ms| - 1];
    if s == |init| {
      assert ms[s..] == [m] && [m][..0] == [] && Joined([m]) == m.part;
    } else {
      GatheredIs(init, s);
      assert ms[s..] == init[s..] + [m] && (init[s..] + [m])[..|init| - s] == init[s..];
      assert Joined(init[s..]) + [] == Joined(init[s..]);
    }
  }

  lemma {:induction false} NothingGathered<T>(ms: seq<Msg<T>>)
    requires NoStart(ms)
    ensures ReceiveAll(Unset(), ms) == Unset()
  {
    if ms != [] { NothingGathered(ms[..|ms| - 1]); }
  }

  lemma {:induction false} StartGathers<T>(ms: seq<Msg<T>>)
    requires !NoStart(ms)
    ensures ReceiveAll(Unset(), ms).gathered.Some?
  {
    var init, m := ms[..|ms| - 1], ms[|ms| - 1];
    assert ms == init + [m];
    if !NoStart(init) { StartGathers(init); }
  }

  /** The message completes a list: an end that was not lost, of a list whose start was not. */
  predicate Completes<T>(ms: seq<Msg<T>>, k: nat)
    requires k < |ms|
  {
    ms[k].flags.last && Succeeds(ms[k].flags) && !NoStart(ms[..k + 1])
  }

  predicate LastEnd<T>(ms: seq<Msg<T>>, internal: bool, k: nat) {
    && k < |ms| && ms[k].flags.internal == internal && Completes(ms, k)
    && forall j :: k < j < |ms| && ms[j].flags.internal == internal ==> !Completes(ms, j)
  }

  lemma CompletesPrefix<T>(ms: seq<Msg<T>>, k: nat)
    requires k < |ms| - 1
    ensures Completes(ms, k) <==> Completes(ms[..|ms| - 1], k)
  {
    assert ms[..|ms| - 1][..k + 1] == ms[..k + 1];
  }

  lemma JoinsWhenStarted<T>(ms: seq<Msg<T>>, m: Msg<T>)
    ensures Joins(ReceiveAll(Unset(), ms), m) <==> Succeeds(m.flags) && !NoStart(ms + [m])
  {
    assert (ms + [m])[|ms|] == m;
    assert forall i :: 0 <= i < |ms| ==> (ms + [m])[i] == ms[i];
    if NoStart(ms) { NothingGathered(ms); } else { StartGathers(ms); }
  }

  /** In every sequence of messages each installed list is, at any time, the concatenation of the
      parts that joined from the last start before its last end up to that end. */
  lemma {:induction false} InstalledIs<T>(ms: seq<Msg<T>>, internal: bool, s: nat, k: nat)
    requires LastEnd(ms, internal, k) && LastStart(ms[..k + 1], s)
    ensures Installed(ReceiveAll(Unset(), ms), internal) == Some(Joined(ms[s..k + 1]))
    decreases |ms|
  {
    var n := |ms| - 1;
    var init, m := ms[..n], ms[n];
    assert ms == init + [m] && ms[..n + 1] == ms;
    JoinsWhenStarted(init, m);
    if k == n {
      GatheredIs(ms, s);
      assert ms[s..k + 1] == ms[s..];
    } else {
      forall j | 0 <= j < n
        ensures Completes(ms, j) <==> Completes(init, j)
      {
        CompletesPrefix(ms, j);
      }
      assert init[..k + 1] == ms[..k + 1] && init[s..k + 1] == ms[s..k + 1];
      InstalledIs(init, internal, s, k);
      assert m.flags.internal == internal ==> !Completes(ms, n);
    }
  }

  /** And nothing is installed before a list is complete. */
  lemma {:induction false} NothingInstalled<T>(ms: seq<Msg<T>>, internal: bool)
    requires forall k :: 0 <= k < |ms| && ms[k].flags.internal == internal ==> !Completes(ms, k)
    ensures Installed(ReceiveAll(Unset(), ms), internal) == None
  {
    if ms != [] {
      var n := |ms| - 1;
      var init, m := ms[..n], ms[n];
      assert ms == init + [m] && ms[..n + 1] == ms;
      forall j | 0 <= j < n
        ensures Completes(ms, j) <==> Completes(init, j)
      {
        CompletesPrefix(ms, j);
      }
      NothingInstalled(init, internal);
      JoinsWhenStarted(init, m);
      assert m.flags.internal == internal ==> !Completes(ms, n);
    }
  }

  // ---- one list, sent without another in between

  /** Whether the two allocations for a part succeed. */
  datatype Memory = Memory(alloc: bool, allocJoined: bool)

  function StreamFlags(internal: bool, n: nat, i: nat, mem: Memory): Flags {
    Flags(internal, i == 0, i == n - 1, mem.alloc, mem.allocJoined)
  }

  /** The first k messages that carry a list in parts to one of the two targets. */
  function Stream<T>(parts: seq<seq<T>>, internal: bool, mem: seq<Memory>, k: nat): seq<Msg<T>>
    requires k <= |parts| == |mem|
  {
    seq(k, i requires 0 <= i < k => Msg(StreamFlags(internal, |parts|, i, mem[i]), parts[i]))
  }

  /** What the parts are joined to: nothing if the start was not lost, else whatever was gathered before. */
  function Base<T>(a: Lists<T>, mem: seq<Memory>): Option<seq<T>>
    requires |mem| > 0
  {
    if mem[0].alloc then Some([]) else a.gathered
  }

  lemma StreamPrefix<T>(parts: seq<seq<T>>, internal: bool, mem: seq<Memory>, k: nat)
    requires 0 < k <= |parts| == |mem|
    ensures Stream(parts, internal, mem, k)[..k - 1] == Stream(parts, internal, mem, k - 1)
  {
  }

  /** Whatever was gathered or installed before and whichever allocations fail: the parts that were
      not lost gather up, nothing installed changes before the last part, and the list becomes visible
      with the last part unless that one is lost. */
  lemma {:induction false} StreamInstalls<T>(a: Lists<T>, parts: seq<seq<T>>, internal: bool, mem: seq<Memory>, k: nat)
    requires 0 < k <= |parts| == |mem|
    ensures var ms, base := Stream(parts, internal, mem, k), Base(a, mem);
            var a' := ReceiveAll(a, ms);
            && a'.gathered == (if base.Some? then Some(base.value + Joined(ms)) else None)
            && Installed(a', !internal) == Installed(a, !internal)
            && Installed(a', internal) ==
               if k == |parts| && base.Some? && Succeeds(ms[k - 1].flags) then a'.gathered else Installed(a, internal)
  {
    var ms := Stream(parts, internal, mem, k);
    StreamPrefix(parts, internal, mem, k);
    var part := if Succeeds(ms[k - 1].flags) then parts[k - 1] else [];
    if k == 1 {
      assert ms[..0] == [] && Joined(ms) == [] + part == part;
      if a.gathered.Some? { assert a.gathered.value + [] == a.gathered.value; }
    } else {
      StreamInstalls(a, parts, internal, mem, k - 1);
      var base, before := Base(a, mem), Joined(ms[..k - 1]);
      if base.Some? {
        assert base.value + before + part == base.value + (before + part);
        assert base.value + before + [] == base.value + before;
      }
    }
  }

  /** The stream is legal unless its start is lost right after an end and a later part is not. */
  lemma {:induction false} StreamLegal<T>(a: Lists<T>, parts: seq<seq<T>>, internal: bool, mem: seq<Memory>, k: nat)
    requires 0 < k <= |parts| == |mem|
    ensures var ms := Stream(parts, internal, mem, k);
            && (Legal(a, ms) <==> mem[0].alloc || a.gathered.None? || !a.closed || forall i :: 0 < i < k ==> !Succeeds(ms[i].flags))
            && (k < |parts| ==> (ReceiveAll(a, ms).closed <==>
                                 a.closed && !mem[0].alloc && (a.gathered.None? || forall i :: 0 < i < k ==> !Succeeds(ms[i].flags))))
  {
    var ms := Stream(parts, internal, mem, k);
    StreamPrefix(parts, internal, mem, k);
    if k == 1 {
      assert ms[..0] == [];
    } else {
      var init := Stream(parts, internal, mem, k - 1);
      StreamLegal(a, parts, internal, mem, k - 1);
      StreamInstalls(a, parts, internal, mem, k - 1);
      assert forall i :: 0 < i < k - 1 ==> ms[i] == init[i];
    }
  }

  predicate AllSucceed(internal: bool, mem: seq<Memory>) {
    forall i :: 0 <= i < |mem| ==> Succeeds(StreamFlags(internal, |mem|, i, mem[i]))
  }

  /** The stream is legal and its list ends up installed in one piece. */
  ghost predicate Whole<T>(a: Lists<T>, parts: seq<seq<T>>, internal: bool, mem: seq<Memory>)
    requires |parts| == |mem|
  {
    var ms := Stream(parts, internal, mem, |mem|);
    Legal(a, ms) && Installed(ReceiveAll(a, ms), internal) == Some(Flatten(parts))
  }

  lemma {:induction false} JoinedAll<T>(parts: seq<seq<T>>, internal: bool, mem: seq<Memory>, k: nat)
    requires k <= |parts| == |mem| && AllSucceed(internal, mem)
    ensures Joined(Stream(parts, internal, mem, k)) == Flatten(parts[..k])
  {
    if k > 0 {
      StreamPrefix(parts, internal, mem, k);
      JoinedAll(parts, internal, mem, k - 1);
      assert parts[..k][..k - 1] == parts[..k - 1];
      assert Succeeds(Stream(parts, internal, mem, k)[k - 1].flags);
    }
  }

  function Ones<T>(n: nat, x: T): seq<seq<T>> { seq(n, _ => [x]) }

  lemma {:induction false} OnesLength<T>(n: nat, x: T)
    ensures |Flatten(Ones(n, x))| == n
  {
    if n > 0 {
      assert Ones(n, x)[..n - 1] == Ones(n - 1, x);
      OnesLength(n - 1, x);
    }
  }

  lemma {:induction false} JoinedLength<T>(n: nat, x: T, internal: bool, mem: seq<Memory>, k: nat)
    requires k <= n == |mem|
    ensures var len := |Joined(Stream(Ones(n, x), internal, mem, k))|;
            len <= k && (len == k ==> forall i :: 0 <= i < k ==> Succeeds(StreamFlags(internal, n, i, mem[i])))
  {
    if k > 0 {
      StreamPrefix(Ones(n, x), internal, mem, k);
      JoinedLength(n, x, internal, mem, k - 1);
    }
  }

  /** A list is sure to be installed in one piece, whatever its parts and whatever was there before,
      if and only if every allocation of its stream succeeds. */
  lemma StreamIsWhole<T(!new)>(internal: bool, mem: seq<Memory>, x: T)
    requires |mem| > 0
    ensures (forall a: Lists<T>, parts: seq<seq<T>> | |parts| == |mem| :: Whole(a, parts, internal, mem)) <==> AllSucceed(internal, mem)
  {
    var n := |mem|;
    if AllSucceed(internal, mem) {
      forall a: Lists<T>, parts: seq<seq<T>> | |parts| == |mem|
        ensures Whole(a, parts, internal, mem)
      {
        StreamLegal(a, parts, internal, mem, n);
        StreamInstalls(a, parts, internal, mem, n);
        JoinedAll(parts, internal, mem, n);
        assert parts[..n] == parts && [] + Flatten(parts) == Flatten(parts);
        assert Succeeds(StreamFlags(internal, n, 0, mem[0])) && Succeeds(StreamFlags(internal, n, n - 1, mem[n - 1]));
      }
    } else {
      var a, parts := Unset<T>(), Ones(n, x);
      StreamInstalls(a, parts, internal, mem, n);
      JoinedLength(n, x, internal, mem, n);
      OnesLength(n, x);
      assert !Whole(a, parts, internal, mem);
    }
  }

  /** A part lost in the middle leaves a hole, and the list is installed all the same. */
  lemma HoleBecomesVisible<T>(x: T, y: T, z: T)
    ensures var parts, mem := [[x], [y], [z]], [Memory(true, true), Memory(false, true), Memory(true, true)];
            var ms := Stream(parts, true, mem, 3);
            Legal(Unset(), ms) && ReceiveAll(Unset(), ms).internal == Some([x, z])
  {
    var parts, mem := [[x], [y], [z]], [Memory(true, true), Memory(false, true), Memory(true, true)];
    StreamLegal(Unset(), parts, true, mem, 3);
    StreamInstalls(Unset(), parts, true, mem, 3);
    StreamPrefix(parts, true, mem, 3);
    StreamPrefix(parts, true, mem, 2);
    StreamPrefix(parts, true, mem, 1);
    assert Joined(Stream(parts, true, mem, 0)) == [];
    assert Joined(Stream(parts, true, mem, 1)) == [x];
    assert Joined(Stream(parts, true, mem, 2)) == [x];
    assert Joined(Stream(parts, true, mem, 3)) == [x, z];
  }

  // ---- two targets, one pointer

  function Fill<T>(fl: seq<Flags>, parts: seq<seq<T>>): seq<Msg<T>>
    requires |fl| == |parts|
  {
    seq(|fl|, i requires 0 <= i < |fl| => Msg(fl[i], parts[i]))
  }

  /** The messages for one target, as if the other did not exist. */
  function Alone<T>(ms: seq<Msg<T>>, internal: bool): seq<Msg<T>> {
    if ms == [] then []
    else Alone(ms[..|ms| - 1], internal) + if ms[|ms| - 1].flags.internal == internal then [ms[|ms| - 1]] else []
  }

  /** Each installed list is what its own messages alone would have installed. */
  ghost predicate Independent<T>(ms: seq<Msg<T>>) {
    forall t: bool :: Installed(ReceiveAll(Unset(), ms), t) == Installed(ReceiveAll(Unset(), Alone(ms, t)), t)
  }

  predicate HasStart(fl: seq<Flags>, k: nat)
    requires k < |fl|
  {
    exists s :: 0 <= s <= k && Starts(fl[s])
  }

  /** From some start on, up to k, only messages for one target joined. */
  predicate OnlyFor(fl: seq<Flags>, k: nat, internal: bool)
    requires k < |fl|
  {
    exists s :: 0 <= s <= k && Starts(fl[s]) && forall j :: s <= j <= k && Succeeds(fl[j]) ==> fl[j].internal == internal
  }

  /** Every end that completes a list comes after a start with only messages for its own target in between. */
  predicate Separate(fl: seq<Flags>) {
    forall k :: 0 <= k < |fl| && fl[k].last && Succeeds(fl[k]) && HasStart(fl, k) ==> OnlyFor(fl, k, fl[k].internal)
  }

  /** For which targets parts have joined since the last start. */
  datatype Owner = Nobody | Only(internal: bool) | Both

  function OwnerOf(fl: seq<Flags>): Owner {
    if fl == [] then Nobody
    else
      var o, f := OwnerOf(fl[..|fl| - 1]), fl[|fl| - 1];
      if !Succeeds(f) then o
      else if f.first then Only(f.internal)
      else if o == Nobody || o == Only(f.internal) then o
      else Both
  }

  lemma HasStartGrows(fl: seq<Flags>)
    requires |fl| > 1
    ensures HasStart(fl, |fl| - 1) <==> HasStart(fl[..|fl| - 1], |fl| - 2) || Starts(fl[|fl| - 1])
  {
    var n := |fl| - 1;
    assert forall s :: 0 <= s < n ==> fl[s] == fl[..n][s];
  }

  lemma OnlyForGrows(fl: seq<Flags>, t: bool)
    requires |fl| > 1
    ensures var n := |fl| - 1;
            OnlyFor(fl, n, t) <==>
            || (Starts(fl[n]) && fl[n].internal == t)
            || (OnlyFor(fl[..n], n - 1, t) && (Succeeds(fl[n]) ==> fl[n].internal == t))
  {
    var n := |fl| - 1;
    var init := fl[..n];
    assert forall s :: 0 <= s < n ==> fl[s] == init[s];
    if OnlyFor(fl, n, t) {
      var s :| 0 <= s <= n && Starts(fl[s]) && forall j :: s <= j <= n && Succeeds(fl[j]) ==> fl[j].internal == t;
      if s < n { assert Starts(init[s]) && forall j :: s <= j <= n - 1 && Succeeds(init[j]) ==> init[j].internal == t; }
    }
    if OnlyFor(init, n - 1, t) && (Succeeds(fl[n]) ==> fl[n].internal == t) {
      var s :| 0 <= s <= n - 1 && Starts(init[s]) && forall j :: s <= j <= n - 1 && Succeeds(init[j]) ==> init[j].internal == t;
      assert Starts(fl[s]) && forall j :: s <= j <= n && Succeeds(fl[j]) ==> fl[j].internal == t;
    }
  }

  lemma {:induction false} OwnerMeans(fl: seq<Flags>, t: bool)
    requires fl != []
    ensures OwnerOf(fl) == Nobody <==> !HasStart(fl, |fl| - 1)
    ensures OwnerOf(fl) == Only(t) <==> OnlyFor(fl, |fl| - 1, t)
  {
    var n := |fl| - 1;
    var init, f := fl[..n], fl[n];
    if n == 0 {
      assert init == [];
    } else {
      OwnerMeans(init, t);
      assert forall s :: 0 <= s < n ==> fl[s] == init[s];
      HasStartGrows(fl);
      OnlyForGrows(fl, t);
    }
  }

  function FlagsOf<T>(ms: seq<Msg<T>>): seq<Flags> { seq(|ms|, i requires 0 <= i < |ms| => ms[i].flags) }

  lemma FlagsPrefix<T>(ms: seq<Msg<T>>)
    requires ms != []
    ensures FlagsOf(ms)[..|ms| - 1] == FlagsOf(ms[..|ms| - 1])
  {
  }

  lemma SeparatePrefix(fl: seq<Flags>, n: nat)
    requires n <= |fl| && Separate(fl)
    ensures Separate(fl[..n])
  {
    var init := fl[..n];
    forall k | 0 <= k < n && init[k].last && Succeeds(init[k]) && HasStart(init, k)
      ensures OnlyFor(init, k, init[k].internal)
    {
      assert forall j :: 0 <= j < n ==> init[j] == fl[j];
      assert HasStart(fl, k);
      var s :| 0 <= s <= k && Starts(fl[s]) && forall j :: s <= j <= k && Succeeds(fl[j]) ==> fl[j].internal == fl[k].internal;
      assert Starts(init[s]) && forall j :: s <= j <= k && Succeeds(init[j]) ==> init[j].internal == init[k].internal;
    }
  }

  /** How the gathered list relates to what each target's own messages have gathered. */
  ghost predicate Shared<T>(o: Owner, gathered: Option<seq<T>>, alone: bool -> Option<seq<T>>) {
    match o
    case Nobody => gathered == None && forall t :: alone(t) == None
    case Only(t) => gathered.Some? && gathered == alone(t)
    case Both => gathered.Some?
  }

  function GatheredAlone<T>(ms: seq<Msg<T>>): bool -> Option<seq<T>> {
    (t: bool) => ReceiveAll(Unset(), Alone(ms, t)).gathered
  }

  lemma AloneStep<T>(ms: seq<Msg<T>>, t: bool)
    requires ms != []
    ensures var init, m := ms[..|ms| - 1], ms[|ms| - 1];
            ReceiveAll(Unset(), Alone(ms, t)) ==
            if m.flags.internal == t then Receive(ReceiveAll(Unset(), Alone(init, t)), m) else ReceiveAll(Unset(), Alone(init, t))
  {
    var init, m := ms[..|ms| - 1], ms[|ms| - 1];
    if m.flags.internal == t {
      Append(Unset(), Alone(init, t), m);
    } else {
      assert Alone(init, t) + [] == Alone(init, t);
    }
  }

  lemma SharedStep<T>(ms: seq<Msg<T>>)
    requires ms != []
    requires Shared(OwnerOf(FlagsOf(ms[..|ms| - 1])), ReceiveAll(Unset(), ms[..|ms| - 1]).gathered, GatheredAlone(ms[..|ms| - 1]))
    ensures Shared(OwnerOf(FlagsOf(ms)), ReceiveAll(Unset(), ms).gathered, GatheredAlone(ms))
  {
    FlagsPrefix(ms);
    AloneStep(ms, true);
    AloneStep(ms, false);
  }

  lemma {:induction false} AlwaysShared<T>(ms: seq<Msg<T>>)
    ensures Shared(OwnerOf(FlagsOf(ms)), ReceiveAll(Unset(), ms).gathered, GatheredAlone(ms))
  {
    if ms != [] {
      AlwaysShared(ms[..|ms| - 1]);
      SharedStep(ms);
    }
  }

  lemma IndependentStep<T>(ms: seq<Msg<T>>, t: bool)
    requires ms != [] && Separate(FlagsOf(ms))
    requires var init := ms[..|ms| - 1];
             Installed(ReceiveAll(Unset(), init), t) == Installed(ReceiveAll(Unset(), Alone(init, t)), t)
    ensures Installed(ReceiveAll(Unset(), ms), t) == Installed(ReceiveAll(Unset(), Alone(ms, t)), t)
  {
    var n := |ms| - 1;
    var init, m := ms[..n], ms[n];
    AloneStep(ms, t);
    AlwaysShared(init);
    AlwaysShared(ms);
    FlagsPrefix(ms);
    assert GatheredAlone(init)(t) == ReceiveAll(Unset(), Alone(init, t)).gathered;
    assert GatheredAlone(ms)(t) == ReceiveAll(Unset(), Alone(ms, t)).gathered;
    if m.flags.internal == t && m.flags.last && Succeeds(m.flags) {
      var fl := FlagsOf(ms);
      OwnerMeans(fl, t);
      assert fl[n] == m.flags;
      assert OwnerOf(fl) == Nobody || OwnerOf(fl) == Only(t);
    }
  }

  lemma {:induction false} SeparateIsIndependent<T>(ms: seq<Msg<T>>)
    requires Separate(FlagsOf(ms))
    ensures Independent(ms)
  {
    if ms != [] {
      FlagsPrefix(ms);
      SeparatePrefix(FlagsOf(ms), |ms| - 1);
      SeparateIsIndependent(ms[..|ms| - 1]);
      forall t: bool
        ensures Installed(ReceiveAll(Unset(), ms), t) == Installed(ReceiveAll(Unset(), Alone(ms, t)), t)
      {
        IndependentStep(ms, t);
      }
    }
  }

  function Tag<T>(x: T, y: T, internal: bool): T { if internal then x else y }

  /** Every part tells which target it is for. */
  predicate Tagged<T(==)>(ms: seq<Msg<T>>, x: T, y: T) {
    forall i :: 0 <= i < |ms| ==> ms[i].part == [Tag(x, y, ms[i].flags.internal)]
  }

  lemma {:induction false} TagsGathered<T>(ms: seq<Msg<T>>, x: T, y: T)
    requires Tagged(ms, x, y)
    ensures var o, gathered := OwnerOf(FlagsOf(ms)), ReceiveAll(Unset(), ms).gathered;
            && (o == Nobody <==> gathered == None)
            && (o.Only? ==> Tag(x, y, o.internal) in gathered.value)
            && (o == Both ==> x in gathered.value && y in gathered.value)
  {
    if ms != [] {
      FlagsPrefix(ms);
      TagsGathered(ms[..|ms| - 1], x, y);
    }
  }

  predicate AllAre<T(==)>(list: Option<seq<T>>, x: T) { list.Some? ==> forall e <- list.value :: e == x }

  lemma {:induction false} AloneIsPure<T>(ms: seq<Msg<T>>, x: T, y: T, t: bool)
    requires Tagged(ms, x, y)
    ensures var a := ReceiveAll(Unset(), Alone(ms, t));
            AllAre(a.gathered, Tag(x, y, t)) && AllAre(Installed(a, t), Tag(x, y, t))
  {
    if ms != [] {
      AloneIsPure(ms[..|ms| - 1], x, y, t);
      AloneStep(ms, t);
    }
  }

  lemma MixedIsNotIndependent<T>(ms: seq<Msg<T>>, x: T, y: T)
    requires x != y && ms != [] && Tagged(ms, x, y)
    requires var fl, k := FlagsOf(ms), |ms| - 1;
             fl[k].last && Succeeds(fl[k]) && HasStart(fl, k) && !OnlyFor(fl, k, fl[k].internal)
    ensures !Independent(ms)
  {
    var k := |ms| - 1;
    var fl, t := FlagsOf(ms), ms[k].flags.internal;
    OwnerMeans(fl, t);
    FlagsPrefix(ms);
    TagsGathered(ms[..k], x, y);
    TagsGathered(ms, x, y);
    AloneIsPure(ms, x, y, t);
    assert OwnerOf(fl) == Both;
    assert Tag(x, y, !t) in Installed(ReceiveAll(Unset(), ms), t).value;
  }

  lemma OnlyForPrefix(fl: seq<Flags>, k: nat, t: bool)
    requires k < |fl|
    ensures HasStart(fl[..k + 1], k) <==> HasStart(fl, k)
    ensures OnlyFor(fl[..k + 1], k, t) <==> OnlyFor(fl, k, t)
  {
    var pre := fl[..k + 1];
    assert forall j :: 0 <= j <= k ==> pre[j] == fl[j];
    if OnlyFor(fl, k, t) {
      var s :| 0 <= s <= k && Starts(fl[s]) && forall j :: s <= j <= k && Succeeds(fl[j]) ==> fl[j].internal == t;
      assert Starts(pre[s]) && forall j :: s <= j <= k && Succeeds(pre[j]) ==> pre[j].internal == t;
    }
    if OnlyFor(pre, k, t) {
      var s :| 0 <= s <= k && Starts(pre[s]) && forall j :: s <= j <= k && Succeeds(pre[j]) ==> pre[j].internal == t;
      assert Starts(fl[s]) && forall j :: s <= j <= k && Succeeds(fl[j]) ==> fl[j].internal == t;
    }
  }

  lemma FilledIsIndependent<T>(fl: seq<Flags>, parts: seq<seq<T>>, k: nat)
    requires |parts| == |fl| && k <= |fl| && Separate(fl)
    ensures Independent(Fill(fl, parts)[..k])
  {
    var ms := Fill(fl, parts)[..k];
    assert FlagsOf(ms) == fl[..k];
    SeparatePrefix(fl, k);
    SeparateIsIndependent(ms);
  }

  /** Parts that tell for which target each message is. */
  function Tags<T>(fl: seq<Flags>, x: T, y: T): seq<seq<T>> {
    seq(|fl|, i requires 0 <= i < |fl| => [Tag(x, y, fl[i].internal)])
  }

  lemma TagsPrefix<T>(fl: seq<Flags>, x: T, y: T, k: nat)
    requires k <= |fl|
    ensures var ms := Fill(fl, Tags(fl, x, y))[..k];
            FlagsOf(ms) == fl[..k] && Tagged(ms, x, y)
  {
  }

  lemma MixingShows<T>(fl: seq<Flags>, x: T, y: T, end: nat)
    requires x != y && end < |fl| && fl[end].last && Succeeds(fl[end])
    requires HasStart(fl, end) && !OnlyFor(fl, end, fl[end].internal)
    ensures !Independent(Fill(fl, Tags(fl, x, y))[..end + 1])
  {
    TagsPrefix(fl, x, y, end + 1);
    OnlyForPrefix(fl, end, fl[end].internal);
    MixedIsNotIndependent(Fill(fl, Tags(fl, x, y))[..end + 1], x, y);
  }

  /** For every sequence of flags and targets: each installed list stays what its own messages alone
      would install, at every moment and for all contents, if and only if every end that completes a
      list comes after a start with only messages for its own target in between. */
  lemma ListsStaySeparate<T(!new)>(fl: seq<Flags>, x: T, y: T)
    requires x != y
    ensures (forall parts: seq<seq<T>>, k: nat | |parts| == |fl| && k <= |fl| :: Independent(Fill(fl, parts)[..k])) <==> Separate(fl)
  {
    if Separate(fl) {
      forall parts: seq<seq<T>>, k: nat | |parts| == |fl| && k <= |fl|
        ensures Independent(Fill(fl, parts)[..k])
      {
        FilledIsIndependent(fl, parts, k);
      }
    } else {
      var end :| 0 <= end < |fl| && fl[end].last && Succeeds(fl[end]) && HasStart(fl, end) && !OnlyFor(fl, end, fl[end].internal);
      MixingShows(fl, x, y, end);
      assert |Tags(fl, x, y)| == |fl|;
    }
  }

  /** Two lists sent alternately get mixed up: the internal list takes in the policy's part. */
  lemma InterleavedListsMix<T>(x: T, y: T, z: T)
    ensures var fl := [Flags(true, true, false, true, true), Flags(false, true, false, true, true), Flags(true, false, true, true, true)];
            var ms := Fill(fl, [[x], [y], [z]]);
            Legal(Unset(), ms) && ReceiveAll(Unset(), ms).internal == Some([y, z])
  {
    var fl := [Flags(true, true, false, true, true), Flags(false, true, false, true, true), Flags(true, false, true, true, true)];
    var ms := Fill(fl, [[x], [y], [z]]);
    Append(Unset(), [], ms[0]);
    Append(Unset(), [] + [ms[0]], ms[1]);
    Append(Unset(), [] + [ms[0]] + [ms[1]], ms[2]);
    assert ms == [] + [ms[0]] + [ms[1]] + [ms[2]];
    assert [y] + [z] == [y, z];
  }
}
