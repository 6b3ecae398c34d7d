/** Streaming pagination of session and meter lists (agent/service.go).

    Batches arrive one at a time. The pager drops what lies before the requested
    window, keeps what lies inside it, sends a message whenever too much has piled
    up, and ignores batches once the window is complete. */
module Pagination {
  import opened Sequences

  const WORD: nat := 0x1_0000_0000
  const SESSION_LIST_LIMIT_MAX: nat := 1024
  const METER_LIST_LIMIT_MAX: nat := 3072

  datatype PageState = PageUnder | PageMiddle | PageAbove

  // ---- what a page is

  /** The items from `start` on, at most `limit` of them unless `limit` is zero. */
  function Window<T>(items: seq<T>, start: nat, limit: nat): seq<T> {
    if start >= |items| then []
    else if limit == 0 || start + limit >= |items| then items[start..]
    else items[start..start + limit]
  }

  /** How many items had arrived before the first batch, after it, after the second, and so on. */
  function Bounds<T>(first: seq<T>, batches: seq<seq<T>>, keep: T -> bool): (bs: seq<nat>)
    ensures |bs| == |batches| + 2
  {
    if batches == [] then [0, |first|]
    else
      var bs := Bounds(first, batches[..|batches| - 1], keep);
      bs + [bs[|bs| - 1] + |Filter(batches[|batches| - 1], keep)|]
  }

  function Items<T>(first: seq<T>, batches: seq<seq<T>>, keep: T -> bool): seq<T> {
    if batches == [] then first
    else Items(first, batches[..|batches| - 1], keep) + Filter(batches[|batches| - 1], keep)
  }

  lemma {:induction false} ItemsFlatten<T>(first: seq<T>, batches: seq<seq<T>>, keep: T -> bool)
    ensures Items(first, batches, keep) == first + Filter(Flatten(batches), keep)
  {
    if batches != [] {
      var init, last := batches[..|batches| - 1], batches[|batches| - 1];
      ItemsFlatten(first, init, keep);
      FilterSplit(Flatten(init), last, keep);
    }
  }

  /** The items of a request: the first list whole and, of all that the batches bring, what is kept. */
  ghost predicate Gathers<T>(first: seq<T>, batches: seq<seq<T>>, keep: T -> bool, items: seq<T>) {
    first <= items && IsSelection(Flatten(batches), keep, items[|first|..])
  }

  lemma ItemsAreGathered<T>(first: seq<T>, batches: seq<seq<T>>, keep: T -> bool)
    ensures Gathers(first, batches, keep, Items(first, batches, keep))
    ensures forall i :: |first| <= i < |Items(first, batches, keep)| ==> keep(Items(first, batches, keep)[i])
  {
    var all := Flatten(batches);
    var items := Items(first, batches, keep);
    ItemsFlatten(first, batches, keep);
    var at := FilterSelects(all, keep);
    assert items[|first|..] == Filter(all, keep);
    forall i | |first| <= i < |items|
      ensures keep(items[i])
    {
      assert at[i - |first|] in at;
    }
  }

  /** A batch ends strictly inside the window, more than `max` items into it. */
  predicate FlushedInside(bounds: seq<nat>, start: nat, limit: nat, max: nat) {
    limit != 0 && exists k :: 2 <= k < |bounds| && start + max < bounds[k] < start + limit
  }

  /** The 32-bit sum of what is left of `start` and `limit` overflows in the batch that reaches `start`. */
  predicate Overflows(bounds: seq<nat>, start: nat, limit: nat) {
    limit != 0 && exists i, j :: 0 <= i && j == i + 1 < |bounds| && bounds[i] < start <= bounds[j] && start - bounds[i] + limit >= WORD
  }

  // ---- one step of the pager

  datatype Page<T> = Page(start: nat, limit: nat, list: seq<T>, state: PageState, stream: seq<seq<T>>)

  /** Slicing past the end of the wrapped sum panics. */
  datatype Outcome<T> = Panic | Ok(page: Page<T>)

  function Paginate<T>(p: Page<T>): Outcome<T> {
    match p.state
    case PageAbove => Ok(p.(list := []))
    case _ =>
      var hi := (p.start + p.limit) % WORD;
      if p.start > |p.list| then Ok(if |p.list| > 0 then p.(start := p.start - |p.list|, list := []) else p)
      else if p.limit == 0 then Ok(p.(list := p.list[p.start..], start := 0, state := PageMiddle))
      else if hi > |p.list| then Ok(p.(list := p.list[p.start..], start := 0, state := PageMiddle))
      else if hi < p.start then Panic
      else Ok(p.(list := p.list[p.start..hi], limit := 0, start := 0, state := PageAbove))
  }

  function Send<T>(p: Page<T>): Page<T> { p.(stream := p.stream + [p.list], list := []) }

  function Feed<T>(p: Page<T>, more: seq<T>, max: nat): Outcome<T> {
    if p.state.PageAbove? then Ok(p)
    else
      match Paginate(p.(list := p.list + more))
      case Panic => Panic
      case Ok(p1) => if |p1.list| > max then Ok(Send(p1)) else Ok(p1)
  }

  /** The first batch goes through the pager without a flush. */
  function FeedAll<T>(first: seq<T>, batches: seq<seq<T>>, keep: T -> bool, start: nat, limit: nat, max: nat): Outcome<T> {
    if batches == [] then Paginate(Page(start, limit, first, PageUnder, []))
    else
      match FeedAll(first, batches[..|batches| - 1], keep, start, limit, max)
      case Panic => Panic
      case Ok(p) => Feed(p, Filter(batches[|batches| - 1], keep), max)
  }

  // ---- what the pager holds

  /** Of the items `seen`, those from `start` on up to `flushed` have been sent; the rest of
      the page is held. */
  ghost predicate Holds<T>(p: Page<T>, seen: seq<T>, start: nat, limit: nat, flushed: nat) {
    match p.state
    case PageUnder =>
      p.list == [] && p.stream == [] && p.limit == limit && p.start + |seen| == start && p.start > 0 && flushed == start
    case PageMiddle =>
      && p.start == 0 && p.limit == limit && start <= flushed <= |seen|
      && Flatten(p.stream) == seen[start..flushed] && p.list == seen[flushed..]
      && (limit != 0 ==> |p.list| < limit)
    case PageAbove =>
      && limit != 0 && start <= flushed && flushed + limit <= |seen|
      && Flatten(p.stream) + p.list == seen[start..flushed + limit]
  }

  lemma WrappedSum(a: nat, b: nat)
    requires a < WORD && b < WORD
    ensures (a + b) % WORD == if a + b < WORD then a + b else a + b - WORD
  {
  }

  lemma PaginateFirst<T>(first: seq<T>, start: nat, limit: nat)
    requires start < WORD && limit < WORD && |first| < WORD
    ensures var o := Paginate(Page(start, limit, first, PageUnder, []));
            && (o.Panic? <==> limit != 0 && start <= |first| && start + limit >= WORD)
            && (o.Ok? ==> Holds(o.page, first, start, limit, start))
  {
    WrappedSum(start, limit);
  }

  lemma PaginateUnder<T>(p: Page<T>, seen: seq<T>, more: seq<T>, start: nat, limit: nat)
    requires start < WORD && limit < WORD && |seen + more| < WORD && p.state.PageUnder? && Holds(p, seen, start, limit, start)
    ensures var o := Paginate(p.(list := p.list + more));
            && (o.Panic? <==> limit != 0 && start <= |seen + more| && start - |seen| + limit >= WORD)
            && (o.Ok? ==> Holds(o.page, seen + more, start, limit, start))
  {
    assert p.list + more == more;
    WrappedSum(p.start, p.limit);
    if p.start <= |more| { assert more[p.start..] == (seen + more)[start..]; }
  }

  lemma PaginateMiddle<T>(p: Page<T>, seen: seq<T>, more: seq<T>, start: nat, limit: nat, flushed: nat)
    requires limit < WORD && |seen + more| < WORD && p.state.PageMiddle? && Holds(p, seen, start, limit, flushed)
    ensures var o := Paginate(p.(list := p.list + more));
            o.Ok? && Holds(o.page, seen + more, start, limit, flushed)
  {
    assert seen[flushed..] + more == (seen + more)[flushed..];
    assert (seen + more)[start..flushed] == seen[start..flushed];
  }

  /** A message sent mid-stream moves the point the page is counted from. */
  function FlushPoint<T>(p: Page<T>, seen: seq<T>, max: nat, flushed: nat): nat {
    if p.state.PageMiddle? && |p.list| > max then |seen| else flushed
  }

  lemma FlushHolds<T>(p: Page<T>, seen: seq<T>, start: nat, limit: nat, max: nat, flushed: nat)
    requires Holds(p, seen, start, limit, flushed) && |p.list| > max
    ensures Holds(Send(p), seen, start, limit, FlushPoint(p, seen, max, flushed))
  {
    assert (p.stream + [p.list])[..|p.stream|] == p.stream;
    if p.state.PageMiddle? {
      assert seen[start..flushed] + seen[flushed..] == seen[start..];
    }
  }

  lemma {:induction false} BoundsFacts<T>(first: seq<T>, batches: seq<seq<T>>, keep: T -> bool)
    ensures var bs := Bounds(first, batches, keep);
            && bs[|bs| - 1] == |Items(first, batches, keep)|
            && (forall k :: 0 <= k < |bs| ==> bs[k] <= bs[|bs| - 1])
  {
    if batches != [] {
      BoundsFacts(first, batches[..|batches| - 1], keep);
    }
  }

  lemma FirstBounds(b: nat, start: nat, limit: nat, max: nat)
    requires limit < WORD
    ensures !FlushedInside([0, b], start, limit, max)
    ensures Overflows([0, b], start, limit) <==> limit != 0 && start <= b && start + limit >= WORD
  {
    assert [0, b][0] == 0 && [0, b][1] == b;
  }

  /** How one more bound changes the two conditions. */
  lemma MoreBounds(bs: seq<nat>, b: nat, start: nat, limit: nat, max: nat)
    requires |bs| >= 2
    ensures FlushedInside(bs + [b], start, limit, max) <==>
            FlushedInside(bs, start, limit, max) || (limit != 0 && start + max < b < start + limit)
    ensures Overflows(bs + [b], start, limit) <==>
            || Overflows(bs, start, limit)
            || (limit != 0 && bs[|bs| - 1] < start <= b && start - bs[|bs| - 1] + limit >= WORD)
  {
    var bs' := bs + [b];
    if FlushedInside(bs, start, limit, max) {
      var k :| 2 <= k < |bs| && start + max < bs[k] < start + limit;
      assert bs'[k] == bs[k];
    }
    if start + max < b < start + limit {
      assert bs'[|bs|] == b;
    }
    if Overflows(bs, start, limit) {
      var i, j :| 0 <= i && j == i + 1 < |bs| && bs[i] < start <= bs[j] && start - bs[i] + limit >= WORD;
      assert bs'[i] == bs[i] && bs'[j] == bs[j];
    }
    if bs[|bs| - 1] < start <= b && start - bs[|bs| - 1] + limit >= WORD {
      assert bs'[|bs| - 1] == bs[|bs| - 1] && bs'[|bs|] == b;
    }
  }

  lemma FeedHolds<T>(p: Page<T>, seen: seq<T>, more: seq<T>, start: nat, limit: nat, max: nat, flushed: nat)
    returns (flushed': nat)
    requires start < WORD && limit < WORD && |seen + more| < WORD && Holds(p, seen, start, limit, flushed)
    ensures var o := Feed(p, more, max);
            && (o.Panic? <==> limit != 0 && |seen| < start <= |seen + more| && start - |seen| + limit >= WORD)
            && (o.Ok? ==> Holds(o.page, seen + more, start, limit, flushed'))
    ensures Feed(p, more, max).Ok? && limit != 0 ==> (flushed' != start <==> flushed != start || start + max < |seen + more| < start + limit)
  {
    flushed' := flushed;
    if p.state.PageAbove? {
      assert (seen + more)[start..flushed + limit] == seen[start..flushed + limit];
    } else {
      if p.state.PageUnder? {
        PaginateUnder(p, seen, more, start, limit);
      } else {
        PaginateMiddle(p, seen, more, start, limit, flushed);
      }
      var o := Paginate(p.(list := p.list + more));
      if o.Ok? && |o.page.list| > max {
        FlushHolds(o.page, seen + more, start, limit, max, flushed);
        flushed' := FlushPoint(o.page, seen + more, max, flushed);
      }
    }
  }

  /** What is known after the items `seen`, which arrived in batches with these bounds. */
  ghost predicate Knows<T>(o: Outcome<T>, seen: seq<T>, bounds: seq<nat>, start: nat, limit: nat, max: nat, flushed: nat) {
    && (o.Panic? <==> Overflows(bounds, start, limit))
    && (o.Ok? ==> Holds(o.page, seen, start, limit, flushed))
    && (o.Ok? && limit != 0 ==> (flushed != start <==> FlushedInside(bounds, start, limit, max)))
  }

  lemma KnowsNext<T>(o: Outcome<T>, seen: seq<T>, more: seq<T>, bs: seq<nat>, start: nat, limit: nat, max: nat, flushed: nat)
    returns (flushed': nat)
    requires start < WORD && limit < WORD && |seen + more| < WORD && Knows(o, seen, bs, start, limit, max, flushed)
    requires |bs| >= 2 && bs[|bs| - 1] == |seen| && forall k :: 0 <= k < |bs| ==> bs[k] <= |seen|
    ensures Knows(if o.Panic? then Panic else Feed(o.page, more, max), seen + more, bs + [|seen| + |more|],
                  start, limit, max, flushed')
  {
    flushed' := flushed;
    MoreBounds(bs, |seen| + |more|, start, limit, max);
    if o.Ok? { flushed' := FeedHolds(o.page, seen, more, start, limit, max, flushed); }
  }

  lemma {:induction false} FeedAllHolds<T>(first: seq<T>, batches: seq<seq<T>>, keep: T -> bool, start: nat, limit: nat, max: nat)
    returns (flushed: nat)
    requires start < WORD && limit < WORD && |Items(first, batches, keep)| < WORD
    ensures Knows(FeedAll(first, batches, keep, start, limit, max), Items(first, batches, keep), Bounds(first, batches, keep),
                  start, limit, max, flushed)
  {
    flushed := start;
    if batches == [] {
      PaginateFirst(first, start, limit);
      FirstBounds(|first|, start, limit, max);
    } else {
      var init, more := batches[..|batches| - 1], Filter(batches[|batches| - 1], keep);
      flushed := FeedAllHolds(first, init, keep, start, limit, max);
      BoundsFacts(first, init, keep);
      flushed := KnowsNext(FeedAll(first, init, keep, start, limit, max), Items(first, init, keep), more,
                           Bounds(first, init, keep), start, limit, max, flushed);
    }
  }

  // ---- the result

  /** Everything sent, the final message included. */
  function Sent<T>(p: Page<T>): seq<T> { Flatten(p.stream) + p.list }

  lemma HeldIsWindow<T>(p: Page<T>, seen: seq<T>, start: nat, limit: nat, flushed: nat)
    requires Holds(p, seen, start, limit, flushed)
    ensures Sent(p) == Window(seen, start, limit) <==> limit == 0 || flushed == start || |seen| <= start + limit
  {
    match p.state
    case PageUnder =>
    case PageMiddle => assert seen[start..flushed] + seen[flushed..] == seen[start..];
    case PageAbove =>
  }

  /** The stream is the requested window exactly when no batch ends inside the window after
      more than `max` of its items, unless the items end with the window anyway; the request
      fails exactly when its bounds overflow in the batch that reaches its start. */
  lemma PagingIsSlicing<T>(first: seq<T>, batches: seq<seq<T>>, keep: T -> bool, start: nat, limit: nat, max: nat)
    requires start < WORD && limit < WORD && |Items(first, batches, keep)| < WORD
    ensures var o := FeedAll(first, batches, keep, start, limit, max);
            var items, bounds := Items(first, batches, keep), Bounds(first, batches, keep);
            && (o.Panic? <==> Overflows(bounds, start, limit))
            && (o.Ok? ==>
                  (Sent(o.page) == Window(items, start, limit) <==>
                   !FlushedInside(bounds, start, limit, max) || |items| <= start + limit))
  {
    var flushed := FeedAllHolds(first, batches, keep, start, limit, max);
    var o := FeedAll(first, batches, keep, start, limit, max);
    if o.Ok? { HeldIsWindow(o.page, Items(first, batches, keep), start, limit, flushed); }
  }

  /** What is sent are items in their places, from the start of the window on. */
  ghost predicate InPlace<T>(sent: seq<T>, items: seq<T>, start: nat) {
    forall j :: 0 <= j < |sent| ==> start + j < |items| && sent[j] == items[start + j]
  }

  /** A window holds items in their places from its start on, up to its limit or their end. */
  lemma WindowMeans<T>(items: seq<T>, start: nat, limit: nat)
    ensures InPlace(Window(items, start, limit), items, start)
    ensures var left := if start < |items| then |items| - start else 0;
            |Window(items, start, limit)| == if limit == 0 then left else Min(limit, left)
  {
  }

  lemma HeldInPlace<T>(p: Page<T>, seen: seq<T>, start: nat, limit: nat, flushed: nat)
    requires Holds(p, seen, start, limit, flushed)
    ensures InPlace(Sent(p), seen, start)
  {
    if p.state.PageMiddle? { assert seen[start..flushed] + seen[flushed..] == seen[start..]; }
  }

  /** Whether or not it is the whole window. */
  lemma SentInPlace<T>(first: seq<T>, batches: seq<seq<T>>, keep: T -> bool, start: nat, limit: nat, max: nat)
    requires start < WORD && limit < WORD && |Items(first, batches, keep)| < WORD
    ensures var o := FeedAll(first, batches, keep, start, limit, max);
            o.Ok? ==> InPlace(Sent(o.page), Items(first, batches, keep), start)
  {
    var flushed := FeedAllHolds(first, batches, keep, start, limit, max);
    var o := FeedAll(first, batches, keep, start, limit, max);
    if o.Ok? { HeldInPlace(o.page, Items(first, batches, keep), start, limit, flushed); }
  }

  /** The request succeeds and what it sends is its window. */
  ghost predicate Delivers<T>(first: seq<T>, batches: seq<seq<T>>, keep: T -> bool, start: nat, limit: nat, max: nat) {
    var o := FeedAll(first, batches, keep, start, limit, max);
    o.Ok? && Sent(o.page) == Window(Items(first, batches, keep), start, limit)
  }

  /** Requests at most one larger than the flush threshold always get their window. */
  lemma SmallPagesAreExact<T>(first: seq<T>, batches: seq<seq<T>>, keep: T -> bool, start: nat, limit: nat, max: nat)
    requires start + limit < WORD && limit <= max + 1 && |Items(first, batches, keep)| < WORD
    ensures Delivers(first, batches, keep, start, limit, max)
  {
    PagingIsSlicing(first, batches, keep, start, limit, max);
  }

  function Everything<T>(): T -> bool { (_: T) => true }

  lemma {:induction false} FilterEverything<T>(items: seq<T>)
    ensures Filter(items, Everything()) == items
  {
    if items != [] { FilterEverything(items[..|items| - 1]); }
  }

  function OverrunBatches<T>(start: nat, limit: nat, max: nat, x: T): seq<seq<T>>
    requires max < limit
  {
    [seq(start + max + 1, _ => x)] + [seq(limit - max, _ => x)]
  }

  /** A larger page can overrun: a batch that ends max + 1 items into the window, then one that ends
      just after it. */
  lemma LargePagesOverrun<T>(start: nat, limit: nat, max: nat, x: T)
    requires max + 1 < limit && start + limit + 1 < WORD
    ensures var batches := OverrunBatches(start, limit, max, x);
            |Items([], batches, Everything())| < WORD && !Delivers([], batches, Everything(), start, limit, max)
  {
    var batches := OverrunBatches(start, limit, max, x);
    var one := [batches[0]];
    FilterEverything(batches[0]);
    FilterEverything(batches[1]);
    assert batches[..1] == one && one[..0] == [];
    var bounds := Bounds([], batches, Everything());
    assert Bounds([], one, Everything()) == [0, 0, start + max + 1];
    assert bounds == [0, 0, start + max + 1, start + limit + 1];
    assert bounds[2] == start + max + 1;
    BoundsFacts([], batches, Everything());
    PagingIsSlicing([], batches, Everything(), start, limit, max);
  }

  lemma OverflowingPagesPanic<T>(start: nat, limit: nat, max: nat, x: T)
    requires start < WORD && 0 < limit < WORD && start + limit >= WORD
    ensures var first := seq(start, _ => x);
            |Items(first, [], Everything())| < WORD && !Delivers(first, [], Everything(), start, limit, max)
  {
    PaginateFirst(seq(start, _ => x), start, limit);
  }

  /** No limit; or a window that ends within 32 bits and is at most one larger than the threshold, or
      ends at the last item there can be. */
  predicate SafeRequest(start: nat, limit: nat, max: nat) {
    limit == 0 || (start + limit < WORD && (limit <= max + 1 || start + limit == WORD - 1))
  }

  lemma SafeRequestsDeliver<T>(first: seq<T>, batches: seq<seq<T>>, keep: T -> bool, start: nat, limit: nat, max: nat)
    requires start < WORD && limit < WORD && |Items(first, batches, keep)| < WORD && SafeRequest(start, limit, max)
    ensures Delivers(first, batches, keep, start, limit, max)
  {
    PagingIsSlicing(first, batches, keep, start, limit, max);
  }

  /** A request gets its window however the items arrive if and only if it is safe. */
  lemma ExactForAllBatches<T(!new)>(start: nat, limit: nat, max: nat, x: T)
    requires start < WORD && limit < WORD
    ensures (forall first: seq<T>, batches: seq<seq<T>>, keep: T -> bool | |Items(first, batches, keep)| < WORD ::
               Delivers(first, batches, keep, start, limit, max)) <==> SafeRequest(start, limit, max)
  {
    if SafeRequest(start, limit, max) {
      forall first: seq<T>, batches: seq<seq<T>>, keep: T -> bool | |Items(first, batches, keep)| < WORD
        ensures Delivers(first, batches, keep, start, limit, max)
      {
        SafeRequestsDeliver(first, batches, keep, start, limit, max);
      }
    } else if start + limit >= WORD {
      OverflowingPagesPanic(start, limit, max, x);
    } else {
      LargePagesOverrun(start, limit, max, x);
    }
  }

  /** A page whose end does not fit 32 bits can panic. */
  lemma OverflowPanics()
    ensures FeedAll([true], [], Everything(), 1, WORD - 1, SESSION_LIST_LIMIT_MAX).Panic?
  {
  }

  class Pager<T> {
    var start: nat
    var limit: nat
    var list: seq<T>
    var state: PageState
    var stream: seq<seq<T>>

    ghost function View(): Page<T>
      reads this
    {
      Page(start, limit, list, state, stream)
    }

    constructor (start: nat, limit: nat, list: seq<T>)
      ensures View() == Page(start, limit, list, PageUnder, [])
    {
      this.start, this.limit, this.list, state, stream := start, limit, list, PageUnder, [];
    }

    /** False stands for the run-time panic of an out-of-range slice. */
    method PaginateList() returns (ok: bool)
      modifies this
      ensures ok <==> Paginate(old(View())).Ok?
      ensures ok ==> View() == Paginate(old(View())).page
    {
      if state == PageAbove {
        list := [];
        return true;
      }
      if start > |list| {
        if |list| > 0 {
          start := start - |list|;
          list := [];
        }
      } else if limit == 0 {
        list, start, state := list[start..], 0, PageMiddle;
      } else if (start + limit) % WORD > |list| {
        list, start, state := list[start..], 0, PageMiddle;
      } else if (start + limit) % WORD < start {
        return false;
      } else {
        list, limit, start, state := list[start..(start + limit) % WORD], 0, 0, PageAbove;
      }
      return true;
    }

    method SendList()
      modifies this
      ensures View() == Send(old(View()))
    {
      stream := stream + [list];
      list := [];
    }

    method Callback(batch: seq<T>, keep: T -> bool, max: nat) returns (ok: bool)
      modifies this
      ensures var o := Feed(old(View()), Filter(batch, keep), max); (ok <==> o.Ok?) && (ok ==> View() == o.page)
    {
      if state == PageAbove {
        return true;
      }
      for i := 0 to |batch|
        invariant View() == old(View()).(list := old(list) + Filter(batch[..i], keep))
      {
        assert batch[..i + 1][..i] == batch[..i];
        if keep(batch[i]) {
          list := list + [batch[i]];
        }
      }
      assert batch[..|batch|] == batch;
      ok := PaginateList();
      if ok && |list| > max {
        SendList();
      }
    }
  }

  lemma {:induction false} PanicStays<T>(first: seq<T>, batches: seq<seq<T>>, keep: T -> bool, start: nat, limit: nat, max: nat, i: nat)
    requires i <= |batches| && FeedAll(first, batches[..i], keep, start, limit, max).Panic?
    ensures FeedAll(first, batches, keep, start, limit, max).Panic?
    decreases |batches|
  {
    if i == |batches| {
      assert batches[..i] == batches;
    } else {
      assert batches[..|batches| - 1][..i] == batches[..i];
      PanicStays(first, batches[..|batches| - 1], keep, start, limit, max, i);
    }
  }

  /** The whole request: the first list, then the batches the data plane streams. */
  method GetList<T>(first: seq<T>, batches: seq<seq<T>>, keep: T -> bool, start: nat, limit: nat, max: nat)
    returns (ok: bool, sent: seq<seq<T>>)
    requires start < WORD && limit < WORD && |Items(first, batches, keep)| < WORD
    ensures ok <==> !Overflows(Bounds(first, batches, keep), start, limit)
    ensures ok ==> (Flatten(sent) == Window(Items(first, batches, keep), start, limit) <==>
                    !FlushedInside(Bounds(first, batches, keep), start, limit, max)
                    || |Items(first, batches, keep)| <= start + limit)
    ensures start + limit < WORD && limit <= max + 1 ==>
              ok && Flatten(sent) == Window(Items(first, batches, keep), start, limit)
    ensures ok ==> InPlace(Flatten(sent), Items(first, batches, keep), start)
    ensures Gathers(first, batches, keep, Items(first, batches, keep))
    ensures ok ==> forall j :: 0 <= j < |Flatten(sent)| && start + j >= |first| ==> keep(Flatten(sent)[j])
  {
    var pager := new Pager(start, limit, first);
    ok := pager.PaginateList();
    var i := 0;
    if !ok { PanicStays(first, batches, keep, start, limit, max, 0); }
    while ok && i < |batches|
      invariant 0 <= i <= |batches|
      invariant var o := FeedAll(first, batches[..i], keep, start, limit, max);
                (ok <==> o.Ok?) && (ok ==> pager.View() == o.page)
      invariant !ok ==> FeedAll(first, batches, keep, start, limit, max).Panic?
      decreases |batches| - i + (if ok then 1 else 0)
    {
      assert batches[..i + 1][..i] == batches[..i];
      ok := pager.Callback(batches[i], keep, max);
      i := i + 1;
      if !ok { PanicStays(first, batches, keep, start, limit, max, i); }
    }
    assert batches[..|batches|] == batches;
    PagingIsSlicing(first, batches, keep, start, limit, max);
    SentInPlace(first, batches, keep, start, limit, max);
    ItemsAreGathered(first, batches, keep);
    sent := [];
    if ok {
      assert (pager.stream + [pager.list])[..|pager.stream|] == pager.stream;
      pager.SendList();
      sent := pager.stream;
    }
  }

  /** Which sessions are asked for: all, those of a workload, or those of a workload in host mode, whose
      sessions are at hand. */
  datatype Query<T> = Everything(hostMode: seq<T>) | OfWorkload | OfHostMode(sessions: seq<T>)

  /** What comes before the batches: sessions of host-mode containers, unfiltered, unless a workload is named. */
  function First<T>(query: Query<T>): seq<T> { if query.Everything? then query.hostMode else [] }

  lemma WholeIsWindow<T>(items: seq<T>, start: nat, limit: nat)
    ensures items == Window(items, start, limit) <==> items == [] || (start == 0 && (limit == 0 || |items| <= limit))
  {
    if items != [] { assert |Window(items, start, limit)| == |items| ==> start == 0; }
  }

  /** The sessions of a host-mode workload are sent whole, whatever window was asked for. */
  method GetSessionList<T>(query: Query<T>, batches: seq<seq<T>>, keep: T -> bool, start: nat, limit: nat)
    returns (ok: bool, sent: seq<seq<T>>)
    requires start < WORD && limit < WORD
    requires !query.OfHostMode? ==> |Items(First(query), batches, keep)| < WORD
    ensures query.OfHostMode? ==>
              && ok && sent == [query.sessions]
              && (Flatten(sent) == Window(query.sessions, start, limit) <==>
                  query.sessions == [] || (start == 0 && (limit == 0 || |query.sessions| <= limit)))
    ensures !query.OfHostMode? ==> (ok <==> !Overflows(Bounds(First(query), batches, keep), start, limit))
    ensures !query.OfHostMode? && ok ==>
              (Flatten(sent) == Window(Items(First(query), batches, keep), start, limit) <==>
               !FlushedInside(Bounds(First(query), batches, keep), start, limit, SESSION_LIST_LIMIT_MAX)
               || |Items(First(query), batches, keep)| <= start + limit)
    ensures !query.OfHostMode? && start + limit < WORD && limit <= SESSION_LIST_LIMIT_MAX + 1 ==>
              ok && Flatten(sent) == Window(Items(First(query), batches, keep), start, limit)
    ensures !query.OfHostMode? && ok ==> InPlace(Flatten(sent), Items(First(query), batches, keep), start)
    ensures query.Everything? ==> Gathers(query.hostMode, batches, keep, Items(First(query), batches, keep))
    ensures query.OfWorkload? ==> IsSelection(Flatten(batches), keep, Items(First(query), batches, keep))
    ensures query.Everything? && ok ==>
              forall j :: 0 <= j < |Flatten(sent)| && start + j >= |query.hostMode| ==> keep(Flatten(sent)[j])
    ensures query.OfWorkload? && ok ==> forall x <- Flatten(sent) :: keep(x)
  {
    if query.OfHostMode? {
      ok, sent := true, [query.sessions];
      assert sent[..0] == [] && Flatten(sent) == [] + query.sessions == query.sessions;
      WholeIsWindow(query.sessions, start, limit);
      return;
    }
    ok, sent := GetList(First(query), batches, keep, start, limit, SESSION_LIST_LIMIT_MAX);
  }

  method GetMeterList<T>(batches: seq<seq<T>>, keep: T -> bool, start: nat, limit: nat)
    returns (ok: bool, sent: seq<seq<T>>)
    requires start < WORD && limit < WORD && |Items([], batches, keep)| < WORD
    ensures ok <==> !Overflows(Bounds([], batches, keep), start, limit)
    ensures ok ==> (Flatten(sent) == Window(Items([], batches, keep), start, limit) <==>
                    !FlushedInside(Bounds([], batches, keep), start, limit, METER_LIST_LIMIT_MAX)
                    || |Items([], batches, keep)| <= start + limit)
    ensures start + limit < WORD && limit <= METER_LIST_LIMIT_MAX + 1 ==>
              ok && Flatten(sent) == Window(Items([], batches, keep), start, limit)
    ensures ok ==> InPlace(Flatten(sent), Items([], batches, keep), start)
    ensures IsSelection(Flatten(batches), keep, Items([], batches, keep))
    ensures ok ==> forall x <- Flatten(sent) :: keep(x)
  {
    ok, sent := GetList([], batches, keep, start, limit, METER_LIST_LIMIT_MAX);
  }
}
