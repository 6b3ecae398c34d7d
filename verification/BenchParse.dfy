/** Turning the output of a benchmark script into check items (agent/bench.go).

    A headline starts an item and the lines up to the next headline are its message.
    An item can only be judged once the next one is known. */
module BenchParse {
  import opened Options
  import opened Sequences

  datatype Level = Note | Info | OtherLevel

  /** A line the parser recognised; only headlines carry a test number. */
  datatype Line = Line(testNum: string, level: Level, header: string)

  datatype Item = Item(testNum: string, level: Level, header: string, message: seq<string>)

  /** A section title, recognised by the item that follows, is not a check; notes and infos are not either. */
  predicate Accepts(item: Item, next: Option<Item>) {
    && !(next.Some? && IsPrefix(next.value.testNum, item.testNum + "."))
    && item.level != Note && item.level != Info
  }

  // ---- what the output says

  function ItemOf(line: Line): Item { Item(line.testNum, line.level, line.header, []) }

  /** A recognised line with a test number, or the first recognised line. */
  predicate IsHeadline(lines: seq<Option<Line>>, i: nat)
    requires i < |lines|
  {
    lines[i].Some? && (lines[i].value.testNum != "" || forall j :: 0 <= j < i ==> lines[j].None?)
  }

  /** Where the headlines among the first n lines are. */
  function Headlines(lines: seq<Option<Line>>, n: nat): (hs: seq<nat>)
    requires n <= |lines|
    ensures forall i: nat :: i in hs <==> i < n && IsHeadline(lines, i)
    ensures forall j, k :: 0 <= j < k < |hs| ==> hs[j] < hs[k]
  {
    if n == 0 then []
    else
      var hs := Headlines(lines, n - 1);
      assert forall j :: 0 <= j < |hs| ==> hs[j] in hs;
      if IsHeadline(lines, n - 1) then hs + [n - 1] else hs
  }

  /** What the recognised lines from `lo` up to `hi` say. */
  function Headers(lines: seq<Option<Line>>, lo: nat, hi: nat): seq<string>
    requires lo <= hi <= |lines|
  {
    if lo == hi then []
    else Headers(lines, lo, hi - 1) + if lines[hi - 1].Some? then [lines[hi - 1].value.header] else []
  }

  /** Where the message of the j-th item ends. */
  function MessageEnd(hs: seq<nat>, j: nat, n: nat): nat
    requires j < |hs|
  {
    if j + 1 < |hs| then hs[j + 1] else n
  }

  /** The j-th item: the j-th headline, and the recognised lines strictly between it and the next. */
  function ItemAt(lines: seq<Option<Line>>, n: nat, j: nat): Item
    requires n <= |lines| && j < |Headlines(lines, n)|
  {
    var hs := Headlines(lines, n);
    assert hs[j] in hs;
    assert j + 1 < |hs| ==> hs[j + 1] in hs;
    ItemOf(lines[hs[j]].value).(message := Headers(lines, hs[j] + 1, MessageEnd(hs, j, n)))
  }

  /** The items of the first n lines. */
  function Items(lines: seq<Option<Line>>, n: nat): seq<Item>
    requires n <= |lines|
  {
    seq(|Headlines(lines, n)|, j requires 0 <= j < |Headlines(lines, n)| => ItemAt(lines, n, j))
  }

  /** Of the first n items, those accepted in view of their successors. */
  function Accepted(items: seq<Item>, n: nat): seq<Item>
    requires n <= |items|
  {
    if n == 0 then []
    else
      var item := items[n - 1];
      var next := if n < |items| then Some(items[n]) else None;
      Accepted(items, n - 1) + if Accepts(item, next) then [item] else []
  }

  // ---- the loop

  lemma {:induction false} AcceptedIgnoresTail(items: seq<Item>, items': seq<Item>, n: nat)
    requires n <= |items| && n <= |items'| && (n > 0 ==> n < |items| && n < |items'|)
    requires forall i :: 0 <= i < n ==> items[i] == items'[i]
    requires n > 0 ==> items[n].testNum == items'[n].testNum
    ensures Accepted(items, n) == Accepted(items', n)
  {
    if n > 0 { AcceptedIgnoresTail(items, items', n - 1); }
  }

  /** The loop keeps the current item, the one before it, and the items already judged. */
  ghost predicate Keeps(items: seq<Item>, last: Option<Item>, item: Option<Item>, list: seq<Item>) {
    var n := |items|;
    && (n == 0 ==> item.None? && last.None? && list == [])
    && (n > 0 ==> item == Some(items[n - 1]))
    && (n == 1 ==> last.None? && list == [])
    && (n > 1 ==> last == Some(items[n - 2]) && list == Accepted(items, n - 2))
  }

  lemma MessageKeeps(items: seq<Item>, item': Item, last: Option<Item>, list: seq<Item>)
    requires items != [] && Keeps(items, last, Some(items[|items| - 1]), list)
    requires item'.testNum == items[|items| - 1].testNum
    ensures Keeps(items[..|items| - 1] + [item'], last, Some(item'), list)
  {
    var n := |items|;
    if n > 1 { AcceptedIgnoresTail(items, items[..n - 1] + [item'], n - 2); }
  }

  lemma HeadlineKeeps(items: seq<Item>, item': Item, last: Option<Item>, list: seq<Item>)
    requires items != [] && Keeps(items, last, Some(items[|items| - 1]), list)
    ensures Keeps(items + [item'], Some(items[|items| - 1]), Some(item'),
                  list + if last.Some? && Accepts(last.value, Some(items[|items| - 1])) then [last.value] else [])
  {
    var n := |items|;
    if n > 1 { AcceptedIgnoresTail(items, items + [item'], n - 1); }
  }

  /** A line that is not recognised adds nothing. */
  lemma IgnoredLine(lines: seq<Option<Line>>, n: nat)
    requires n < |lines| && lines[n].None?
    ensures Items(lines, n + 1) == Items(lines, n)
  {
    var hs := Headlines(lines, n);
    forall j | 0 <= j < |hs|
      ensures ItemAt(lines, n + 1, j) == ItemAt(lines, n, j)
    {
      assert hs[j] in hs;
      if j == |hs| - 1 { assert Headers(lines, hs[j] + 1, n + 1) == Headers(lines, hs[j] + 1, n); }
    }
  }

  lemma {:induction false} FirstRecognised(lines: seq<Option<Line>>, n: nat)
    requires n <= |lines| && exists j :: 0 <= j < n && lines[j].Some?
    ensures Headlines(lines, n) != []
  {
    if exists j :: 0 <= j < n - 1 && lines[j].Some? {
      FirstRecognised(lines, n - 1);
    } else {
      assert IsHeadline(lines, n - 1);
    }
  }

  lemma FirstIsHeadline(lines: seq<Option<Line>>, n: nat)
    requires n < |lines| && lines[n].Some?
    ensures Headlines(lines, n) == [] <==> forall j :: 0 <= j < n ==> lines[j].None?
  {
    var hs := Headlines(lines, n);
    if hs != [] { assert hs[0] in hs; }
    if exists j :: 0 <= j < n && lines[j].Some? { FirstRecognised(lines, n); }
  }

  lemma HeadlineLeaves(lines: seq<Option<Line>>, n: nat, j: nat)
    requires n < |lines| && IsHeadline(lines, n) && j < |Headlines(lines, n)|
    ensures Headlines(lines, n + 1) == Headlines(lines, n) + [n]
    ensures ItemAt(lines, n + 1, j) == ItemAt(lines, n, j)
  {
  }

  /** A headline starts an item with no message. */
  lemma HeadlineAdds(lines: seq<Option<Line>>, n: nat)
    requires n < |lines| && IsHeadline(lines, n)
    ensures Items(lines, n + 1) == Items(lines, n) + [ItemOf(lines[n].value)]
  {
    var items, items', k := Items(lines, n), Items(lines, n + 1), |Headlines(lines, n)|;
    assert Headlines(lines, n + 1)[k] == n && MessageEnd(Headlines(lines, n + 1), k, n + 1) == n + 1;
    assert items'[k] == ItemOf(lines[n].value);
    forall j | 0 <= j < k
      ensures items'[j] == items[j]
    {
      HeadlineLeaves(lines, n, j);
    }
  }

  /** Another recognised line adds to the message of the last item. */
  lemma LineAdds(lines: seq<Option<Line>>, n: nat)
    requires n < |lines| && lines[n].Some? && !IsHeadline(lines, n)
    ensures var items := Items(lines, n);
            && items != []
            && var last := items[|items| - 1];
            Items(lines, n + 1) == items[..|items| - 1] + [last.(message := last.message + [lines[n].value.header])]
  {
    FirstIsHeadline(lines, n);
    var hs, k := Headlines(lines, n), |Headlines(lines, n)| - 1;
    assert hs[k] in hs;
    assert Headlines(lines, n + 1) == hs;
    forall j | 0 <= j < k
      ensures ItemAt(lines, n + 1, j) == ItemAt(lines, n, j)
    {
    }
    assert Headers(lines, hs[k] + 1, n + 1) == Headers(lines, hs[k] + 1, n) + [lines[n].value.header];
  }

  lemma LineKeeps(lines: seq<Option<Line>>, n: nat, last: Option<Item>, item: Option<Item>, list: seq<Item>)
    requires n < |lines| && lines[n].Some? && lines[n].value.testNum == "" && item.Some?
    requires Keeps(Items(lines, n), last, item, list)
    ensures Keeps(Items(lines, n + 1), last, Some(item.value.(message := item.value.message + [lines[n].value.header])), list)
  {
    FirstIsHeadline(lines, n);
    LineAdds(lines, n);
    MessageKeeps(Items(lines, n), item.value.(message := item.value.message + [lines[n].value.header]), last, list);
  }

  lemma NextHeadlineKeeps(lines: seq<Option<Line>>, n: nat, last: Option<Item>, item: Option<Item>, list: seq<Item>)
    requires n < |lines| && lines[n].Some? && (lines[n].value.testNum != "" || item.None?)
    requires Keeps(Items(lines, n), last, item, list)
    ensures Keeps(Items(lines, n + 1), if item.Some? then item else last, Some(ItemOf(lines[n].value)),
                  list + if item.Some? && last.Some? && Accepts(last.value, item) then [last.value] else [])
  {
    FirstIsHeadline(lines, n);
    HeadlineAdds(lines, n);
    if item.Some? { HeadlineKeeps(Items(lines, n), ItemOf(lines[n].value), last, list); }
  }

  lemma AllJudged(items: seq<Item>, last: Option<Item>, item: Option<Item>, list: seq<Item>)
    requires Keeps(items, last, item, list)
    ensures Accepted(items, |items|) ==
            list + (if item.Some? && last.Some? && Accepts(last.value, item) then [last.value] else [])
            + if item.Some? && Accepts(item.value, None) then [item.value] else []
  {
  }

  // ---- what the items say

  /** An item that is a check: its level is neither note nor info, and it is no title of a section, whose
      number followed by a dot begins the number of the next item. */
  ghost predicate IsCheck(items: seq<Item>, j: nat) {
    && j < |items| && items[j].level == OtherLevel
    && !(j + 1 < |items| && exists rest: string :: items[j + 1].testNum == items[j].testNum + "." + rest)
  }

  lemma AcceptsMeans(items: seq<Item>, j: nat)
    requires j < |items|
    ensures Accepts(items[j], if j + 1 < |items| then Some(items[j + 1]) else None) <==> IsCheck(items, j)
  {
    if j + 1 < |items| {
      var title, num := items[j].testNum + ".", items[j + 1].testNum;
      if IsPrefix(num, title) { assert num == title + num[|title|..]; }
      if rest: string :| num == title + rest { assert num[..|title|] == title; }
    }
  }

  ghost function Checks(items: seq<Item>): nat -> bool { (j: nat) => IsCheck(items, j) }

  /** The accepted items are the checks, in order. */
  lemma {:induction false} AcceptedMeans(items: seq<Item>, n: nat)
    requires n <= |items|
    ensures StandsAt(items, PlacesOf(n, Checks(items)), Accepted(items, n))
  {
    if n > 0 {
      AcceptedMeans(items, n - 1);
      AcceptsMeans(items, n - 1);
    }
  }

  function Recognised(lines: seq<Option<Line>>, lo: nat): nat -> bool {
    (p: nat) => lo <= p < |lines| && lines[p].Some?
  }

  predicate Tell(lines: seq<Option<Line>>, at: seq<nat>, headers: seq<string>) {
    && |headers| == |at|
    && forall i :: 0 <= i < |at| ==> at[i] < |lines| && lines[at[i]].Some? && headers[i] == lines[at[i]].value.header
  }

  lemma TellNext(lines: seq<Option<Line>>, at: seq<nat>, headers: seq<string>, p: nat)
    requires Tell(lines, at, headers) && p < |lines| && lines[p].Some?
    ensures Tell(lines, at + [p], headers + [lines[p].value.header])
  {
  }

  /** A message consists of what the recognised lines say, in order. */
  lemma {:induction false} HeadersMean(lines: seq<Option<Line>>, lo: nat, hi: nat)
    requires lo <= hi <= |lines|
    ensures Tell(lines, PlacesOf(hi, Recognised(lines, lo)), Headers(lines, lo, hi))
  {
    if lo == hi {
      NoPlaces(hi, Recognised(lines, lo));
    } else {
      HeadersMean(lines, lo, hi - 1);
      var at, headers := PlacesOf(hi - 1, Recognised(lines, lo)), Headers(lines, lo, hi - 1);
      if lines[hi - 1].Some? {
        TellNext(lines, at, headers, hi - 1);
      } else {
        assert headers + [] == headers;
      }
    }
  }

  /** Item j carries number, level and text of the j-th headline. */
  lemma ItemMeans(lines: seq<Option<Line>>, j: nat)
    requires j < |Items(lines, |lines|)|
    ensures var hs, item := Headlines(lines, |lines|), Items(lines, |lines|)[j];
            && j < |hs| && hs[j] < |lines| && IsHeadline(lines, hs[j])
            && item.testNum == lines[hs[j]].value.testNum && item.level == lines[hs[j]].value.level
            && item.header == lines[hs[j]].value.header
            && item.message == Headers(lines, hs[j] + 1, if j + 1 < |hs| && hs[j] < hs[j + 1] <= |lines| then hs[j + 1] else |lines|)
  {
    var hs := Headlines(lines, |lines|);
    assert hs[j] in hs;
    assert j + 1 < |hs| ==> hs[j + 1] in hs;
  }

  /** One pass with two variables returns exactly the accepted items, in order, whole. */
  method GetBenchMsg(lines: seq<Option<Line>>) returns (list: seq<Item>)
    ensures var items := Items(lines, |lines|); list == Accepted(items, |items|)
  {
    list := [];
    var last, item: Option<Item> := None, None;
    for i := 0 to |lines|
      invariant Keeps(Items(lines, i), last, item, list)
    {
      if lines[i].Some? {
        var c := lines[i].value;
        if c.testNum == "" && item.Some? {
          LineKeeps(lines, i, last, item, list);
          item := Some(item.value.(message := item.value.message + [c.header]));
        } else {
          NextHeadlineKeeps(lines, i, last, item, list);
          if item.Some? {
            if last.Some? && Accepts(last.value, item) {
              list := list + [last.value];
            }
            last := item;
          }
          item := Some(ItemOf(c));
        }
      } else {
        IgnoredLine(lines, i);
      }
    }
    AllJudged(Items(lines, |lines|), last, item, list);
    if item.Some? {
      if last.Some? && Accepts(last.value, item) {
        list := list + [last.value];
      }
      if Accepts(item.value, None) {
        list := list + [item.value];
      }
    }
  }
}
