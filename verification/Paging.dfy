/**
 Pages of bars: where a page ends, and what a page keeps of the bars fetched
 for it (exchange/src/adapter.rs).
 */
module Paging {
  import opened Basics
  import opened Orders
  import opened Timeframes

  datatype Kline<D> = Kline(time: nat, data: D)

  datatype KlinePage<D> = KlinePage(data: seq<Kline<D>>, nextFrom: nat)

  datatype PageError = InvalidRange

  // ---------------------------------------------------------------------
  // The bars of one page
  // ---------------------------------------------------------------------

  function TimeKey<D>(bar: Kline<D>): Key { [[bar.time]] }

  function Retained<D>(data: seq<Kline<D>>, from: nat, nextFrom: nat): seq<Kline<D>> {
    if data == [] then []
    else
      var rest := Retained(data[..|data| - 1], from, nextFrom);
      var bar := data[|data| - 1];
      if from <= bar.time < nextFrom then rest + [bar] else rest
  }

  // Of neighbours at the same time, the first.
  function Deduplicated<D>(data: seq<Kline<D>>): seq<Kline<D>> {
    if |data| <= 1 then data
    else
      var rest := Deduplicated(data[..|data| - 1]);
      if data[|data| - 1].time == data[|data| - 2].time then rest else rest + [data[|data| - 1]]
  }

  predicate StrictlyIncreasing<D>(data: seq<Kline<D>>) {
    forall i: nat, j: nat :: i < j < |data| ==> data[i].time < data[j].time
  }

  ghost predicate HasTime<D>(data: seq<Kline<D>>, time: nat) {
    exists i: nat :: i < |data| && data[i].time == time
  }

  // One of the fetched bars for each of their times in range, in time order.
  ghost predicate IsPage<D(!new)>(page: seq<Kline<D>>, data: seq<Kline<D>>, from: nat, nextFrom: nat) {
    && StrictlyIncreasing(page)
    && (forall time: nat :: HasTime(page, time) <==> (from <= time < nextFrom && HasTime(data, time)))
    && (forall bar :: bar in page ==> bar in data)
  }

  method NewPage<D(!new)>(data: seq<Kline<D>>, from: nat, nextFrom: nat) returns (page: KlinePage<D>)
    ensures page.nextFrom == nextFrom
    ensures IsPage(page.data, data, from, nextFrom)
  {
    var kept := Retained(data, from, nextFrom);
    var sorted := Sort(kept, TimeKey);
    page := KlinePage(Deduplicated(sorted), nextFrom);
    forall bar ensures bar in kept <==> bar in sorted {
      assert bar in multiset(kept) <==> bar in multiset(sorted);
    }
    SortedByTime(sorted);
    RetainedFacts(data, from, nextFrom);
    DeduplicatedFacts(sorted);
    PageFacts(page.data, sorted, kept, data, from, nextFrom);
  }

  lemma SortedByTime<D>(s: seq<Kline<D>>)
    requires IsSorted(s, TimeKey)
    ensures forall i: nat, j: nat :: i <= j < |s| ==> s[i].time <= s[j].time
  {
    forall i: nat, j: nat | i <= j < |s| ensures s[i].time <= s[j].time {
      assert KeyLe(TimeKey(s[i]), TimeKey(s[j]));
      TimesDecide(s[i].time, s[j].time);
    }
  }

  lemma TimesDecide(x: nat, y: nat)
    ensures KeyLe([[x]], [[y]]) <==> x <= y
  {
    OneComponent<int>(IntLe, x, y);
    OneComponent<seq<int>>(PartLe, [x], [y]);
    assert IntLe(x, y) <==> x <= y;
    assert PartLe([x], [y]) <==> x <= y;
  }

  lemma {:induction false} RetainedFacts<D>(data: seq<Kline<D>>, from: nat, nextFrom: nat)
    ensures forall bar :: bar in Retained(data, from, nextFrom) <==> (bar in data && from <= bar.time < nextFrom)
  {
    if data != [] {
      RetainedFacts(data[..|data| - 1], from, nextFrom);
      assert data == data[..|data| - 1] + [data[|data| - 1]];
    }
  }

  // Increasing, with a bar of `s` at each time of `s`.
  ghost predicate Thins<D(!new)>(d: seq<Kline<D>>, s: seq<Kline<D>>) {
    && StrictlyIncreasing(d)
    && (forall bar :: bar in d ==> bar in s)
    && (forall i: nat :: i < |s| ==> HasTime(d, s[i].time))
    && (s != [] ==> d != [] && d[|d| - 1].time == s[|s| - 1].time)
  }

  lemma {:induction false} DeduplicatedFacts<D(!new)>(s: seq<Kline<D>>)
    requires forall i: nat, j: nat :: i <= j < |s| ==> s[i].time <= s[j].time
    ensures Thins(Deduplicated(s), s)
  {
    hide Thins;
    if |s| <= 1 {
      OneBarThins(s);
    } else {
      var (front, bar) := (s[..|s| - 1], s[|s| - 1]);
      assert s == front + [bar];
      DeduplicatedFacts(front);
      ThinsWithNext(Deduplicated(front), front, bar);
    }
  }

  lemma OneBarThins<D(!new)>(s: seq<Kline<D>>)
    requires |s| <= 1
    ensures Thins(s, s)
  {
    assert |s| == 1 ==> HasTime(s, s[0].time);
  }

  lemma ThinsWithNext<D(!new)>(e: seq<Kline<D>>, front: seq<Kline<D>>, bar: Kline<D>)
    requires Thins(e, front) && front != [] && bar.time >= front[|front| - 1].time
    ensures Thins(if bar.time == front[|front| - 1].time then e else e + [bar], front + [bar])
  {
    var last := front[|front| - 1].time;
    var (d, s) := (if bar.time == last then e else e + [bar], front + [bar]);
    forall i: nat | i < |s| ensures HasTime(d, s[i].time) {
      assert HasTime(e, last);
      if i < |front| {
        assert s[i] == front[i];
        var k: nat :| k < |e| && e[k].time == front[i].time;
        assert d[k] == e[k];
      } else {
        assert d[|d| - 1].time == s[i].time;
      }
    }
    assert forall k: nat :: k < |e| ==> e[k].time <= last;
  }

  lemma PageFacts<D(!new)>(page: seq<Kline<D>>, sorted: seq<Kline<D>>, kept: seq<Kline<D>>, data: seq<Kline<D>>, from: nat, nextFrom: nat)
    requires StrictlyIncreasing(page)
    requires forall bar :: bar in page ==> bar in sorted
    requires forall i: nat :: i < |sorted| ==> HasTime(page, sorted[i].time)
    requires forall bar :: bar in kept <==> bar in sorted
    requires forall bar :: bar in kept <==> (bar in data && from <= bar.time < nextFrom)
    ensures IsPage(page, data, from, nextFrom)
  {
    forall time: nat ensures HasTime(page, time) <==> (from <= time < nextFrom && HasTime(data, time)) {
      if HasTime(page, time) {
        var i: nat :| i < |page| && page[i].time == time;
        assert page[i] in data;
        var k: nat :| k < |data| && data[k] == page[i];
      }
      if from <= time < nextFrom && HasTime(data, time) {
        var k: nat :| k < |data| && data[k].time == time;
        assert data[k] in sorted;
        var i: nat :| i < |sorted| && sorted[i] == data[k];
        assert HasTime(page, sorted[i].time);
      }
    }
  }

  // ---------------------------------------------------------------------
  // Where pages end
  // ---------------------------------------------------------------------

  // All arguments are `u64`, and so are the sum and the product.
  function PageEnd(from: nat, to: nat, timeframe: Timeframe, maxBars: nat): Result<nat, PageError> {
    if from >= to || maxBars == 0 then Err(InvalidRange)
    else Ok(Min(Cap(from + Cap(Max(Milliseconds(timeframe), 1) * maxBars)), to))
  }

  // Saturation never shows: a page ends where exact arithmetic would end it.
  lemma PageEndIsExact(from: nat, to: nat, timeframe: Timeframe, maxBars: nat)
    requires to <= U64_MAX
    ensures PageEnd(from, to, timeframe, maxBars).Ok? <==> (from < to && maxBars > 0)
    ensures PageEnd(from, to, timeframe, maxBars).Ok? ==>
      && from < PageEnd(from, to, timeframe, maxBars).value <= to
      && PageEnd(from, to, timeframe, maxBars).value == Min(from + Milliseconds(timeframe) * maxBars, to)
  {
    hide Milliseconds;
    assert maxBars > 0 ==> Milliseconds(timeframe) * maxBars > 0;
  }

  datatype Range = Range(from: nat, to: nat)

  // The pages that taking a page end again and again goes through.
  function Pages(from: nat, to: nat, timeframe: Timeframe, maxBars: nat): seq<Range>
    requires to <= U64_MAX
    decreases SatSub(to, from)
  {
    match PageEnd(from, to, timeframe, maxBars)
    case Err(_) => []
    case Ok(end) =>
      PageEndIsExact(from, to, timeframe, maxBars);
      [Range(from, end)] + Pages(end, to, timeframe, maxBars)
  }

  // The ranges follow on from each other, without gaps or empty ones, from `from` to `to`.
  ghost predicate Partition(pages: seq<Range>, from: nat, to: nat) {
    && pages != [] && pages[0].from == from && pages[|pages| - 1].to == to
    && (forall i: nat :: i < |pages| ==> pages[i].from < pages[i].to)
    && (forall i: nat, j: nat :: i < |pages| && j == i + 1 < |pages| ==> pages[i].to == pages[j].from)
  }

  // Every range is of this length, but for the last one, which may be shorter.
  ghost predicate FullPages(pages: seq<Range>, length: nat) {
    && (forall i: nat :: i < |pages| ==> pages[i].to - pages[i].from <= length)
    && (forall i: nat :: i < |pages| - 1 ==> pages[i].to - pages[i].from == length)
  }

  lemma FirstPage(first: Range, rest: seq<Range>, to: nat, length: nat)
    requires Partition(rest, first.to, to) && FullPages(rest, length)
    requires first.from < first.to && first.to - first.from == length
    ensures Partition([first] + rest, first.from, to) && FullPages([first] + rest, length)
  {
    var pages := [first] + rest;
    assert pages[|pages| - 1] == rest[|rest| - 1];
    forall i: nat | i < |pages| ensures pages[i] == if i == 0 then first else rest[i - 1] {
    }
  }

  lemma OnlyPage(page: Range, length: nat)
    requires page.from < page.to && page.to - page.from <= length
    ensures Partition([page], page.from, page.to) && FullPages([page], length)
  {
  }

  lemma {:induction false} PagesPartition(from: nat, to: nat, timeframe: Timeframe, maxBars: nat)
    requires from < to <= U64_MAX && maxBars > 0
    ensures Partition(Pages(from, to, timeframe, maxBars), from, to)
    ensures FullPages(Pages(from, to, timeframe, maxBars), Milliseconds(timeframe) * maxBars)
    decreases SatSub(to, from)
  {
    hide Milliseconds, PageEnd, Partition, FullPages;
    PageEndIsExact(from, to, timeframe, maxBars);
    var end := PageEnd(from, to, timeframe, maxBars).value;
    var length := Milliseconds(timeframe) * maxBars;
    NextPages(from, to, timeframe, maxBars, end);
    if end < to {
      PagesPartition(end, to, timeframe, maxBars);
      FirstPage(Range(from, end), Pages(end, to, timeframe, maxBars), to, length);
    } else {
      OnlyPage(Range(from, to), length);
      assert [Range(from, end)] + [] == [Range(from, to)];
    }
  }

  lemma NextPages(from: nat, to: nat, timeframe: Timeframe, maxBars: nat, end: nat)
    requires to <= U64_MAX && PageEnd(from, to, timeframe, maxBars) == Ok(end)
    ensures Pages(from, to, timeframe, maxBars)
         == [Range(from, end)] + if end < to then Pages(end, to, timeframe, maxBars) else []
  {
    hide Milliseconds, PageEnd;
    PageEndIsExact(from, to, timeframe, maxBars);
    if end >= to {
      PageEndIsExact(end, to, timeframe, maxBars);
    }
  }

  // Times of bars in a range: one phase of the timeframe, increasing.
  ghost predicate AlignedTimes(times: seq<nat>, range: Range, step: nat)
    requires step > 0
  {
    && (forall i: nat :: i < |times| ==> range.from <= times[i] < range.to && times[i] % step == times[0] % step)
    && (forall i: nat, j: nat :: i < j < |times| ==> times[i] < times[j])
  }

  lemma {:induction false} AlignedTimesAreApart(times: seq<nat>, range: Range, step: nat, n: nat)
    requires step > 0 && AlignedTimes(times, range, step) && n < |times|
    ensures times[n] >= times[0] + n * step
  {
    if n > 0 {
      AlignedTimesAreApart(times, range, step, n - 1);
      NextAligned(times[n - 1], times[n], step);
      assert n * step == (n - 1) * step + step;
    }
  }

  lemma NextAligned(x: nat, y: nat, step: nat)
    requires step > 0 && x < y && x % step == y % step
    ensures y >= x + step
  {
    MultiplesAreApart(x / step, y / step, step);
  }

  lemma MultiplesAreApart(p: nat, q: nat, step: nat)
    requires p * step < q * step
    ensures q * step >= p * step + step
  {
    if q <= p {
      MultiplesGrow(q, p, step);
    }
    MultiplesGrow(p + 1, Max(p + 1, q), step);
    assert (p + 1) * step == p * step + step;
  }

  lemma MultiplesGrow(p: nat, q: nat, step: nat)
    requires p <= q
    ensures p * step <= q * step
  {
    var k := q - p;
    assert q * step == (p + k) * step == p * step + k * step;
  }

  // A page has room for at most `maxBars` bars.
  lemma {:induction false} PageHoldsMaxBars(from: nat, to: nat, timeframe: Timeframe, maxBars: nat, i: nat, times: seq<nat>)
    requires from < to <= U64_MAX && maxBars > 0
    requires i < |Pages(from, to, timeframe, maxBars)|
    requires AlignedTimes(times, Pages(from, to, timeframe, maxBars)[i], Milliseconds(timeframe))
    ensures |times| <= maxBars
  {
    hide Milliseconds, Pages, Partition;
    PagesPartition(from, to, timeframe, maxBars);
    var page := Pages(from, to, timeframe, maxBars)[i];
    var step := Milliseconds(timeframe);
    if |times| > maxBars {
      AlignedTimesAreApart(times, page, step, maxBars);
    }
  }

  // ---------------------------------------------------------------------
  // All pages together
  // ---------------------------------------------------------------------

  function Joined<D>(pages: seq<seq<Kline<D>>>): seq<Kline<D>> {
    if pages == [] then [] else Joined(pages[..|pages| - 1]) + pages[|pages| - 1]
  }

  ghost predicate ArePages<D(!new)>(pages: seq<seq<Kline<D>>>, fetched: seq<seq<Kline<D>>>, ranges: seq<Range>) {
    && |pages| == |fetched| == |ranges|
    && forall i: nat :: i < |pages| ==> IsPage(pages[i], fetched[i], ranges[i].from, ranges[i].to)
  }

  // A bar at this time was fetched for the page that it falls into.
  ghost predicate WasFetched<D(!new)>(fetched: seq<seq<Kline<D>>>, ranges: seq<Range>, time: nat)
    requires |fetched| == |ranges|
  {
    exists i: nat :: i < |ranges| && ranges[i].from <= time < ranges[i].to && HasTime(fetched[i], time)
  }

  lemma FetchedWithLast<D(!new)>(fetched: seq<seq<Kline<D>>>, ranges: seq<Range>, n: nat, time: nat)
    requires |fetched| == |ranges| == n + 1
    ensures WasFetched(fetched, ranges, time)
       <==> (|| WasFetched(fetched[..n], ranges[..n], time)
             || (ranges[n].from <= time < ranges[n].to && HasTime(fetched[n], time)))
  {
    hide HasTime;
    if i: nat :| i < n && ranges[..n][i].from <= time < ranges[..n][i].to && HasTime(fetched[..n][i], time) {
      assert ranges[i].from <= time < ranges[i].to && HasTime(fetched[i], time);
    }
    if i: nat :| i < |ranges| && ranges[i].from <= time < ranges[i].to && HasTime(fetched[i], time) {
      assert i < n ==> ranges[..n][i].from <= time < ranges[..n][i].to && HasTime(fetched[..n][i], time);
    }
  }

  lemma PartitionWithoutLast(ranges: seq<Range>, from: nat, to: nat, n: nat)
    requires Partition(ranges, from, to) && 0 < n == |ranges| - 1
    ensures Partition(ranges[..n], from, ranges[n].from)
    ensures ranges[n].from < ranges[n].to == to
  {
    assert ranges[n - 1].to == ranges[n].from;
  }

  // Whatever each fetch returned, the pages of a partition put together are
  // strictly increasing, and have a bar at exactly the times that were fetched
  // for the page they fall into.
  lemma {:induction false} JoinedPages<D(!new)>(pages: seq<seq<Kline<D>>>, fetched: seq<seq<Kline<D>>>, ranges: seq<Range>, from: nat, to: nat)
    requires ArePages(pages, fetched, ranges) && Partition(ranges, from, to)
    ensures StrictlyIncreasing(Joined(pages))
    ensures forall time: nat :: HasTime(Joined(pages), time) <==> WasFetched(fetched, ranges, time)
    ensures from < to && forall time: nat :: HasTime(Joined(pages), time) ==> from <= time < to
    decreases |pages|
  {
    hide HasTime, WasFetched, StrictlyIncreasing;
    var n := |pages| - 1;
    assert IsPage(pages[n], fetched[n], ranges[n].from, ranges[n].to);
    assert Joined(pages) == Joined(pages[..n]) + pages[n];
    if n == 0 {
      assert pages[..0] == [];
      assert Joined(pages) == pages[0];
      forall time: nat ensures HasTime(Joined(pages), time) <==> WasFetched(fetched, ranges, time) {
        FetchedWithLast(fetched, ranges, 0, time);
        NothingFetched(fetched[..0], ranges[..0], time);
      }
    } else {
      PartitionWithoutLast(ranges, from, to, n);
      JoinedPages(pages[..n], fetched[..n], ranges[..n], from, ranges[n].from);
      JoinTwo(Joined(pages[..n]), pages[n], ranges[n].from);
      forall time: nat ensures HasTime(Joined(pages), time) <==> WasFetched(fetched, ranges, time)
                       ensures HasTime(Joined(pages), time) ==> from <= time < to {
        TimesOfJoin(Joined(pages[..n]), pages[n], time);
        FetchedWithLast(fetched, ranges, n, time);
      }
    }
  }

  lemma NothingFetched<D(!new)>(fetched: seq<seq<Kline<D>>>, ranges: seq<Range>, time: nat)
    requires |fetched| == |ranges| == 0
    ensures !WasFetched(fetched, ranges, time)
  {
  }

  lemma JoinTwo<D>(a: seq<Kline<D>>, b: seq<Kline<D>>, boundary: nat)
    requires StrictlyIncreasing(a) && StrictlyIncreasing(b)
    requires forall time: nat :: HasTime(a, time) ==> time < boundary
    requires forall time: nat :: HasTime(b, time) ==> boundary <= time
    ensures StrictlyIncreasing(a + b)
  {
    assert forall i: nat :: i < |a| ==> HasTime(a, a[i].time);
    assert forall i: nat :: i < |b| ==> HasTime(b, b[i].time);
  }

  lemma TimesOfJoin<D>(a: seq<Kline<D>>, b: seq<Kline<D>>, time: nat)
    ensures HasTime(a + b, time) <==> HasTime(a, time) || HasTime(b, time)
  {
    if i: nat :| i < |a| && a[i].time == time {
      assert (a + b)[i].time == time;
    }
    if i: nat :| i < |b| && b[i].time == time {
      assert (a + b)[|a| + i].time == time;
    }
  }
}
