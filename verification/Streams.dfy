/**
 The registry of unique market-data streams, with the stream
 specifications it caches per exchange (exchange/src/adapter.rs).
 */
module Streams {
  import opened Basics
  import opened Exchanges
  import opened Tickers
  import opened Timeframes
  import opened Orders

  datatype StreamTicksize = ServerSide(multiplier: nat) | Client

  datatype PushFrequency = ServerDefault | Custom(timeframe: Timeframe)

  datatype StreamKind =
    | Kline(tickerInfo: TickerInfo, timeframe: Timeframe)
    | Depth(tickerInfo: TickerInfo, depthAggr: StreamTicksize, pushFreq: PushFrequency)
    | Trades(tickerInfo: TickerInfo)

  type DepthSpec = (TickerInfo, StreamTicksize, PushFrequency)

  type KlineSpec = (TickerInfo, Timeframe)

  datatype StreamSpecs = StreamSpecs(depth: seq<DepthSpec>, trade: seq<TickerInfo>, kline: seq<KlineSpec>)

  function ExchangeOf(stream: StreamKind): Exchange { stream.tickerInfo.ticker.exchange }

  function AsDepth(stream: StreamKind): Option<DepthSpec> {
    match stream
    case Depth(info, aggr, freq) => Some((info, aggr, freq))
    case _ => None
  }

  function AsTrade(stream: StreamKind): Option<TickerInfo> {
    match stream
    case Trades(info) => Some(info)
    case _ => None
  }

  function AsKline(stream: StreamKind): Option<KlineSpec> {
    match stream
    case Kline(info, timeframe) => Some((info, timeframe))
    case _ => None
  }

  // ---------------------------------------------------------------------
  // The derived order of specifications
  // ---------------------------------------------------------------------

  function Codes(s: string): seq<int> { if s == "" then [] else [s[0] as int] + Codes(s[1..]) }

  function ExchangeRank(exchange: Exchange): (n: nat)
    ensures n < |AllExchanges()| && AllExchanges()[n] == exchange
  {
    match exchange
    case BinanceLinear => 0
    case BinanceInverse => 1
    case BinanceSpot => 2
    case BybitLinear => 3
    case BybitInverse => 4
    case BybitSpot => 5
    case HyperliquidLinear => 6
    case HyperliquidSpot => 7
    case OkexLinear => 8
    case OkexInverse => 9
    case OkexSpot => 10
    case MexcLinear => 11
    case MexcInverse => 12
    case MexcSpot => 13
  }

  function InfoKey(info: TickerInfo): Key {
    var (t, d) := (info.ticker, info.details);
    [Codes(t.bytes), [ExchangeRank(t.exchange)], Codes(t.displayBytes), [if t.hasDisplay then 1 else 0],
     [d.minTicksize], [d.minQty], if d.contractSize.Some? then [1, d.contractSize.value] else [0]]
  }

  function DepthKey(spec: DepthSpec): Key {
    InfoKey(spec.0) + [if spec.1.ServerSide? then [0, spec.1.multiplier] else [1],
                       if spec.2.Custom? then [1, Rank(spec.2.timeframe)] else [0]]
  }

  function KlineKey(spec: KlineSpec): Key { InfoKey(spec.0) + [[Rank(spec.1)]] }

  lemma {:induction false} CodesTellApart(a: string, b: string)
    requires Codes(a) == Codes(b)
    ensures a == b
    decreases |a|
  {
    if a != "" && b != "" {
      assert Codes(a)[0] == a[0] as int && Codes(b)[0] == b[0] as int;
      assert Codes(a)[1..] == Codes(a[1..]) && Codes(b)[1..] == Codes(b[1..]);
      CodesTellApart(a[1..], b[1..]);
      assert a == [a[0]] + a[1..] && b == [b[0]] + b[1..];
    }
  }

  lemma InfoKeysTellApart(x: TickerInfo, y: TickerInfo)
    requires InfoKey(x) == InfoKey(y)
    ensures x == y
  {
    hide ExchangeRank, Codes, AllExchanges;
    var (a, b) := (InfoKey(x), InfoKey(y));
    assert a[0] == b[0] && a[1] == b[1] && a[2] == b[2] && a[3] == b[3] && a[4] == b[4] && a[5] == b[5] && a[6] == b[6];
    CodesTellApart(x.ticker.bytes, y.ticker.bytes);
    CodesTellApart(x.ticker.displayBytes, y.ticker.displayBytes);
    assert a[1][0] == b[1][0];
    assert a[3][0] == b[3][0] && a[4][0] == b[4][0] && a[5][0] == b[5][0] && a[6][0] == b[6][0];
    assert x.details.contractSize.Some? ==> a[6][1] == b[6][1];
  }

  lemma KeyWithInfo(x: TickerInfo, y: TickerInfo, a: Key, b: Key)
    requires InfoKey(x) + a == InfoKey(y) + b
    ensures x == y && a == b
  {
    hide ExchangeRank, Codes;
    assert |InfoKey(x)| == |InfoKey(y)| == 7;
    assert InfoKey(x) == (InfoKey(x) + a)[..7] && InfoKey(y) == (InfoKey(y) + b)[..7];
    assert a == (InfoKey(x) + a)[7..] && b == (InfoKey(y) + b)[7..];
    InfoKeysTellApart(x, y);
  }

  // Specifications with equal keys are equal, so a sort of them has one outcome.
  lemma SpecKeysTellApart()
    ensures IsInjective(InfoKey) && IsInjective(DepthKey) && IsInjective(KlineKey)
  {
    hide InfoKey;
    forall x, y | InfoKey(x) == InfoKey(y) ensures x == y {
      InfoKeysTellApart(x, y);
    }
    forall x, y | DepthKey(x) == DepthKey(y) ensures x == y {
      DepthKeysTellApart(x, y);
    }
    forall x, y | KlineKey(x) == KlineKey(y) ensures x == y {
      KlineKeysTellApart(x, y);
    }
  }

  lemma DepthKeysTellApart(x: DepthSpec, y: DepthSpec)
    requires DepthKey(x) == DepthKey(y)
    ensures x == y
  {
    hide InfoKey, Rank, Milliseconds;
    var a: Key := [if x.1.ServerSide? then [0, x.1.multiplier] else [1], if x.2.Custom? then [1, Rank(x.2.timeframe)] else [0]];
    var b: Key := [if y.1.ServerSide? then [0, y.1.multiplier] else [1], if y.2.Custom? then [1, Rank(y.2.timeframe)] else [0]];
    KeyWithInfo(x.0, y.0, a, b);
    assert a[0] == b[0] && a[1] == b[1];
    assert a[0][0] == b[0][0] && a[1][0] == b[1][0];
    if x.1.ServerSide? {
      assert a[0][1] == b[0][1];
    }
    if x.2.Custom? {
      assert a[1][1] == b[1][1];
      RankOrdersLengths(x.2.timeframe, y.2.timeframe);
    }
  }

  lemma KlineKeysTellApart(x: KlineSpec, y: KlineSpec)
    requires KlineKey(x) == KlineKey(y)
    ensures x == y
  {
    hide InfoKey, Rank, Milliseconds;
    var a: Key := [[Rank(x.1)]];
    var b: Key := [[Rank(y.1)]];
    KeyWithInfo(x.0, y.0, a, b);
    assert a[0][0] == b[0][0];
    RankOrdersLengths(x.1, y.1);
  }

  // ---------------------------------------------------------------------
  // What the registry holds, as functions of the set of its streams
  // ---------------------------------------------------------------------

  type Registry = map<Exchange, map<TickerInfo, set<StreamKind>>>

  ghost function ExchangesOf(items: set<StreamKind>): set<Exchange> { set s | s in items :: ExchangeOf(s) }

  ghost function OfTicker(items: set<StreamKind>, info: TickerInfo): set<StreamKind> {
    set s | s in items && s.tickerInfo == info
  }

  ghost function TickersAt(items: set<StreamKind>, exchange: Exchange): set<TickerInfo> {
    set s | s in items && ExchangeOf(s) == exchange :: s.tickerInfo
  }

  ghost function TickerMap(items: set<StreamKind>, exchange: Exchange): map<TickerInfo, set<StreamKind>> {
    map info | info in TickersAt(items, exchange) :: OfTicker(items, info)
  }

  ghost function Organised(items: set<StreamKind>): Registry {
    map exchange | exchange in ExchangesOf(items) :: TickerMap(items, exchange)
  }

  // The streams that a view is taken of.
  ghost function Filtered(items: set<StreamKind>, filter: Option<Exchange>): set<StreamKind> {
    set s | s in items && (filter.None? || ExchangeOf(s) == filter.value)
  }

  ghost function Extracted<T(!new)>(items: set<StreamKind>, extract: StreamKind -> Option<T>): set<T> {
    set s | s in items && extract(s).Some? :: extract(s).value
  }

  ghost function SpecsAt(items: set<StreamKind>, exchange: Exchange): StreamSpecs {
    var here := Filtered(items, Some(exchange));
    StreamSpecs(Listing(Extracted(here, AsDepth), DepthKey),
                Listing(Extracted(here, AsTrade), InfoKey),
                Listing(Extracted(here, AsKline), KlineKey))
  }

  ghost function SpecsOf(items: set<StreamKind>): map<Exchange, StreamSpecs> {
    map exchange | exchange in ExchangesOf(items) :: SpecsAt(items, exchange)
  }

  ghost predicate TellsApart<T(!new)>(extract: StreamKind -> Option<T>) {
    forall s, t :: extract(s).Some? && extract(s) == extract(t) ==> s == t
  }

  lemma ExtractorsTellApart()
    ensures TellsApart(AsDepth) && TellsApart(AsTrade) && TellsApart(AsKline)
  {
  }

  // The cached specifications of an exchange are there exactly when it has a
  // stream. Each is sorted, without repeats, and has exactly the streams of
  // its kind on the exchange.
  lemma SpecsAreSortedExtractions(items: set<StreamKind>, exchange: Exchange)
    ensures exchange in SpecsOf(items) <==> exists s :: s in items && ExchangeOf(s) == exchange
    ensures var specs := SpecsAt(items, exchange);
            && (exchange in SpecsOf(items) ==> SpecsOf(items)[exchange] == specs)
            && IsSorted(specs.depth, DepthKey) && NoRepeats(specs.depth)
            && IsSorted(specs.trade, InfoKey) && NoRepeats(specs.trade)
            && IsSorted(specs.kline, KlineKey) && NoRepeats(specs.kline)
            && (forall x :: x in specs.depth <==> (Depth(x.0, x.1, x.2) in items && x.0.ticker.exchange == exchange))
            && (forall x :: x in specs.trade <==> (Trades(x) in items && x.ticker.exchange == exchange))
            && (forall x :: x in specs.kline <==> (Kline(x.0, x.1) in items && x.0.ticker.exchange == exchange))
  {
    hide IsSorted, NoRepeats, DepthKey, InfoKey, KlineKey, Listing, IsInjective;
    var here := Filtered(items, Some(exchange));
    SpecKeysTellApart();
    ListingFacts(Extracted(here, AsDepth), DepthKey);
    ListingFacts(Extracted(here, AsTrade), InfoKey);
    ListingFacts(Extracted(here, AsKline), KlineKey);
    DepthsExtracted(here);
    TradesExtracted(here);
    KlinesExtracted(here);
  }

  lemma DepthsExtracted(items: set<StreamKind>)
    ensures forall x :: x in Extracted(items, AsDepth) <==> Depth(x.0, x.1, x.2) in items
  {
    forall x: DepthSpec | Depth(x.0, x.1, x.2) in items ensures x in Extracted(items, AsDepth) {
      assert AsDepth(Depth(x.0, x.1, x.2)) == Some(x);
    }
  }

  lemma TradesExtracted(items: set<StreamKind>)
    ensures forall x :: x in Extracted(items, AsTrade) <==> Trades(x) in items
  {
    forall x | Trades(x) in items ensures x in Extracted(items, AsTrade) {
      assert AsTrade(Trades(x)) == Some(x);
    }
  }

  lemma KlinesExtracted(items: set<StreamKind>)
    ensures forall x :: x in Extracted(items, AsKline) <==> Kline(x.0, x.1) in items
  {
    forall x: KlineSpec | Kline(x.0, x.1) in items ensures x in Extracted(items, AsKline) {
      assert AsKline(Kline(x.0, x.1)) == Some(x);
    }
  }

  // ---------------------------------------------------------------------
  // Views
  // ---------------------------------------------------------------------

  // `found` has what is extracted from `seen`, each once.
  ghost predicate Gathered<T(!new)>(found: seq<T>, seen: set<StreamKind>, extract: StreamKind -> Option<T>) {
    NoRepeats(found) && forall x :: x in found <==> x in Extracted(seen, extract)
  }

  lemma GatherOne<T(!new)>(found: seq<T>, seen: set<StreamKind>, extract: StreamKind -> Option<T>, s: StreamKind)
    requires Gathered(found, seen, extract) && TellsApart(extract) && s !in seen
    ensures Gathered(if extract(s).Some? then found + [extract(s).value] else found, seen + {s}, extract)
  {
    var more := Extracted(seen + {s}, extract);
    forall x ensures x in more <==> (x in Extracted(seen, extract) || extract(s) == Some(x)) {
      if x in Extracted(seen, extract) {
        var t :| t in seen && extract(t).Some? && extract(t).value == x;
        assert t in seen + {s};
      }
      if extract(s) == Some(x) {
        assert s in seen + {s};
      }
    }
    if extract(s).Some? {
      assert extract(s).value !in Extracted(seen, extract);
    }
  }

  // Visits a set of streams in some order.
  method GatherSet<T(!new)>(start: seq<T>, items: set<StreamKind>, extract: StreamKind -> Option<T>, ghost seen: set<StreamKind>)
    returns (found: seq<T>)
    requires Gathered(start, seen, extract) && TellsApart(extract) && items !! seen
    ensures Gathered(found, seen + items, extract)
  {
    hide Gathered, TellsApart;
    found := start;
    var pending := items;
    ghost var done: set<StreamKind> := {};
    assert seen + done == seen;
    while pending != {}
      invariant pending + done == items && pending !! done
      invariant Gathered(found, seen + done, extract)
    {
      var s :| s in pending;
      GatherOne(found, seen + done, extract, s);
      if extract(s).Some? {
        found := found + [extract(s).value];
      }
      pending := pending - {s};
      assert seen + done + {s} == seen + (done + {s});
      done := done + {s};
    }
    assert done == items;
  }

  // Visits the tickers of an exchange in some order.
  method GatherExchange<T(!new)>(start: seq<T>, byTicker: map<TickerInfo, set<StreamKind>>, extract: StreamKind -> Option<T>,
                                 ghost items: set<StreamKind>, ghost exchange: Exchange, ghost seen: set<StreamKind>)
    returns (found: seq<T>)
    requires Gathered(start, seen, extract) && TellsApart(extract)
    requires byTicker == TickerMap(items, exchange)
    requires forall s :: s in seen ==> ExchangeOf(s) != exchange
    ensures Gathered(found, seen + Filtered(items, Some(exchange)), extract)
  {
    hide Gathered, TellsApart;
    found := start;
    var pending := byTicker.Keys;
    ghost var done: set<TickerInfo> := {};
    assert seen + OfTickers(items, done, exchange) == seen;
    while pending != {}
      invariant pending + done == byTicker.Keys && pending !! done
      invariant Gathered(found, seen + OfTickers(items, done, exchange), extract)
    {
      var info :| info in pending;
      ghost var before := seen + OfTickers(items, done, exchange);
      TickerIsOnExchange(items, exchange, info);
      found := GatherSet(found, byTicker[info], extract, before);
      pending := pending - {info};
      assert before + byTicker[info] == seen + OfTickers(items, done + {info}, exchange);
      done := done + {info};
    }
    assert done == TickersAt(items, exchange);
    assert OfTickers(items, done, exchange) == Filtered(items, Some(exchange));
  }

  ghost function OfTickers(items: set<StreamKind>, infos: set<TickerInfo>, exchange: Exchange): set<StreamKind> {
    set s | s in items && s.tickerInfo in infos && ExchangeOf(s) == exchange
  }

  lemma TickerIsOnExchange(items: set<StreamKind>, exchange: Exchange, info: TickerInfo)
    requires info in TickersAt(items, exchange)
    ensures forall s :: s in OfTicker(items, info) ==> ExchangeOf(s) == exchange
  {
  }

  ghost function OnFirst(items: set<StreamKind>, exchanges: seq<Exchange>): set<StreamKind> {
    set s | s in items && ExchangeOf(s) in exchanges
  }

  predicate Distinct(exchanges: seq<Exchange>) { forall i: nat, j: nat :: i < j < |exchanges| ==> exchanges[i] != exchanges[j] }

  lemma ExchangesAreDistinct()
    ensures Distinct(AllExchanges())
  {
    var all := AllExchanges();
    forall i: nat, j: nat | i < j < |all| ensures all[i] != all[j] {
      RankOfListed(i);
      RankOfListed(j);
    }
  }

  lemma RankOfListed(i: nat)
    requires i < |AllExchanges()|
    ensures ExchangeRank(AllExchanges()[i]) == i
  {
  }

  class UniqueStreams {
    var streams: Registry
    var specs: map<Exchange, StreamSpecs>
    ghost var contents: set<StreamKind>

    // Both fields are functions of the set of streams, whatever order, and
    // however often, they were added in.
    ghost predicate Valid()
      reads this
    {
      streams == Organised(contents) && specs == SpecsOf(contents)
    }

    constructor ()
      ensures Valid() && contents == {}
    {
      streams, specs, contents := map[], map[], {};
    }

    constructor From(items: seq<StreamKind>)
      ensures Valid() && contents == set s | s in items
    {
      streams, specs, contents := map[], map[], {};
      new;
      AddAll(items);
    }

    method AddAll(items: seq<StreamKind>)
      requires Valid()
      modifies this
      ensures Valid() && contents == old(contents) + set s | s in items
    {
      hide Organised, SpecsOf;
      for i := 0 to |items|
        invariant Valid()
        invariant contents == old(contents) + set s | s in items[..i]
      {
        assert items[..i + 1] == items[..i] + [items[i]];
        Add(items[i]);
      }
      assert items[..|items|] == items;
    }

    method Add(stream: StreamKind)
      requires Valid()
      modifies this
      ensures Valid() && contents == old(contents) + {stream}
    {
      hide Organised, SpecsOf, SpecsAt;
      var exchange, tickerInfo := ExchangeOf(stream), stream.tickerInfo;
      OrganisedFacts(contents, exchange);
      var byTicker := if exchange in streams then streams[exchange] else map[];
      var held := if tickerInfo in byTicker then byTicker[tickerInfo] else {};
      streams := streams[exchange := byTicker[tickerInfo := held + {stream}]];
      OrganisedGrows(contents, stream);
      SpecsGrow(contents, stream);
      contents := contents + {stream};
      UpdateSpecsForExchange(exchange);
    }

    method UpdateSpecsForExchange(exchange: Exchange)
      requires streams == Organised(contents)
      modifies this`specs
      ensures specs == old(specs)[exchange := SpecsAt(contents, exchange)]
    {
      hide Organised, Listing, Extracted, Filtered;
      var depth := DepthStreams(Some(exchange));
      var trade := TradeStreams(Some(exchange));
      var kline := KlineStreams(Some(exchange));
      specs := specs[exchange := StreamSpecs(depth, trade, kline)];
    }

    // The view of a kind of stream, of one exchange or all, is the sorted
    // listing of the set of them.
    method View<T(!new)>(filter: Option<Exchange>, extract: StreamKind -> Option<T>, key: T -> Key) returns (found: seq<T>)
      requires streams == Organised(contents)
      requires TellsApart(extract) && IsInjective(key)
      ensures found == Listing(Extracted(Filtered(contents, filter), extract), key)
    {
      hide Organised, Listing, Filtered, TellsApart, AllExchanges;
      var exchanges := match filter
        case Some(exchange) => [exchange]
        case None => AllExchanges();
      ExchangesAreDistinct();
      found := [];
      for i := 0 to |exchanges|
        invariant Gathered(found, OnFirst(contents, exchanges[..i]), extract)
      {
        ghost var seen := OnFirst(contents, exchanges[..i]);
        OneMoreExchange(contents, exchanges, i);
        OrganisedFacts(contents, exchanges[i]);
        if exchanges[i] in streams {
          found := GatherExchange(found, streams[exchanges[i]], extract, contents, exchanges[i], seen);
        }
      }
      FirstIsFiltered(contents, filter, exchanges);
      ghost var all := found;
      found := Sort(found, key);
      SortedView(all, found, Filtered(contents, filter), extract, key);
    }

    method DepthStreams(filter: Option<Exchange>) returns (found: seq<DepthSpec>)
      requires streams == Organised(contents)
      ensures found == Listing(Extracted(Filtered(contents, filter), AsDepth), DepthKey)
    {
      ExtractorsTellApart();
      SpecKeysTellApart();
      found := View(filter, AsDepth, DepthKey);
    }

    method TradeStreams(filter: Option<Exchange>) returns (found: seq<TickerInfo>)
      requires streams == Organised(contents)
      ensures found == Listing(Extracted(Filtered(contents, filter), AsTrade), InfoKey)
    {
      ExtractorsTellApart();
      SpecKeysTellApart();
      found := View(filter, AsTrade, InfoKey);
    }

    method KlineStreams(filter: Option<Exchange>) returns (found: seq<KlineSpec>)
      requires streams == Organised(contents)
      ensures found == Listing(Extracted(Filtered(contents, filter), AsKline), KlineKey)
    {
      ExtractorsTellApart();
      SpecKeysTellApart();
      found := View(filter, AsKline, KlineKey);
    }
  }

  lemma OrganisedFacts(items: set<StreamKind>, exchange: Exchange)
    ensures exchange in Organised(items) <==> exchange in ExchangesOf(items)
    ensures exchange in Organised(items) ==> Organised(items)[exchange] == TickerMap(items, exchange)
    ensures exchange !in Organised(items) ==> Filtered(items, Some(exchange)) == {}
  {
  }

  lemma TickerMapGrows(items: set<StreamKind>, stream: StreamKind, exchange: Exchange)
    ensures var (byTicker, info) := (TickerMap(items, exchange), stream.tickerInfo);
            && (exchange != ExchangeOf(stream) ==> TickerMap(items + {stream}, exchange) == byTicker)
            && (exchange == ExchangeOf(stream) ==>
                  TickerMap(items + {stream}, exchange)
                  == byTicker[info := (if info in byTicker then byTicker[info] else {}) + {stream}])
  {
    hide ExchangeOf, OfTicker, TickersAt;
    TickersGrow(items, stream, exchange);
    forall info ensures OfTicker(items + {stream}, info)
                     == if info == stream.tickerInfo then OfTicker(items, info) + {stream} else OfTicker(items, info) {
      OfTickerGrows(items, stream, info);
    }
    EmptyTicker(items, exchange, stream);
  }

  lemma TickersGrow(items: set<StreamKind>, stream: StreamKind, exchange: Exchange)
    ensures TickersAt(items + {stream}, exchange)
         == TickersAt(items, exchange) + if exchange == ExchangeOf(stream) then {stream.tickerInfo} else {}
    ensures exchange != ExchangeOf(stream) ==> stream.tickerInfo !in TickersAt(items, exchange)
  {
  }

  lemma OfTickerGrows(items: set<StreamKind>, stream: StreamKind, info: TickerInfo)
    ensures OfTicker(items + {stream}, info)
         == if info == stream.tickerInfo then OfTicker(items, info) + {stream} else OfTicker(items, info)
  {
  }

  lemma EmptyTicker(items: set<StreamKind>, exchange: Exchange, stream: StreamKind)
    ensures exchange == ExchangeOf(stream) && stream.tickerInfo !in TickersAt(items, exchange) ==>
      OfTicker(items, stream.tickerInfo) == {}
  {
  }

  lemma OrganisedGrows(items: set<StreamKind>, stream: StreamKind)
    ensures var (e, info) := (ExchangeOf(stream), stream.tickerInfo);
            var byTicker := if e in Organised(items) then Organised(items)[e] else map[];
            Organised(items + {stream})
            == Organised(items)[e := byTicker[info := (if info in byTicker then byTicker[info] else {}) + {stream}]]
  {
    hide TickerMap;
    var e := ExchangeOf(stream);
    assert ExchangesOf(items + {stream}) == ExchangesOf(items) + {e};
    forall exchange {
      TickerMapGrows(items, stream, exchange);
    }
    NoTickers(items, e);
  }

  lemma NoTickers(items: set<StreamKind>, exchange: Exchange)
    ensures exchange !in ExchangesOf(items) ==> TickerMap(items, exchange) == map[]
  {
    if exchange !in ExchangesOf(items) {
      assert TickersAt(items, exchange) == {};
    }
  }

  lemma SpecsGrow(items: set<StreamKind>, stream: StreamKind)
    ensures SpecsOf(items + {stream})
         == SpecsOf(items)[ExchangeOf(stream) := SpecsAt(items + {stream}, ExchangeOf(stream))]
  {
    hide Listing, Extracted;
    assert ExchangesOf(items + {stream}) == ExchangesOf(items) + {ExchangeOf(stream)};
    forall exchange | exchange != ExchangeOf(stream) ensures SpecsAt(items + {stream}, exchange) == SpecsAt(items, exchange) {
      assert Filtered(items + {stream}, Some(exchange)) == Filtered(items, Some(exchange));
    }
  }

  lemma OneMoreExchange(items: set<StreamKind>, exchanges: seq<Exchange>, i: nat)
    requires i < |exchanges| && Distinct(exchanges)
    ensures OnFirst(items, exchanges[..i + 1]) == OnFirst(items, exchanges[..i]) + Filtered(items, Some(exchanges[i]))
    ensures forall s :: s in OnFirst(items, exchanges[..i]) ==> ExchangeOf(s) != exchanges[i]
  {
    assert exchanges[..i + 1] == exchanges[..i] + [exchanges[i]];
  }

  lemma FirstIsFiltered(items: set<StreamKind>, filter: Option<Exchange>, exchanges: seq<Exchange>)
    requires exchanges == if filter.Some? then [filter.value] else AllExchanges()
    ensures OnFirst(items, exchanges[..|exchanges|]) == Filtered(items, filter)
  {
    hide AllExchanges;
    assert exchanges[..|exchanges|] == exchanges;
    forall s | s in items ensures filter.None? ==> ExchangeOf(s) in exchanges {
      ExchangeIsListed(ExchangeOf(s));
    }
  }

  lemma SortedView<T(!new)>(found: seq<T>, sorted: seq<T>, items: set<StreamKind>, extract: StreamKind -> Option<T>, key: T -> Key)
    requires Gathered(found, items, extract) && IsInjective(key)
    requires IsSorted(sorted, key) && multiset(sorted) == multiset(found)
    ensures sorted == Listing(Extracted(items, extract), key)
  {
    hide IsSorted, Extracted, Listing;
    SameElements(found, sorted);
    ListingIsUnique(sorted, Extracted(items, extract), key);
  }

  lemma SameElements<T>(a: seq<T>, b: seq<T>)
    requires multiset(a) == multiset(b) && NoRepeats(a)
    ensures NoRepeats(b)
    ensures forall x :: x in a <==> x in b
  {
    forall x ensures x in a <==> x in b {
      assert x in multiset(a) <==> x in multiset(b);
    }
    forall i: nat, j: nat | i < j < |b| ensures b[i] != b[j] {
      if b[i] == b[j] {
        RepeatsCount(b, i, j);
        OncePerElement(a, b[i]);
      }
    }
  }

  lemma RepeatsCount<T>(s: seq<T>, i: nat, j: nat)
    requires i < j < |s| && s[i] == s[j]
    ensures multiset(s)[s[i]] >= 2
  {
    assert s == s[..i] + [s[i]] + s[i + 1..j] + [s[j]] + s[j + 1..];
  }

  lemma {:induction false} OncePerElement<T>(s: seq<T>, x: T)
    requires NoRepeats(s)
    ensures multiset(s)[x] <= 1
  {
    if s != [] {
      var (front, last) := (s[..|s| - 1], s[|s| - 1]);
      assert s == front + [last];
      OncePerElement(front, x);
      if last == x {
        assert forall i: nat :: i < |front| ==> front[i] != x;
        assert x !in front;
      }
    }
  }
}
