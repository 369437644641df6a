/**
 Retargeting a copied dashboard to another market (src/layout.rs).
 */
module Retarget {
  import opened Basics
  import opened Exchanges
  import opened Tickers
  import opened Timeframes
  import Streams
  import opened PaneSetups

  datatype Axis = Horizontal | Vertical

  datatype Underlying = Btc | Eth | Sol | Gld | Ndx

  datatype PersistDepth = PersistDepth(ticker: Ticker, depthAggr: Streams.StreamTicksize, pushFreq: Streams.PushFrequency)

  datatype PersistStream =
    | Kline(klineTicker: Ticker, timeframe: Timeframe)
    | Depth(depth: PersistDepth)
    | Trades(tradesTicker: Ticker)
    | DepthAndTrades(depth: PersistDepth)

  datatype Geometry =
    | Freehand | HorizontalLine | VerticalLine | Rectangle | Fibonacci | TrendLine | Label | FixedRangeVolumeProfile

  // `kept` is everything that retargeting never looks at.
  datatype Drawing<K> = Drawing(geometry: Geometry, kept: K)

  datatype VisualConfig<K> = ComparisonConfig(colors: seq<(SerTicker, nat)>, names: seq<(SerTicker, string)>) | OtherConfig(kept: K)

  datatype Settings<K> = Settings(tickMultiply: Option<nat>, visualConfig: Option<VisualConfig<K>>, selectedBasis: Option<Basis>)

  // Only kline charts, of candles or footprints, have drawings.
  datatype Pane<K> =
    | Split(axis: Axis, ratio: real, a: Pane<K>, b: Pane<K>)
    | Starter(kept: K)
    | NewsTracker(kept: K)
    | GexChart(underlying: Underlying, liquidityReference: Option<TickerInfo>, kept: K)
    | Chart(kind: ChartKind, drawings: seq<Drawing<K>>, streams: seq<PersistStream>, settings: Settings<K>, kept: K)

  // The market, the BTC reference, and which options each ticker resolves to.
  datatype Target = Target(market: TickerInfo, btcReference: Option<TickerInfo>, resolve: Ticker -> Option<Underlying>)

  function StreamTicker(stream: PersistStream): Ticker {
    match stream
    case Kline(ticker, _) => ticker
    case Trades(ticker) => ticker
    case Depth(depth) => depth.ticker
    case DepthAndTrades(depth) => depth.ticker
  }

  predicate IsKlineChart(kind: ChartKind) { kind.Candlestick? || kind.Footprint? }

  // Drawings that are tied to times alone.
  predicate TimeAnchored<K>(drawing: Drawing<K>) {
    drawing.geometry.VerticalLine? || drawing.geometry.FixedRangeVolumeProfile?
  }

  function OnlyTimeAnchored<K>(drawings: seq<Drawing<K>>): seq<Drawing<K>> {
    if drawings == [] then []
    else
      OnlyTimeAnchored(drawings[..|drawings| - 1])
      + if TimeAnchored(drawings[|drawings| - 1]) then [drawings[|drawings| - 1]] else []
  }

  predicate AllOn(streams: seq<PersistStream>, ticker: Ticker) {
    forall i: nat :: i < |streams| ==> StreamTicker(streams[i]) == ticker
  }

  function PreviousExchange(streams: seq<PersistStream>): Option<Exchange> {
    if streams == [] then None else Some(StreamTicker(streams[0]).exchange)
  }

  // The setup for the new market. Depth that is no longer aggregated by the
  // client starts from a multiplier of ten.
  function SetupFor<K>(kind: ChartKind, streams: seq<PersistStream>, settings: Settings<K>, market: TickerInfo): Setup {
    var previous := PreviousExchange(streams);
    var multiplier :=
      if previous.Some? && IsDepthClientAggr(previous.value) && !IsDepthClientAggr(market.ticker.exchange)
         && (kind.Heatmap? || kind.ShaderHeatmap? || kind.Ladder?)
      then Some(10) else settings.tickMultiply;
    NewSetup(kind, market, settings.selectedBasis, multiplier)
  }

  function RewrittenTimeframe(timeframe: Timeframe, market: TickerInfo, basis: Option<Basis>): Timeframe {
    var exchange := market.ticker.exchange;
    if SupportsKline(exchange, timeframe) then timeframe
    else
      var chosen := if basis.Some? then basis.value else DefaultKline(exchange, timeframe);
      if chosen.Time? then chosen.timeframe else timeframe
  }

  function RewrittenDepth(depth: PersistDepth, market: TickerInfo, setup: Setup): PersistDepth {
    if depth.ticker.exchange != market.ticker.exchange then PersistDepth(market.ticker, setup.depthAggr, setup.pushFreq)
    else depth.(ticker := market.ticker)
  }

  function Rewritten(stream: PersistStream, market: TickerInfo, setup: Setup): PersistStream {
    match stream
    case Kline(_, timeframe) => Kline(market.ticker, RewrittenTimeframe(timeframe, market, setup.basis))
    case Trades(_) => Trades(market.ticker)
    case Depth(depth) => Depth(RewrittenDepth(depth, market, setup))
    case DepthAndTrades(depth) => DepthAndTrades(RewrittenDepth(depth, market, setup))
  }

  // The streams rewritten, each result where it first comes up.
  function RewrittenAll(streams: seq<PersistStream>, market: TickerInfo, setup: Setup): seq<PersistStream> {
    if streams == [] then []
    else
      var before := RewrittenAll(streams[..|streams| - 1], market, setup);
      var stream := Rewritten(streams[|streams| - 1], market, setup);
      if stream in before then before else before + [stream]
  }

  function RetargetedVisual<K>(config: Option<VisualConfig<K>>, market: TickerInfo): Option<VisualConfig<K>> {
    match config
    case Some(ComparisonConfig(colors, _)) =>
      Some(ComparisonConfig(if colors == [] then [] else [(SerTicker(market.ticker.exchange, market.ticker), colors[0].1)], []))
    case _ => config
  }

  function RetargetedSettings<K>(kind: ChartKind, streams: seq<PersistStream>, settings: Settings<K>, market: TickerInfo): Settings<K> {
    var setup := SetupFor(kind, streams, settings, market);
    var previous := PreviousExchange(streams);
    var visual := if kind.Comparison? then RetargetedVisual(settings.visualConfig, market) else settings.visualConfig;
    if previous.Some? && previous.value != market.ticker.exchange
    then Settings(setup.tickMultiplier, visual, setup.basis)
    else settings.(visualConfig := visual)
  }

  function RetargetedDrawings<K>(kind: ChartKind, drawings: seq<Drawing<K>>, streams: seq<PersistStream>, market: TickerInfo): seq<Drawing<K>> {
    if IsKlineChart(kind) && !AllOn(streams, market.ticker) then OnlyTimeAnchored(drawings) else drawings
  }

  // The BTC fallback keeps a reference that is itself a BTC market.
  function FallbackReference(reference: Option<TickerInfo>, target: Target): Option<TickerInfo> {
    if reference.Some? && target.resolve(reference.value.ticker) == Some(Btc) then reference else target.btcReference
  }

  function Retargeted<K>(pane: Pane<K>, target: Target): Pane<K> {
    match pane
    case Split(axis, ratio, a, b) => Split(axis, ratio, Retargeted(a, target), Retargeted(b, target))
    case GexChart(_, reference, kept) =>
      (match target.resolve(target.market.ticker)
       case Some(underlying) => GexChart(underlying, Some(target.market), kept)
       case None => GexChart(Btc, FallbackReference(reference, target), kept))
    case Chart(kind, drawings, streams, settings, kept) =>
      Chart(kind, RetargetedDrawings(kind, drawings, streams, target.market),
            RewrittenAll(streams, target.market, SetupFor(kind, streams, settings, target.market)),
            RetargetedSettings(kind, streams, settings, target.market), kept)
    case _ => pane
  }

  predicate HasGex<K>(pane: Pane<K>) {
    match pane
    case Split(_, _, a, b) => HasGex(a) || HasGex(b)
    case GexChart(_, _, _) => true
    case _ => false
  }

  predicate UsesFallback<K>(pane: Pane<K>, target: Target) {
    HasGex(pane) && target.resolve(target.market.ticker) == None
  }

  method RetargetStreams(streams: seq<PersistStream>, market: TickerInfo, setup: Setup) returns (retargeted: seq<PersistStream>)
    ensures retargeted == RewrittenAll(streams, market, setup)
  {
    hide RewrittenTimeframe, RewrittenDepth, SupportsKline, DefaultKline;
    retargeted := [];
    for i := 0 to |streams|
      invariant retargeted == RewrittenAll(streams[..i], market, setup)
    {
      assert streams[..i + 1][..i] == streams[..i];
      var stream := streams[i];
      match stream {
        case Kline(_, timeframe) =>
          stream := Kline(market.ticker, RewrittenTimeframe(timeframe, market, setup.basis));
        case Trades(_) =>
          stream := Trades(market.ticker);
        case Depth(depth) =>
          stream := Depth(RewrittenDepth(depth, market, setup));
        case DepthAndTrades(depth) =>
          stream := DepthAndTrades(RewrittenDepth(depth, market, setup));
      }
      if stream !in retargeted {
        retargeted := retargeted + [stream];
      }
    }
    assert streams[..|streams|] == streams;
  }

  // Panes are handed over and back, as the caller owns them.
  method RetargetPane<K>(pane: Pane<K>, target: Target) returns (r: Pane<K>, usedFallback: bool)
    ensures r == Retargeted(pane, target)
    ensures usedFallback == UsesFallback(pane, target)
  {
    hide RewrittenAll, NewSetup, OnlyTimeAnchored, AllOn, IsDepthClientAggr;
    var market := target.market;
    match pane {
      case Split(axis, ratio, a, b) =>
        var first, aFallback := RetargetPane(a, target);
        var second, bFallback := RetargetPane(b, target);
        r, usedFallback := Split(axis, ratio, first, second), aFallback || bFallback;
      case Starter(_) =>
        r, usedFallback := pane, false;
      case NewsTracker(_) =>
        r, usedFallback := pane, false;
      case GexChart(_, reference, kept) =>
        var source := target.resolve(market.ticker);
        if source.Some? {
          r, usedFallback := GexChart(source.value, Some(market), kept), false;
        } else {
          r, usedFallback := GexChart(Btc, FallbackReference(reference, target), kept), true;
        }
      case Chart(kind, drawings, streams, settings, kept) =>
        var kept2, settings2 := drawings, settings;
        if IsKlineChart(kind) && !AllOn(streams, market.ticker) {
          kept2 := OnlyTimeAnchored(drawings);
        }
        if kind.Comparison? {
          settings2 := settings2.(visualConfig := RetargetedVisual(settings.visualConfig, market));
        }
        var previous := PreviousExchange(streams);
        var setup := SetupFor(kind, streams, settings, market);
        if previous.Some? && previous.value != market.ticker.exchange {
          settings2 := settings2.(selectedBasis := setup.basis, tickMultiply := setup.tickMultiplier);
        }
        var streams2 := RetargetStreams(streams, market, setup);
        r, usedFallback := Chart(kind, kept2, streams2, settings2, kept), false;
    }
  }

  class Dashboard<K, W> {
    var pane: Pane<K>
    var popout: seq<(Pane<K>, W)>

    constructor (pane: Pane<K>, popout: seq<(Pane<K>, W)>)
      ensures this.pane == pane && this.popout == popout
    {
      this.pane, this.popout := pane, popout;
    }

    method Retarget(target: Target) returns (usedFallback: bool)
      modifies this
      ensures pane == Retargeted(old(pane), target)
      ensures |popout| == |old(popout)|
      ensures forall i: nat :: i < |popout| ==> popout[i] == (Retargeted(old(popout)[i].0, target), old(popout)[i].1)
      ensures usedFallback
         <==> (target.resolve(target.market.ticker) == None
               && (HasGex(old(pane)) || exists i: nat :: i < |old(popout)| && HasGex(old(popout)[i].0)))
    {
      hide Retargeted, HasGex;
      pane, usedFallback := RetargetPane(pane, target);
      for i := 0 to |popout|
        invariant |popout| == |old(popout)| && pane == Retargeted(old(pane), target)
        invariant forall k: nat :: k < i ==> popout[k] == (Retargeted(old(popout)[k].0, target), old(popout)[k].1)
        invariant forall k: nat :: i <= k < |popout| ==> popout[k] == old(popout)[k]
        invariant usedFallback
             <==> (target.resolve(target.market.ticker) == None
                   && (HasGex(old(pane)) || exists k: nat :: k < i && HasGex(old(popout)[k].0)))
      {
        var next, fallback := RetargetPane(popout[i].0, target);
        popout := popout[i := (next, popout[i].1)];
        usedFallback := usedFallback || fallback;
      }
    }
  }

  // ---------------------------------------------------------------------
  // What retargeting does to streams
  // ---------------------------------------------------------------------

  // Where `x` first is in `s`, or the length of `s`.
  function Position<T(==)>(s: seq<T>, x: T): (n: nat)
    ensures n <= |s| && (n < |s| ==> s[n] == x) && (forall i: nat :: i < n ==> s[i] != x)
  {
    if s == [] || s[0] == x then 0 else 1 + Position(s[1..], x)
  }

  // All streams rewritten, repeats included.
  function Images(streams: seq<PersistStream>, market: TickerInfo, setup: Setup): (r: seq<PersistStream>)
    ensures |r| == |streams| && forall i: nat :: i < |r| ==> r[i] == Rewritten(streams[i], market, setup)
  {
    if streams == [] then []
    else Images(streams[..|streams| - 1], market, setup) + [Rewritten(streams[|streams| - 1], market, setup)]
  }

  // `r` has the elements of `s`, each once, in the order they first come in.
  ghost predicate FirstsOf<T(!new)>(r: seq<T>, s: seq<T>) {
    && (forall x :: x in r <==> x in s)
    && forall i: nat, j: nat :: i < j < |r| ==> Position(s, r[i]) < Position(s, r[j])
  }

  lemma PositionInPrefix<T>(s: seq<T>, x: T, y: T)
    ensures Position(s + [x], y) == if y in s then Position(s, y) else if y == x then |s| else |s| + 1
  {
    var n := Position(s + [x], y);
    var m := Position(s, y);
    assert y in s ==> m < |s| && (s + [x])[m] == y;
    if y !in s && y == x {
      assert (s + [x])[|s|] == y;
    }
  }

  lemma {:induction false} RewrittenAllFacts(streams: seq<PersistStream>, market: TickerInfo, setup: Setup)
    ensures FirstsOf(RewrittenAll(streams, market, setup), Images(streams, market, setup))
  {
    hide Rewritten, Position;
    if streams != [] {
      var front := streams[..|streams| - 1];
      RewrittenAllFacts(front, market, setup);
      FirstsWithNext(RewrittenAll(front, market, setup), Images(front, market, setup), Rewritten(streams[|streams| - 1], market, setup));
    }
  }

  lemma FirstsWithNext<T(!new)>(r: seq<T>, s: seq<T>, x: T)
    requires FirstsOf(r, s)
    ensures FirstsOf(if x in r then r else r + [x], s + [x])
  {
    hide Position;
    var next := if x in r then r else r + [x];
    forall y {
      PositionInPrefix(s, x, y);
    }
    forall i: nat, j: nat | i < j < |next| ensures Position(s + [x], next[i]) < Position(s + [x], next[j]) {
      assert next[i] in s;
      if j < |r| {
        assert next[j] in s;
      } else {
        var n := Position(s, next[i]);
      }
    }
  }

  lemma RewrittenIsOnMarket(stream: PersistStream, market: TickerInfo, setup: Setup)
    ensures StreamTicker(Rewritten(stream, market, setup)) == market.ticker
  {
    hide RewrittenTimeframe;
  }

  // A basis that is a kline timeframe of the exchange.
  predicate IsKlineBasis(current: Option<Basis>, exchange: Exchange) {
    current.Some? && current.value.Time? && SupportsKline(exchange, current.value.timeframe)
  }

  // A kline timeframe that the market's exchange supports stays, and any other
  // becomes a supported one, but on three kinds of pane: a footprint whose
  // basis counts ticks keeps it, and a heatmap or a ladder puts the time of its
  // book in its place unless its own basis is a kline timeframe.
  lemma TimeframeIsSupported(timeframe: Timeframe, kind: ChartKind, market: TickerInfo, current: Option<Basis>, multiplier: Option<nat>)
    ensures var exchange := market.ticker.exchange;
            SupportsKline(exchange, RewrittenTimeframe(timeframe, market, NewSetup(kind, market, current, multiplier).basis))
            <==> (|| SupportsKline(exchange, timeframe)
                  || (match kind
                      case Candlestick | Comparison | TimeAndSales => true
                      case Footprint => !(current.Some? && current.value.Tick?)
                      case Heatmap | ShaderHeatmap | Ladder => IsKlineBasis(current, exchange)))
  {
    hide SupportsKline, DefaultKline, SupportsHeatmap, DefaultHeatmap, IsDepthClientAggr, IsCustomPushFreq;
    var exchange := market.ticker.exchange;
    DefaultsAreSupported(exchange, timeframe);
    DefaultsAreSupported(exchange, M5);
    DefaultsAreSupported(exchange, M15);
    BookTimesAreNoKlines(exchange);
  }

  // A three-minute stream on Mexc, which has no such klines: each kind that
  // can keep a market from supporting it does.
  lemma TimeframesAreLeftUnsupported(market: TickerInfo, multiplier: Option<nat>)
    requires market.ticker.exchange == MexcLinear
    ensures RewrittenTimeframe(M3, market, NewSetup(Footprint, market, Some(Tick(100)), multiplier).basis) == M3
    ensures RewrittenTimeframe(M3, market, NewSetup(Heatmap, market, None, multiplier).basis) == MS200
    ensures RewrittenTimeframe(M3, market, NewSetup(Ladder, market, Some(Time(MS1000)), multiplier).basis) == MS1000
    ensures forall timeframe :: timeframe in {M3, MS200, MS1000} ==> !SupportsKline(MexcLinear, timeframe)
  {
    hide NewSetup, SupportsKline, SupportsHeatmap, DefaultKline;
    SetupIsExact(Footprint, market, Some(Tick(100)), multiplier);
    SetupIsExact(Heatmap, market, None, multiplier);
    SetupIsExact(Ladder, market, Some(Time(MS1000)), multiplier);
    MexcLacks(M3);
    MexcLacks(MS200);
    MexcLacks(MS1000);
  }

  lemma MexcLacks(timeframe: Timeframe)
    requires timeframe in {M3, MS200, MS1000}
    ensures !SupportsKline(MexcLinear, timeframe)
  {
  }

  // ---------------------------------------------------------------------
  // What retargeting does to a layout
  // ---------------------------------------------------------------------

  // Lines and profiles at times stay on another market; what is at a price,
  // or anywhere else, goes.
  ghost predicate StaysOnMarket<K>(drawing: Drawing<K>) {
    match drawing.geometry
    case VerticalLine => true
    case FixedRangeVolumeProfile => true
    case Freehand => false
    case HorizontalLine => false
    case Rectangle => false
    case Fibonacci => false
    case TrendLine => false
    case Label => false
  }

  // How many of the drawings stay.
  ghost function Staying<K>(drawings: seq<Drawing<K>>): nat {
    if drawings == [] then 0
    else Staying(drawings[..|drawings| - 1]) + if StaysOnMarket(drawings[|drawings| - 1]) then 1 else 0
  }

  // Those that stay, in their order.
  ghost predicate DrawingsStay<K>(before: seq<Drawing<K>>, after: seq<Drawing<K>>) {
    && |after| == Staying(before)
    && forall i: nat :: i < |before| && StaysOnMarket(before[i]) ==>
         Staying(before[..i]) < |after| && after[Staying(before[..i])] == before[i]
  }

  lemma {:induction false} DrawingsAreKept<K>(drawings: seq<Drawing<K>>)
    ensures DrawingsStay(drawings, OnlyTimeAnchored(drawings))
    decreases |drawings|
  {
    hide StaysOnMarket, TimeAnchored;
    if drawings != [] {
      var last := |drawings| - 1;
      var front := drawings[..last];
      DrawingsAreKept(front);
      SameChoice(drawings[last]);
      forall i: nat | i < last ensures front[..i] == drawings[..i] {
      }
    }
  }

  lemma SameChoice<K>(drawing: Drawing<K>)
    ensures TimeAnchored(drawing) <==> StaysOnMarket(drawing)
  {
  }

  // The same depth on the market. Its aggregation and pace stay on the same
  // exchange, and are those of the setup on another.
  ghost predicate DepthMoved(before: PersistDepth, after: PersistDepth, market: TickerInfo, setup: Setup) {
    && after.ticker == market.ticker
    && (before.ticker.exchange == market.ticker.exchange ==> after.depthAggr == before.depthAggr && after.pushFreq == before.pushFreq)
    && (before.ticker.exchange != market.ticker.exchange ==> after.depthAggr == setup.depthAggr && after.pushFreq == setup.pushFreq)
  }

  // The same kind of stream on the market. A timeframe that the exchange does
  // not support gives way to the basis of the setup, if that is one.
  ghost predicate StreamMoved(before: PersistStream, after: PersistStream, market: TickerInfo, setup: Setup) {
    match before
    case Kline(_, timeframe) =>
      && after.Kline? && after.klineTicker == market.ticker
      && (if SupportsKline(market.ticker.exchange, timeframe) then after.timeframe == timeframe
          else
            match setup.basis
            case Some(Time(supported)) => after.timeframe == supported
            case Some(Tick(_)) => after.timeframe == timeframe
            case None => SupportsKline(market.ticker.exchange, after.timeframe))
    case Trades(_) => after == Trades(market.ticker)
    case Depth(depth) => after.Depth? && DepthMoved(depth, after.depth, market, setup)
    case DepthAndTrades(depth) => after.DepthAndTrades? && DepthMoved(depth, after.depth, market, setup)
  }

  lemma StreamIsMoved(stream: PersistStream, market: TickerInfo, setup: Setup)
    ensures StreamMoved(stream, Rewritten(stream, market, setup), market, setup)
  {
    hide SupportsKline, DefaultKline;
    if stream.Kline? {
      DefaultsAreSupported(market.ticker.exchange, stream.timeframe);
    }
  }

  // The multiplier that the setup is asked for: depth that the server now
  // aggregates, and did not before, starts from ten.
  ghost function AskedMultiplier<K(!new)>(p: Pane<K>, market: TickerInfo): Option<nat>
    requires p.Chart?
  {
    if p.streams != [] && !OnHyperliquid(StreamTicker(p.streams[0]).exchange) && OnHyperliquid(market.ticker.exchange)
       && p.kind in {Heatmap, ShaderHeatmap, Ladder}
    then Some(10) else p.settings.tickMultiply
  }

  // The exchange of the first stream, if there is one, is another one.
  ghost predicate MovesExchange<K(!new)>(p: Pane<K>, market: TickerInfo)
    requires p.Chart?
  {
    p.streams != [] && StreamTicker(p.streams[0]).exchange != market.ticker.exchange
  }

  // Colours and names of a comparison: the first colour, for the market alone.
  ghost predicate ComparisonMoved<K(!new)>(before: Option<VisualConfig<K>>, after: Option<VisualConfig<K>>, market: TickerInfo) {
    match before
    case Some(ComparisonConfig(colors, _)) =>
      && after.Some? && after.value.ComparisonConfig? && after.value.names == []
      && |after.value.colors| == (if colors == [] then 0 else 1)
      && (colors != [] ==> after.value.colors[0] == (SerTicker(market.ticker.exchange, market.ticker), colors[0].1))
    case _ => after == before
  }

  // What one chart becomes.
  ghost predicate ChartMoved<K(!new)>(p: Pane<K>, q: Pane<K>, market: TickerInfo, setup: Setup, images: seq<PersistStream>)
    requires p.Chart? && q.Chart?
  {
    && IsSetup(setup, p.kind, market.ticker.exchange, p.settings.selectedBasis, AskedMultiplier(p, market))
    && |images| == |p.streams| && (forall i: nat :: i < |images| ==> StreamMoved(p.streams[i], images[i], market, setup))
    && AllOn(q.streams, market.ticker) && FirstsOf(q.streams, images)
    && (if IsKlineChart(p.kind) && !AllOn(p.streams, market.ticker) then DrawingsStay(p.drawings, q.drawings)
        else q.drawings == p.drawings)
    && (if MovesExchange(p, market)
        then q.settings.selectedBasis == setup.basis && q.settings.tickMultiply == setup.tickMultiplier
        else q.settings.selectedBasis == p.settings.selectedBasis && q.settings.tickMultiply == p.settings.tickMultiply)
    && (if p.kind.Comparison? then ComparisonMoved(p.settings.visualConfig, q.settings.visualConfig, market)
        else q.settings.visualConfig == p.settings.visualConfig)
  }

  ghost predicate ChartResult<K(!new)>(p: Pane<K>, q: Pane<K>, market: TickerInfo)
    requires p.Chart? && q.Chart?
  {
    exists setup, images :: ChartMoved(p, q, market, setup, images)
  }

  // The options reference: the market when it has options of its own, else
  // Bitcoin with the old reference when that is one, or the one given.
  ghost predicate GexMoved(before: Option<TickerInfo>, underlying: Underlying, after: Option<TickerInfo>, target: Target) {
    match target.resolve(target.market.ticker)
    case Some(own) => underlying == own && after == Some(target.market)
    case None =>
      && underlying == Btc
      && (before.Some? && target.resolve(before.value.ticker) == Some(Btc) ==> after == before)
      && (before.None? || target.resolve(before.value.ticker) != Some(Btc) ==> after == target.btcReference)
  }

  // The same tree, with the same leaves but for what a market decides.
  ghost predicate SameLayout<K(!new)>(p: Pane<K>, q: Pane<K>, target: Target) {
    match p
    case Split(axis, ratio, a, b) =>
      q.Split? && q.axis == axis && q.ratio == ratio && SameLayout(a, q.a, target) && SameLayout(b, q.b, target)
    case GexChart(_, reference, kept) =>
      q.GexChart? && q.kept == kept && GexMoved(reference, q.underlying, q.liquidityReference, target)
    case Chart(kind, _, _, _, kept) => q.Chart? && q.kind == kind && q.kept == kept && ChartResult(p, q, target.market)
    case _ => q == p
  }

  lemma {:induction false} RetargetKeepsLayout<K(!new)>(p: Pane<K>, target: Target)
    ensures SameLayout(p, Retargeted(p, target), target)
    decreases p
  {
    hide ChartResult, RetargetedDrawings, RetargetedSettings, RewrittenAll, SetupFor;
    match p
    case Split(_, _, a, b) =>
      RetargetKeepsLayout(a, target);
      RetargetKeepsLayout(b, target);
    case Chart(_, _, _, _, _) => ChartIsRetargeted(p, Retargeted(p, target), target.market);
    case _ =>
  }

  lemma ChartIsRetargeted<K(!new)>(p: Pane<K>, q: Pane<K>, market: TickerInfo)
    requires p.Chart? && q.Chart?
    requires var setup := SetupFor(p.kind, p.streams, p.settings, market);
             && q.drawings == RetargetedDrawings(p.kind, p.drawings, p.streams, market)
             && q.streams == RewrittenAll(p.streams, market, setup)
             && q.settings == RetargetedSettings(p.kind, p.streams, p.settings, market)
    ensures ChartResult(p, q, market)
  {
    hide Rewritten, SetupFor, Position, OnlyTimeAnchored, RewrittenAll, StreamMoved, DrawingsStay, IsSetup, RetargetedVisual,
         ComparisonMoved;
    var setup := SetupFor(p.kind, p.streams, p.settings, market);
    var images := Images(p.streams, market, setup);
    SetupIsAsked(p, market);
    RewrittenAllFacts(p.streams, market, setup);
    DrawingsAreKept(p.drawings);
    ComparisonIsMoved(p.settings.visualConfig, market);
    forall i: nat | i < |images|
      ensures StreamMoved(p.streams[i], images[i], market, setup) && StreamTicker(images[i]) == market.ticker
    {
      StreamIsMoved(p.streams[i], market, setup);
      RewrittenIsOnMarket(p.streams[i], market, setup);
    }
    forall i: nat | i < |q.streams| ensures StreamTicker(q.streams[i]) == market.ticker {
      assert q.streams[i] in images;
    }
    assert ChartMoved(p, q, market, setup, images);
  }

  lemma ComparisonIsMoved<K(!new)>(config: Option<VisualConfig<K>>, market: TickerInfo)
    ensures ComparisonMoved(config, RetargetedVisual(config, market), market)
  {
  }

  lemma SetupIsAsked<K(!new)>(p: Pane<K>, market: TickerInfo)
    requires p.Chart?
    ensures IsSetup(SetupFor(p.kind, p.streams, p.settings, market), p.kind, market.ticker.exchange, p.settings.selectedBasis,
                    AskedMultiplier(p, market))
  {
    hide IsSetup, NewSetup;
    SetupIsExact(p.kind, market, p.settings.selectedBasis, AskedMultiplier(p, market));
  }

  // ---------------------------------------------------------------------
  // Retargeting twice
  // ---------------------------------------------------------------------

  lemma TimeframeIsStable(timeframe: Timeframe, market: TickerInfo, basis: Option<Basis>)
    ensures var once := RewrittenTimeframe(timeframe, market, basis);
            RewrittenTimeframe(once, market, basis) == once
  {
    hide SupportsKline, DefaultKline;
    DefaultsAreSupported(market.ticker.exchange, timeframe);
  }

  lemma RewrittenIsStable(stream: PersistStream, market: TickerInfo, setup: Setup, again: Setup)
    requires again.basis == setup.basis
    ensures var once := Rewritten(stream, market, setup);
            Rewritten(once, market, again) == once
  {
    hide RewrittenTimeframe;
    if stream.Kline? {
      TimeframeIsStable(stream.timeframe, market, setup.basis);
    }
  }

  lemma {:induction false} StableStreamsStay(streams: seq<PersistStream>, market: TickerInfo, setup: Setup)
    requires forall i: nat :: i < |streams| ==> Rewritten(streams[i], market, setup) == streams[i]
    requires forall i: nat, j: nat :: i < j < |streams| ==> streams[i] != streams[j]
    ensures RewrittenAll(streams, market, setup) == streams
  {
    hide Rewritten;
    if streams != [] {
      StableStreamsStay(streams[..|streams| - 1], market, setup);
    }
  }

  lemma SetupAgain<K>(kind: ChartKind, streams: seq<PersistStream>, settings: Settings<K>, market: TickerInfo)
    ensures var settings2 := RetargetedSettings(kind, streams, settings, market);
            var streams2 := RewrittenAll(streams, market, SetupFor(kind, streams, settings, market));
            && SetupFor(kind, streams2, settings2, market).basis == SetupFor(kind, streams, settings, market).basis
            && RetargetedSettings(kind, streams2, settings2, market) == settings2
  {
    hide SetupBasis, RewrittenAll, IsDepthClientAggr, Rewritten;
    var setup := SetupFor(kind, streams, settings, market);
    SetupBasisIsStable(kind, market.ticker.exchange, settings.selectedBasis);
    RewrittenAllFacts(streams, market, setup);
    var streams2 := RewrittenAll(streams, market, setup);
    if streams2 != [] {
      assert streams2[0] in Images(streams, market, setup);
      var k: nat :| k < |streams| && streams2[0] == Rewritten(streams[k], market, setup);
      RewrittenIsOnMarket(streams[k], market, setup);
    }
  }

  // Retargeting a retargeted layout to the same market changes nothing more.
  lemma {:induction false} RetargetTwice<K(!new)>(p: Pane<K>, target: Target)
    ensures Retargeted(Retargeted(p, target), target) == Retargeted(p, target)
    ensures HasGex(Retargeted(p, target)) == HasGex(p)
    decreases p
  {
    hide RewrittenAll, SetupFor, RetargetedSettings, RetargetedDrawings;
    match p
    case Split(_, _, a, b) =>
      RetargetTwice(a, target);
      RetargetTwice(b, target);
    case Chart(kind, drawings, streams, settings, _) =>
      ChartTwice(kind, drawings, streams, settings, target.market);
    case _ =>
  }

  lemma ChartTwice<K(!new)>(kind: ChartKind, drawings: seq<Drawing<K>>, streams: seq<PersistStream>, settings: Settings<K>, market: TickerInfo)
    ensures var streams2 := RewrittenAll(streams, market, SetupFor(kind, streams, settings, market));
            var settings2 := RetargetedSettings(kind, streams, settings, market);
            var drawings2 := RetargetedDrawings(kind, drawings, streams, market);
            && RewrittenAll(streams2, market, SetupFor(kind, streams2, settings2, market)) == streams2
            && RetargetedSettings(kind, streams2, settings2, market) == settings2
            && RetargetedDrawings(kind, drawings2, streams2, market) == drawings2
  {
    hide Rewritten, RewrittenAll, SetupFor, RetargetedSettings, Position, OnlyTimeAnchored;
    var setup := SetupFor(kind, streams, settings, market);
    var streams2 := RewrittenAll(streams, market, setup);
    var settings2 := RetargetedSettings(kind, streams, settings, market);
    var again := SetupFor(kind, streams2, settings2, market);
    SetupAgain(kind, streams, settings, market);
    RewrittenAllFacts(streams, market, setup);
    forall i: nat | i < |streams2|
      ensures Rewritten(streams2[i], market, again) == streams2[i] && StreamTicker(streams2[i]) == market.ticker
    {
      assert streams2[i] in Images(streams, market, setup);
      var k: nat :| k < |streams| && streams2[i] == Rewritten(streams[k], market, setup);
      RewrittenIsStable(streams[k], market, setup, again);
      RewrittenIsOnMarket(streams[k], market, setup);
    }
    StableStreamsStay(streams2, market, again);
  }
}
