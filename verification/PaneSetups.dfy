/**
 What exchanges support, and the setup that a pane of some kind gets for a
 market (exchange/src/adapter.rs, data/src/chart.rs, data/src/layout/pane.rs).
 */
module PaneSetups {
  import opened Basics
  import opened Exchanges
  import opened Tickers
  import opened Timeframes
  import opened Streams

  // The panes that show streams.
  datatype ChartKind = Heatmap | ShaderHeatmap | Candlestick | Footprint | Comparison | TimeAndSales | Ladder

  datatype Basis = Time(timeframe: Timeframe) | Tick(count: nat)

  datatype Setup = Setup(basis: Option<Basis>, tickMultiplier: Option<nat>, depthAggr: StreamTicksize, pushFreq: PushFrequency)

  function KlineTimeframes(): seq<Timeframe> { [M1, M3, M5, M15, M30, H1, H2, H4, H12, D1] }

  function HeatmapTimeframes(): seq<Timeframe> { [MS100, MS200, MS300, MS500, MS1000, M1] }

  predicate IsDepthClientAggr(exchange: Exchange) { !exchange.HyperliquidLinear? && !exchange.HyperliquidSpot? }

  predicate IsCustomPushFreq(exchange: Exchange) { VenueOf(exchange) == Bybit }

  predicate SupportsKline(exchange: Exchange, timeframe: Timeframe) {
    timeframe in KlineTimeframes() && (VenueOf(exchange) == Mexc ==> timeframe !in {M3, H2, H12})
  }

  predicate SupportsHeatmap(exchange: Exchange, timeframe: Timeframe) {
    match exchange
    case BybitSpot | MexcSpot | MexcInverse | MexcLinear => timeframe !in {MS100, MS300, MS500}
    case BybitLinear | BybitInverse => timeframe != MS200
    case HyperliquidLinear | HyperliquidSpot => timeframe !in {MS100, MS200, MS300}
    case _ => true
  }

  function FirstKline(exchange: Exchange, timeframes: seq<Timeframe>): (r: Option<Timeframe>)
    ensures match r
            case Some(timeframe) => timeframe in timeframes && SupportsKline(exchange, timeframe)
            case None => forall timeframe :: timeframe in timeframes ==> !SupportsKline(exchange, timeframe)
  {
    if timeframes == [] then None
    else if SupportsKline(exchange, timeframes[0]) then Some(timeframes[0])
    else FirstKline(exchange, timeframes[1..])
  }

  function FirstHeatmap(exchange: Exchange, timeframes: seq<Timeframe>): (r: Option<Timeframe>)
    ensures match r
            case Some(timeframe) => timeframe in timeframes && SupportsHeatmap(exchange, timeframe)
            case None => forall timeframe :: timeframe in timeframes ==> !SupportsHeatmap(exchange, timeframe)
  {
    if timeframes == [] then None
    else if SupportsHeatmap(exchange, timeframes[0]) then Some(timeframes[0])
    else FirstHeatmap(exchange, timeframes[1..])
  }

  function DefaultKline(exchange: Exchange, fallback: Timeframe): Basis {
    if SupportsKline(exchange, fallback) then Time(fallback)
    else
      match FirstKline(exchange, KlineTimeframes())
      case Some(timeframe) => Time(timeframe)
      case None => Time(fallback)
  }

  function DefaultHeatmap(exchange: Exchange): (r: Basis)
    ensures r.Time?
  {
    match FirstHeatmap(exchange, HeatmapTimeframes())
    case Some(timeframe) => Time(timeframe)
    case None => Time(MS500)
  }

  function SetupBasis(kind: ChartKind, exchange: Exchange, current: Option<Basis>): Option<Basis> {
    match kind
    case Heatmap | ShaderHeatmap =>
      if current.Some? && current.value.Time? && SupportsHeatmap(exchange, current.value.timeframe) then current
      else Some(DefaultHeatmap(exchange))
    case Ladder => if current.Some? then current else Some(DefaultHeatmap(exchange))
    case Footprint =>
      if current.Some? && (current.value.Tick? || SupportsKline(exchange, current.value.timeframe)) then current
      else Some(DefaultKline(exchange, M5))
    case Candlestick | Comparison =>
      if current.Some? && current.value.Time? && SupportsKline(exchange, current.value.timeframe) then current
      else Some(DefaultKline(exchange, M15))
    case TimeAndSales => None
  }

  // Without a previous market, as retargeting asks for it.
  function NewSetup(kind: ChartKind, market: TickerInfo, current: Option<Basis>, multiplier: Option<nat>): Setup {
    var exchange := market.ticker.exchange;
    var basis := SetupBasis(kind, exchange, current);
    var tickMultiplier :=
      match kind
      case Heatmap | Ladder | ShaderHeatmap =>
        Some(if multiplier.Some? then multiplier.value else if IsDepthClientAggr(exchange) then 5 else 10)
      case Footprint => Some(if multiplier.Some? then multiplier.value else 50)
      case _ => multiplier;
    Setup(basis, tickMultiplier,
          if IsDepthClientAggr(exchange) then Client else ServerSide(if tickMultiplier.Some? then tickMultiplier.value else 50),
          if kind == Heatmap && IsCustomPushFreq(exchange) && basis.Some? && basis.value.Time?
             && SupportsHeatmap(exchange, basis.value.timeframe)
          then Custom(basis.value.timeframe) else ServerDefault)
  }

  // A default is always supported.
  lemma DefaultsAreSupported(exchange: Exchange, fallback: Timeframe)
    ensures DefaultKline(exchange, fallback).Time? && SupportsKline(exchange, DefaultKline(exchange, fallback).timeframe)
    ensures DefaultHeatmap(exchange).Time? && SupportsHeatmap(exchange, DefaultHeatmap(exchange).timeframe)
  {
    hide SupportsKline, SupportsHeatmap, KlineTimeframes, HeatmapTimeframes, FirstKline, FirstHeatmap;
    SomeAreSupported(exchange);
  }

  lemma SomeAreSupported(exchange: Exchange)
    ensures M1 in KlineTimeframes() && SupportsKline(exchange, M1)
    ensures MS1000 in HeatmapTimeframes() && SupportsHeatmap(exchange, MS1000)
  {
    assert KlineTimeframes()[0] == M1;
    assert HeatmapTimeframes()[4] == MS1000;
  }

  // Times of the book are no kline timeframes, and every kline timeframe will
  // do for a heatmap.
  lemma BookTimesAreNoKlines(exchange: Exchange)
    ensures !SupportsKline(exchange, DefaultHeatmap(exchange).timeframe)
    ensures forall timeframe :: SupportsKline(exchange, timeframe) ==> SupportsHeatmap(exchange, timeframe)
  {
    var all := HeatmapTimeframes();
    assert all[0] == MS100 && all[1..][0] == MS200 && all[1..][1..][0] == MS300 && all[1..][1..][1..][0] == MS500;
    assert forall i: nat :: i < 10 ==> KlineTimeframes()[i] !in {MS100, MS200, MS300, MS500};
  }

  // A setup asked for with its own basis keeps it.
  lemma SetupBasisIsStable(kind: ChartKind, exchange: Exchange, current: Option<Basis>)
    ensures SetupBasis(kind, exchange, SetupBasis(kind, exchange, current)) == SetupBasis(kind, exchange, current)
  {
    hide SupportsKline, SupportsHeatmap, DefaultKline, DefaultHeatmap;
    DefaultsAreSupported(exchange, M5);
    DefaultsAreSupported(exchange, M15);
  }

  // ---------------------------------------------------------------------
  // What a setup is
  // ---------------------------------------------------------------------

  predicate OnHyperliquid(exchange: Exchange) { exchange in {HyperliquidLinear, HyperliquidSpot} }

  // A basis that a pane of this kind can show on the exchange.
  predicate Fits(kind: ChartKind, exchange: Exchange, basis: Basis) {
    match kind
    case Heatmap | ShaderHeatmap => basis.Time? && SupportsHeatmap(exchange, basis.timeframe)
    case Ladder => true
    case Footprint => basis.Tick? || SupportsKline(exchange, basis.timeframe)
    case Candlestick | Comparison => basis.Time? && SupportsKline(exchange, basis.timeframe)
    case TimeAndSales => false
  }

  // The quickest book of each exchange.
  function BookTime(exchange: Exchange): Timeframe {
    match exchange
    case BybitSpot | MexcSpot | MexcLinear | MexcInverse => MS200
    case HyperliquidLinear | HyperliquidSpot => MS500
    case _ => MS100
  }

  // The current basis when it fits, and otherwise the default of the kind.
  ghost predicate IsBasis(basis: Option<Basis>, kind: ChartKind, exchange: Exchange, current: Option<Basis>) {
    if current.Some? && Fits(kind, exchange, current.value) then basis == current
    else
      match kind
      case Heatmap | ShaderHeatmap | Ladder => basis == Some(Time(BookTime(exchange)))
      case Footprint => basis == Some(Time(M5))
      case Candlestick | Comparison => basis == Some(Time(M15))
      case TimeAndSales => basis == None
  }

  ghost predicate IsSetup(setup: Setup, kind: ChartKind, exchange: Exchange, current: Option<Basis>, multiplier: Option<nat>) {
    && IsBasis(setup.basis, kind, exchange, current)
    && (multiplier.Some? ==> setup.tickMultiplier == multiplier)
    && (multiplier.None? ==>
          setup.tickMultiplier == match kind
                                  case Heatmap | ShaderHeatmap | Ladder => Some(if OnHyperliquid(exchange) then 10 else 5)
                                  case Footprint => Some(50)
                                  case _ => None)
    && (!OnHyperliquid(exchange) ==> setup.depthAggr == Client)
    && (OnHyperliquid(exchange) && setup.tickMultiplier.Some? ==> setup.depthAggr == ServerSide(setup.tickMultiplier.value))
    && (OnHyperliquid(exchange) && setup.tickMultiplier.None? ==> setup.depthAggr == ServerSide(50))
    && (kind == Heatmap && VenueOf(exchange) == Bybit ==> setup.basis.Some? && setup.pushFreq == Custom(setup.basis.value.timeframe))
    && (!(kind == Heatmap && VenueOf(exchange) == Bybit) ==> setup.pushFreq == ServerDefault)
  }

  lemma SetupIsExact(kind: ChartKind, market: TickerInfo, current: Option<Basis>, multiplier: Option<nat>)
    ensures IsSetup(NewSetup(kind, market, current, multiplier), kind, market.ticker.exchange, current, multiplier)
  {
    hide SupportsKline, SupportsHeatmap, DefaultKline, DefaultHeatmap, BookTime;
    var exchange := market.ticker.exchange;
    DefaultsAreKnown(exchange);
    DefaultsAreSupported(exchange, M5);
  }

  lemma DefaultsAreKnown(exchange: Exchange)
    ensures DefaultKline(exchange, M5) == Time(M5) && DefaultKline(exchange, M15) == Time(M15)
    ensures DefaultHeatmap(exchange) == Time(BookTime(exchange))
  {
    hide SupportsKline, SupportsHeatmap, KlineTimeframes, HeatmapTimeframes, FirstKline, FirstHeatmap, BookTime;
    MinutesAreSupported(exchange);
    BookTimeIsFirst(exchange);
  }

  lemma MinutesAreSupported(exchange: Exchange)
    ensures SupportsKline(exchange, M5) && SupportsKline(exchange, M15)
  {
    assert KlineTimeframes()[2] == M5 && KlineTimeframes()[3] == M15;
  }

  lemma BookTimeIsFirst(exchange: Exchange)
    ensures FirstHeatmap(exchange, HeatmapTimeframes()) == Some(BookTime(exchange))
  {
    BookTimeIsQuickest(exchange);
    hide SupportsHeatmap, BookTime;
    FirstOf(exchange, HeatmapTimeframes(), if BookTime(exchange) == MS100 then 0 else if BookTime(exchange) == MS200 then 1 else 3);
  }

  lemma BookTimeIsQuickest(exchange: Exchange)
    ensures SupportsHeatmap(exchange, BookTime(exchange)) && BookTime(exchange) in {MS100, MS200, MS500}
    ensures BookTime(exchange) != MS100 ==> !SupportsHeatmap(exchange, MS100)
    ensures BookTime(exchange) == MS500 ==> !SupportsHeatmap(exchange, MS200) && !SupportsHeatmap(exchange, MS300)
  {
  }

  lemma {:induction false} FirstOf(exchange: Exchange, timeframes: seq<Timeframe>, k: nat)
    requires k < |timeframes| && SupportsHeatmap(exchange, timeframes[k])
    requires forall i :: 0 <= i < k ==> !SupportsHeatmap(exchange, timeframes[i])
    ensures FirstHeatmap(exchange, timeframes) == Some(timeframes[k])
  {
    hide SupportsHeatmap;
    if k > 0 {
      FirstOf(exchange, timeframes[1..], k - 1);
    }
  }
}
