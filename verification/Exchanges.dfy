/**
 Exchanges, their venues and markets, and the names they are printed and
 parsed by (exchange/src/adapter.rs, exchange/src/lib.rs).
 */
module Exchanges {
  import opened Basics
  import opened Text

  datatype Venue = Bybit | Binance | Hyperliquid | Okex | Mexc

  datatype MarketKind = Spot | LinearPerps | InversePerps

  datatype Exchange =
    | BinanceLinear | BinanceInverse | BinanceSpot
    | BybitLinear | BybitInverse | BybitSpot
    | HyperliquidLinear | HyperliquidSpot
    | OkexLinear | OkexInverse | OkexSpot
    | MexcLinear | MexcInverse | MexcSpot

  function AllExchanges(): seq<Exchange> {
    [BinanceLinear, BinanceInverse, BinanceSpot,
     BybitLinear, BybitInverse, BybitSpot,
     HyperliquidLinear, HyperliquidSpot,
     OkexLinear, OkexInverse, OkexSpot,
     MexcLinear, MexcInverse, MexcSpot]
  }

  function VenueOf(exchange: Exchange): Venue {
    match exchange
    case BybitLinear | BybitInverse | BybitSpot => Bybit
    case BinanceLinear | BinanceInverse | BinanceSpot => Binance
    case HyperliquidLinear | HyperliquidSpot => Hyperliquid
    case OkexLinear | OkexInverse | OkexSpot => Okex
    case MexcLinear | MexcInverse | MexcSpot => Mexc
  }

  function MarketOf(exchange: Exchange): MarketKind {
    match exchange
    case BinanceLinear | BybitLinear | HyperliquidLinear | OkexLinear | MexcLinear => LinearPerps
    case BinanceInverse | BybitInverse | OkexInverse | MexcInverse => InversePerps
    case BinanceSpot | BybitSpot | HyperliquidSpot | OkexSpot | MexcSpot => Spot
  }

  predicate Trades(exchange: Exchange, venue: Venue, market: MarketKind) {
    VenueOf(exchange) == venue && MarketOf(exchange) == market
  }

  // The first of `exchanges` that trades this market at this venue.
  function FindExchange(exchanges: seq<Exchange>, venue: Venue, market: MarketKind): (r: Option<Exchange>)
    ensures match r
            case Some(exchange) => exchange in exchanges && Trades(exchange, venue, market)
            case None => forall exchange :: exchange in exchanges ==> !Trades(exchange, venue, market)
  {
    if exchanges == [] then None
    else if Trades(exchanges[0], venue, market) then Some(exchanges[0])
    else FindExchange(exchanges[1..], venue, market)
  }

  function FromVenueAndMarket(venue: Venue, market: MarketKind): Option<Exchange> {
    FindExchange(AllExchanges(), venue, market)
  }

  lemma ExchangeIsListed(exchange: Exchange)
    ensures exchange in AllExchanges()
  {
    var all := AllExchanges();
    match exchange
    case BinanceLinear => assert all[0] == exchange;
    case BinanceInverse => assert all[1] == exchange;
    case BinanceSpot => assert all[2] == exchange;
    case BybitLinear => assert all[3] == exchange;
    case BybitInverse => assert all[4] == exchange;
    case BybitSpot => assert all[5] == exchange;
    case HyperliquidLinear => assert all[6] == exchange;
    case HyperliquidSpot => assert all[7] == exchange;
    case OkexLinear => assert all[8] == exchange;
    case OkexInverse => assert all[9] == exchange;
    case OkexSpot => assert all[10] == exchange;
    case MexcLinear => assert all[11] == exchange;
    case MexcInverse => assert all[12] == exchange;
    case MexcSpot => assert all[13] == exchange;
  }

  // Only Hyperliquid has no inverse market.
  lemma FromVenueAndMarketIsExact(venue: Venue, market: MarketKind)
    ensures FromVenueAndMarket(venue, market).None? <==> (venue == Hyperliquid && market == InversePerps)
    ensures forall exchange :: FromVenueAndMarket(venue, market) == Some(exchange) <==> Trades(exchange, venue, market)
  {
    hide AllExchanges;
    forall exchange {
      ExchangeIsListed(exchange);
    }
    if !(venue == Hyperliquid && market == InversePerps) {
      var exchange := SomeExchange(venue, market);
      ExchangeIsListed(exchange);
    }
  }

  lemma SomeExchange(venue: Venue, market: MarketKind) returns (exchange: Exchange)
    requires !(venue == Hyperliquid && market == InversePerps)
    ensures Trades(exchange, venue, market)
  {
    exchange := match (venue, market)
      case (Bybit, Spot) => BybitSpot
      case (Bybit, LinearPerps) => BybitLinear
      case (Bybit, InversePerps) => BybitInverse
      case (Binance, Spot) => BinanceSpot
      case (Binance, LinearPerps) => BinanceLinear
      case (Binance, InversePerps) => BinanceInverse
      case (Hyperliquid, Spot) => HyperliquidSpot
      case (Hyperliquid, _) => HyperliquidLinear
      case (Okex, Spot) => OkexSpot
      case (Okex, LinearPerps) => OkexLinear
      case (Okex, InversePerps) => OkexInverse
      case (Mexc, Spot) => MexcSpot
      case (Mexc, LinearPerps) => MexcLinear
      case (Mexc, InversePerps) => MexcInverse;
  }

  // ---------------------------------------------------------------------
  // Names
  // ---------------------------------------------------------------------

  function VenueName(venue: Venue): string {
    match venue
    case Bybit => "Bybit"
    case Binance => "Binance"
    case Hyperliquid => "Hyperliquid"
    case Okex => "OKX"
    case Mexc => "MEXC"
  }

  function MarketName(market: MarketKind): string {
    match market
    case Spot => "Spot"
    case LinearPerps => "Linear"
    case InversePerps => "Inverse"
  }

  function ParseVenue(s: string): Option<Venue> {
    if EqualIgnoringCase(s, "bybit") then Some(Bybit)
    else if EqualIgnoringCase(s, "binance") then Some(Binance)
    else if EqualIgnoringCase(s, "hyperliquid") then Some(Hyperliquid)
    else if EqualIgnoringCase(s, "okx") || EqualIgnoringCase(s, "okex") then Some(Okex)
    else if EqualIgnoringCase(s, "mexc") then Some(Mexc)
    else None
  }

  function ParseMarket(s: string): Option<MarketKind> {
    if EqualIgnoringCase(s, "spot") then Some(Spot)
    else if EqualIgnoringCase(s, "linear") then Some(LinearPerps)
    else if EqualIgnoringCase(s, "inverse") then Some(InversePerps)
    else None
  }

  // `Display` and `FromStr` of an exchange.
  function Display(exchange: Exchange): string {
    VenueName(VenueOf(exchange)) + " " + MarketName(MarketOf(exchange))
  }

  function ParseWords(words: seq<string>): Option<Exchange> {
    if |words| != 2 then None
    else
      match (ParseVenue(words[0]), ParseMarket(words[1]))
      case (Some(venue), Some(market)) => FromVenueAndMarket(venue, market)
      case _ => None
  }

  function ParseExchange(s: string): Option<Exchange> { ParseWords(Words(s)) }

  function ExchangeToString(exchange: Exchange): string { WithoutSpaces(Display(exchange)) }

  // The name with a space put before the first of the market names that ends it.
  function Normalized(s: string): string {
    match StripSuffix(s, "Linear")
    case Some(prefix) => prefix + " " + "Linear"
    case None =>
      match StripSuffix(s, "Inverse")
      case Some(prefix) => prefix + " " + "Inverse"
      case None =>
        match StripSuffix(s, "Spot")
        case Some(prefix) => prefix + " " + "Spot"
        case None => s
  }

  function StringToExchange(s: string): Option<Exchange> {
    match ParseExchange(s)
    case Some(exchange) => Some(exchange)
    case None => ParseExchange(Normalized(s))
  }

  lemma VenueNameFacts(venue: Venue)
    ensures VenueName(venue) != "" && NoWhite(VenueName(venue)) && ':' !in VenueName(venue)
    ensures ParseVenue(VenueName(venue)) == Some(venue)
  {
    VenueNameLetters(venue);
    VenueNameParses(venue);
  }

  lemma VenueNameLetters(venue: Venue)
    ensures VenueName(venue) != "" && NoWhite(VenueName(venue)) && ':' !in VenueName(venue)
  {
  }

  lemma VenueNameParses(venue: Venue)
    ensures ParseVenue(VenueName(venue)) == Some(venue)
  {
    hide EqualIgnoringCase;
    var name := VenueName(venue);
    LengthsDecide(name, "bybit");
    LengthsDecide(name, "binance");
    LengthsDecide(name, "hyperliquid");
    LengthsDecide(name, "okx");
    LengthsDecide(name, "okex");
    NameIsFound(venue);
  }

  lemma LengthsDecide(a: string, b: string)
    ensures |a| != |b| ==> !EqualIgnoringCase(a, b)
  {
  }

  lemma NameIsFound(venue: Venue)
    ensures match venue
            case Bybit => EqualIgnoringCase("Bybit", "bybit")
            case Binance => EqualIgnoringCase("Binance", "binance")
            case Hyperliquid => EqualIgnoringCase("Hyperliquid", "hyperliquid")
            case Okex => EqualIgnoringCase("OKX", "okx")
            case Mexc => EqualIgnoringCase("MEXC", "mexc") && !EqualIgnoringCase("MEXC", "okex")
  {
    assert Lower("MEXC"[0]) != Lower("okex"[0]);
  }

  lemma MarketNameFacts(market: MarketKind)
    ensures MarketName(market) != "" && NoWhite(MarketName(market)) && ':' !in MarketName(market)
    ensures ParseMarket(MarketName(market)) == Some(market)
  {
  }

  lemma {:induction false} NormalizedName(venue: string, market: MarketKind)
    ensures Normalized(venue + MarketName(market)) == venue + " " + MarketName(market)
  {
    var name := MarketName(market);
    var s := venue + name;
    assert s[|s| - |name|..] == name && s[..|s| - |name|] == venue;
    assert s[|s| - 1] == name[|name| - 1];
    SuffixEndsAlike(s, "Linear");
    SuffixEndsAlike(s, "Inverse");
    SuffixEndsAlike(s, "Spot");
  }

  lemma SuffixEndsAlike(s: string, suffix: string)
    requires s != "" && suffix != ""
    ensures StripSuffix(s, suffix).Some? ==> s[|s| - 1] == suffix[|suffix| - 1]
  {
    if StripSuffix(s, suffix).Some? {
      assert s[|s| - |suffix|..][|suffix| - 1] == s[|s| - 1];
    }
  }

  // Both printed forms of an exchange, with and without its space, parse back
  // to it, and neither holds a colon in its short form.
  lemma {:induction false} ExchangeNameRoundTrip(exchange: Exchange)
    ensures ParseExchange(Display(exchange)) == Some(exchange)
    ensures StringToExchange(Display(exchange)) == Some(exchange)
    ensures StringToExchange(ExchangeToString(exchange)) == Some(exchange)
    ensures ':' !in ExchangeToString(exchange)
  {
    var (venue, market) := (VenueOf(exchange), MarketOf(exchange));
    var (v, m) := (VenueName(venue), MarketName(market));
    VenueNameFacts(venue);
    MarketNameFacts(market);
    FromVenueAndMarketIsExact(venue, market);
    hide VenueName, MarketName, ParseVenue, ParseMarket, FromVenueAndMarket, VenueOf, MarketOf, Normalized;
    TwoWords(v, m);
    ShortName(exchange);
    OneWord(v + m);
    NormalizedName(v, market);
  }

  lemma {:induction false} ShortName(exchange: Exchange)
    ensures ExchangeToString(exchange) == VenueName(VenueOf(exchange)) + MarketName(MarketOf(exchange))
  {
    VenueNameFacts(VenueOf(exchange));
    MarketNameFacts(MarketOf(exchange));
    hide VenueName, MarketName, VenueOf, MarketOf, ParseVenue, ParseMarket;
    SpaceRemoved(VenueName(VenueOf(exchange)), MarketName(MarketOf(exchange)));
  }

  lemma {:induction false} SpaceRemoved(a: string, b: string)
    requires NoWhite(a) && NoWhite(b)
    ensures WithoutSpaces(a + " " + b) == a + b
  {
    NoSpacesToRemove(a);
    NoSpacesToRemove(b);
    WithoutSpacesOfConcat(a + " ", b);
    WithoutSpacesOfConcat(a, " ");
    assert " "[1..] == "";
  }

  // ---------------------------------------------------------------------
  // Every text that is read as an exchange
  // ---------------------------------------------------------------------

  // Its printed name in any letter case; OKX has an older name too.
  predicate NamesVenue(s: string, venue: Venue) {
    EqualIgnoringCase(s, VenueName(venue)) || (venue == Okex && EqualIgnoringCase(s, "okex"))
  }

  predicate NamesMarket(s: string, market: MarketKind) { EqualIgnoringCase(s, MarketName(market)) }

  lemma AlikeInCase(s: string, a: string, b: string)
    requires EqualIgnoringCase(a, b)
    ensures EqualIgnoringCase(s, a) <==> EqualIgnoringCase(s, b)
  {
  }

  lemma NotBoth(s: string)
    ensures !(EqualIgnoringCase(s, "okex") && EqualIgnoringCase(s, "mexc"))
  {
    if |s| == 4 {
      assert Lower("mexc"[0]) != Lower("okex"[0]);
    }
  }

  lemma VenueTextIsExact(s: string, venue: Venue)
    ensures ParseVenue(s) == Some(venue) <==> NamesVenue(s, venue)
  {
    hide EqualIgnoringCase;
    NameIsFound(venue);
    NotBoth(s);
    LengthsDecide(s, "bybit");
    LengthsDecide(s, "binance");
    LengthsDecide(s, "hyperliquid");
    LengthsDecide(s, "okx");
    LengthsDecide(s, "okex");
    LengthsDecide(s, "mexc");
    match venue
    case Bybit => AlikeInCase(s, "Bybit", "bybit");
    case Binance => AlikeInCase(s, "Binance", "binance");
    case Hyperliquid => AlikeInCase(s, "Hyperliquid", "hyperliquid");
    case Okex => AlikeInCase(s, "OKX", "okx");
    case Mexc => AlikeInCase(s, "MEXC", "mexc");
  }

  lemma MarketTextIsExact(s: string, market: MarketKind)
    ensures ParseMarket(s) == Some(market) <==> NamesMarket(s, market)
  {
    MarketIsFound();
    hide EqualIgnoringCase;
    LengthsDecide(s, "spot");
    LengthsDecide(s, "linear");
    LengthsDecide(s, "inverse");
    match market
    case Spot => AlikeInCase(s, "Spot", "spot");
    case LinearPerps => AlikeInCase(s, "Linear", "linear");
    case InversePerps => AlikeInCase(s, "Inverse", "inverse");
  }

  lemma MarketIsFound()
    ensures EqualIgnoringCase("Spot", "spot") && EqualIgnoringCase("Linear", "linear") && EqualIgnoringCase("Inverse", "inverse")
  {
  }

  // A text is read as an exchange exactly when it has two words, one that
  // names its venue and then one that names its market.
  lemma ExchangeTextIsExact(s: string, exchange: Exchange)
    ensures ParseExchange(s) == Some(exchange)
       <==> (&& |Words(s)| == 2
             && NamesVenue(Words(s)[0], VenueOf(exchange)) && NamesMarket(Words(s)[1], MarketOf(exchange)))
  {
    hide ParseVenue, ParseMarket, NamesVenue, NamesMarket, VenueOf, MarketOf, FromVenueAndMarket, Words;
    var words := Words(s);
    if |words| == 2 {
      VenueTextIsExact(words[0], VenueOf(exchange));
      MarketTextIsExact(words[1], MarketOf(exchange));
      if ParseVenue(words[0]).Some? && ParseMarket(words[1]).Some? {
        FromVenueAndMarketIsExact(ParseVenue(words[0]).value, ParseMarket(words[1]).value);
      }
    }
  }
}
