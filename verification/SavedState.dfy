/**
 The saved-state sanitiser (data/src/lib.rs): what each pass makes of a JSON
 value, which values are clean, and that a pass reaches exactly those.
 */
module SavedState {
  import opened Basics

  // The strings of a document, as keys and as text. Those the program looks for
  // are named after their spelling (`BranchA` is "a"); any other is `Other`.
  datatype Word =
    | ActiveLayout | Axis | Binance | BranchA | BranchB | Bybit | Candles | Comparison | ComparisonChart
    | Config | Dashboard | Default | Depth | DepthAndTrades | FavoritedTickers | Footprint | Gex | GexChart
    | GexLevels | Heatmap | HeatmapChart | Horizontal | Hyperliquid | IndicatorConfigs | Indicators
    | InversePerps | Kind | Kline | KlineChart | Ladder | LayoutManager | Layouts | Left | LinearPerps
    | LinkGroup | LiquidityReference | Mexc | Name | NewsTracker | Okex | Pane | Popout | Position | Ratio
    | Recovered | Right | SavedStateVersion | SelectedExchanges | SelectedMarkets | SelectedSortOption
    | Settings | ShaderHeatmap | ShowFavorites | Sidebar | Split | Spot | Starter | StreamType | TickersTable
    | TimeAndSales | Trades | Vertical | VisualConfig | Volume | VolumeDesc
    | Other(text: string)

  // One constructor per warning text.
  datatype Warning =
    | AxisInvalid | DashboardInvalid | DroppedIndicator | DroppedPopoutEntry | DroppedPopoutTuple
    | DroppedReference | DroppedStream | GexLevelsMigrated | IndicatorListInvalid | KlineKindUnknown
    | LayoutInvalid | LayoutManagerInvalid | LayoutsMissing | NewsFiltersInvalid | PaneInvalid | PaneMalformed
    | PositionUnknown | RootInvalid | SettingsInvalid | SidebarInvalid | SplitInvalid | StreamListInvalid
    | TableIncompatible | TableInvalid | VisualConfigDropped
    | PaneTypeUnknown(tag: Word) | DroppedEntry(decoder: Decoder) | EntryListInvalid(decoder: Decoder)

  datatype Json =
    | Null
    | Boolean(b: bool)
    | Integer(i: int)
    | Decimal(r: real)
    | Text(word: Word)
    | List(items: seq<Json>)
    | Object(fields: map<Word, Json>)

  type Fields = map<Word, Json>

  // The program's typed decoders, of which only acceptance matters here.
  datatype Decoder = NewsConfig | KlineIndicator | TickerInfo | Ticker | Venue | Market | TableSettings | PersistStream

  type Schema = (Decoder, Json) -> bool

  // What a pass makes of a value, and the warnings it adds.
  datatype Repair = Repair(value: Json, warnings: seq<Warning>)

  const CURRENT_VERSION: nat := 1

  function Empty(): Json { Object(map[]) }

  function DefaultPane(): Json { Object(map[Starter := Object(map[LinkGroup := Null])]) }

  function DefaultLayout(): Json {
    Object(map[Name := Text(Default), Dashboard := Object(map[Pane := DefaultPane(), Popout := List([])])])
  }

  function DefaultManager(): Json {
    Object(map[Layouts := List([DefaultLayout()]), ActiveLayout := Text(Default)])
  }

  function DefaultDashboard(): Json {
    Object(map[Pane := DefaultPane(), Popout := List([])])
  }

  function DefaultSidebar(): Json {
    Object(map[Position := Text(Left), TickersTable := Null])
  }

  function TableDefaults(): Fields {
    map[
    FavoritedTickers := List([]),
    ShowFavorites := Boolean(false),
    SelectedSortOption := Text(VolumeDesc),
    SelectedExchanges := List([Text(Bybit), Text(Binance), Text(Hyperliquid), Text(Okex), Text(Mexc)]),
    SelectedMarkets := List([Text(Spot), Text(LinearPerps), Text(InversePerps)])]
  }

  // The one assumption on the decoders: they accept the program's own defaults.
  ghost predicate AcceptsDefaults(schema: Schema) {
    && schema(NewsConfig, Empty())
    && schema(TableSettings, Object(TableDefaults()))
    && (forall v :: v in TableDefaults()[SelectedExchanges].items ==> schema(Venue, v))
    && (forall v :: v in TableDefaults()[SelectedMarkets].items ==> schema(Market, v))
  }

  predicate KnownTag(v: Json, allowed: set<Word>) {
    match v
    case Text(tag) => tag in allowed
    case Object(fields) => |fields| == 1 && fields.Keys <= allowed
    case _ => false
  }

  // ---------------------------------------------------------------------
  // The passes on a single value
  // ---------------------------------------------------------------------

  function StreamTags(): set<Word> {
    {Kline, Depth, Trades, DepthAndTrades}
  }

  function VisualTags(): set<Word> {
    {Heatmap, TimeAndSales, Kline, Ladder, Comparison, Gex}
  }

  datatype Pass =
    | CheckIndicators
    | CheckStreams
    | CheckEntries(decoder: Decoder)
    | CheckKlineKind
    | CheckNews
    | CheckReference
    | CheckSettings

  predicate Keeps(schema: Schema, pass: Pass, entry: Json) {
    match pass
    case CheckIndicators => KnownTag(entry, {Volume})
    case CheckStreams => KnownTag(entry, StreamTags()) && schema(PersistStream, entry)
    case CheckEntries(decoder) => schema(decoder, entry)
    case _ => true
  }

  predicate IsListPass(pass: Pass) {
    pass.CheckIndicators? || pass.CheckStreams? || pass.CheckEntries?
  }

  // The warning for a dropped entry, and for a value that is no list.
  function DropWarning(pass: Pass): Warning
    requires IsListPass(pass)
  {
    match pass
    case CheckIndicators => DroppedIndicator
    case CheckStreams => DroppedStream
    case CheckEntries(decoder) => DroppedEntry(decoder)
  }

  function ListWarning(pass: Pass): Warning
    requires IsListPass(pass)
  {
    match pass
    case CheckIndicators => IndicatorListInvalid
    case CheckStreams => StreamListInvalid
    case CheckEntries(decoder) => EntryListInvalid(decoder)
  }

  function Kept(schema: Schema, pass: Pass, items: seq<Json>): seq<Json>
    decreases |items|
  {
    if items == [] then []
    else
      var last := items[|items| - 1];
      Kept(schema, pass, items[..|items| - 1]) + (if Keeps(schema, pass, last) then [last] else [])
  }

  function DropWarnings(schema: Schema, pass: Pass, items: seq<Json>): seq<Warning>
    requires IsListPass(pass)
    decreases |items|
  {
    if items == [] then []
    else
      var last := items[|items| - 1];
      DropWarnings(schema, pass, items[..|items| - 1]) + (if Keeps(schema, pass, last) then [] else [DropWarning(pass)])
  }

  // The legacy `gex_levels` settings of a kline chart move under `indicator_configs`.
  function MoveGexLevels(kline: Fields): Repair {
    if GexLevels !in kline then Repair(Object(kline), [])
    else
      var rest := kline - {GexLevels};
      var configs := if IndicatorConfigs in rest then rest[IndicatorConfigs] else Empty();
      match configs
      case Object(entries) =>
        var moved := if GexLevels in entries then entries else entries[GexLevels := kline[GexLevels]];
        Repair(Object(rest[IndicatorConfigs := Object(moved)]),
               [GexLevelsMigrated])
      case _ => Repair(Object(rest), [])
  }

  predicate HasKlineConfig(settings: Fields) {
    && VisualConfig in settings && settings[VisualConfig].Object?
    && Kline in settings[VisualConfig].fields && settings[VisualConfig].fields[Kline].Object?
  }

  function KnownVisual(settings: Fields): Fields {
    if VisualConfig in settings && settings[VisualConfig] != Null && !KnownTag(settings[VisualConfig], VisualTags())
    then settings - {VisualConfig}
    else settings
  }

  function RepairSettings(settings: Fields): Repair {
    var known := KnownVisual(settings);
    var dropped := if known == settings then [] else [VisualConfigDropped];
    if !HasKlineConfig(known) then Repair(Object(known), dropped)
    else
      var visual := known[VisualConfig].fields;
      var moved := MoveGexLevels(visual[Kline].fields);
      Repair(Object(known[VisualConfig := Object(visual[Kline := moved.value])]), dropped + moved.warnings)
  }

  function Apply(schema: Schema, pass: Pass, v: Json): Repair {
    if IsListPass(pass) then
      match v
      case List(items) => Repair(List(Kept(schema, pass, items)), DropWarnings(schema, pass, items))
      case _ => Repair(List([]), [ListWarning(pass)])
    else
      match pass
      case CheckNews =>
        if schema(NewsConfig, v) then Repair(v, []) else Repair(Empty(), [NewsFiltersInvalid])
      case CheckReference =>
        if v == Null || schema(TickerInfo, v) then Repair(v, [])
        else Repair(Null, [DroppedReference])
      case CheckKlineKind =>
        if v == Text(Candles) || KnownTag(v, {Footprint}) then Repair(v, [])
        else Repair(Text(Candles), [KlineKindUnknown])
      case _ =>
        match v
        case Object(settings) => RepairSettings(settings)
        case _ => Repair(Empty(), [SettingsInvalid])
  }

  // One field of an object: a missing one is left out, or filled with a
  // default that already passes.
  datatype Step = Step(key: Word, default: Option<Json>, pass: Pass)

  function ApplyStep(schema: Schema, step: Step, fields: Fields): Repair {
    if step.key in fields then
      var repaired := Apply(schema, step.pass, fields[step.key]);
      Repair(Object(fields[step.key := repaired.value]), repaired.warnings)
    else if step.default.Some? then Repair(Object(fields[step.key := step.default.value]), [])
    else Repair(Object(fields), [])
  }

  function ApplySteps(schema: Schema, steps: seq<Step>, fields: Fields): (r: Repair)
    ensures r.value.Object?
  {
    if steps == [] then Repair(Object(fields), [])
    else
      var before := ApplySteps(schema, steps[..|steps| - 1], fields);
      var after := ApplyStep(schema, steps[|steps| - 1], before.value.fields);
      Repair(after.value, before.warnings + after.warnings)
  }

  // What is looked at inside each kind of pane; `None` for an unknown kind.
  function PaneSteps(tag: Word): Option<seq<Step>> {
    var indicators := Step(Indicators, None, CheckIndicators);
    var streams := Step(StreamType, None, CheckStreams);
    var settings := Step(Settings, Some(Empty()), CheckSettings);
    match tag
    case Starter => Some([])
    case NewsTracker => Some([Step(Config, Some(Empty()), CheckNews)])
    case HeatmapChart => Some([indicators, streams, settings])
    case ShaderHeatmap => Some([indicators, streams, settings])
    case KlineChart =>
      Some([Step(Indicators, None, CheckEntries(KlineIndicator)), streams,
            Step(Kind, Some(Text(Candles)), CheckKlineKind), settings])
    case GexChart => Some([Step(LiquidityReference, None, CheckReference), settings])
    case ComparisonChart => Some([streams, settings])
    case TimeAndSales => Some([streams, settings])
    case Ladder => Some([streams, settings])
    case _ => None
  }

  // ---------------------------------------------------------------------
  // Panes, dashboards, layouts
  // ---------------------------------------------------------------------

  // The key of an object with a single field.
  ghost function OnlyKey(fields: Fields): Word
    requires |fields| == 1
  {
    var key :| key in fields;
    key
  }

  function AsNumber(v: Json): Option<real> {
    match v
    case Integer(i) => Some(i as real)
    case Decimal(r) => Some(r)
    case _ => None
  }

  function Clamp(r: real): real {
    if r < 0.05 then 0.05 else if r > 0.95 then 0.95 else r
  }

  function SplitRatio(split: Fields): real {
    var found := if Ratio in split then AsNumber(split[Ratio]) else None;
    Clamp(if found.Some? then found.value else 0.5)
  }

  predicate KnownAxis(split: Fields) {
    Axis in split && split[Axis] in {Text(Horizontal), Text(Vertical)}
  }

  function RepairedSplit(split: Fields, a: Json, b: Json): Fields {
    var axis := if KnownAxis(split) then split[Axis] else Text(Horizontal);
    split[Axis := axis][Ratio := Decimal(SplitRatio(split))][BranchA := a][BranchB := b]
  }

  ghost function SanitizePane(schema: Schema, v: Json): Repair
    decreases v
  {
    match v
    case Object(fields) =>
      if |fields| != 1 then Repair(DefaultPane(), [PaneMalformed])
      else if Split in fields then
        match fields[Split]
        case Object(split) =>
          var a := if BranchA in split then SanitizePane(schema, split[BranchA]) else Repair(DefaultPane(), []);
          var b := if BranchB in split then SanitizePane(schema, split[BranchB]) else Repair(DefaultPane(), []);
          Repair(Object(map[Split := Object(RepairedSplit(split, a.value, b.value))]),
                 (if KnownAxis(split) then [] else [AxisInvalid])
                 + a.warnings + b.warnings)
        case _ => Repair(DefaultPane(), [SplitInvalid])
      else
        var tag := OnlyKey(fields);
        (match PaneSteps(tag)
        case None => Repair(DefaultPane(), [PaneTypeUnknown(tag)])
        case Some(steps) =>
          if !fields[tag].Object? then Repair(v, [])
          else
            var repaired := ApplySteps(schema, steps, fields[tag].fields);
            Repair(Object(map[tag := repaired.value]), repaired.warnings))
    case _ => Repair(DefaultPane(), [PaneInvalid])
  }

  predicate IsPair(entry: Json) {
    entry.List? && |entry.items| == 2
  }

  ghost function SanitizePopouts(schema: Schema, entries: seq<Json>): (r: Repair)
    ensures r.value.List?
    decreases |entries|
  {
    if entries == [] then Repair(List([]), [])
    else
      var before := SanitizePopouts(schema, entries[..|entries| - 1]);
      var entry := entries[|entries| - 1];
      if !entry.List? then Repair(before.value, before.warnings + [DroppedPopoutEntry])
      else if !IsPair(entry) then Repair(before.value, before.warnings + [DroppedPopoutTuple])
      else
        var pane := SanitizePane(schema, entry.items[0]);
        Repair(List(before.value.items + [List([pane.value, entry.items[1]])]), before.warnings + pane.warnings)
  }

  ghost function SanitizeDashboard(schema: Schema, v: Json): Repair {
    match v
    case Object(fields) =>
      var pane := if Pane in fields then SanitizePane(schema, fields[Pane]) else Repair(DefaultPane(), []);
      var popout := if Popout in fields && fields[Popout].List? then SanitizePopouts(schema, fields[Popout].items)
                    else Repair(List([]), []);
      Repair(Object(fields[Pane := pane.value][Popout := popout.value]), pane.warnings + popout.warnings)
    case _ => Repair(DefaultDashboard(), [DashboardInvalid])
  }

  ghost function SanitizeLayout(schema: Schema, v: Json): Repair {
    match v
    case Object(fields) =>
      var name := if Name in fields && fields[Name].Text? then fields[Name] else Text(Recovered);
      var dashboard := SanitizeDashboard(schema, if Dashboard in fields then fields[Dashboard] else Empty());
      Repair(Object(fields[Name := name][Dashboard := dashboard.value]), dashboard.warnings)
    case _ => Repair(DefaultLayout(), [LayoutInvalid])
  }

  ghost function SanitizeLayouts(schema: Schema, layouts: seq<Json>): (r: Repair)
    ensures r.value.List?
    decreases |layouts|
  {
    if layouts == [] then Repair(List([]), [])
    else
      var before := SanitizeLayouts(schema, layouts[..|layouts| - 1]);
      var layout := SanitizeLayout(schema, layouts[|layouts| - 1]);
      Repair(List(before.value.items + [layout.value]), before.warnings + layout.warnings)
  }

  ghost function SanitizeLayoutManager(schema: Schema, v: Json): Repair {
    match v
    case Object(fields) =>
      if Layouts in fields && fields[Layouts].List? then
        var layouts := SanitizeLayouts(schema, fields[Layouts].items);
        Repair(Object(fields[Layouts := layouts.value]), layouts.warnings)
      else
        Repair(Object(fields[Layouts := List([DefaultLayout()])]), [LayoutsMissing])
    case _ => Repair(DefaultManager(), [LayoutManagerInvalid])
  }

  // ---------------------------------------------------------------------
  // Sidebar and root
  // ---------------------------------------------------------------------

  function TableSteps(): seq<Step> {
    [
    Step(FavoritedTickers, None, CheckEntries(Ticker)),
    Step(SelectedExchanges, None, CheckEntries(Venue)),
    Step(SelectedMarkets, None, CheckEntries(Market))]
  }

  function SanitizeTable(schema: Schema, v: Json): Repair {
    match v
    case Null => Repair(v, [])
    case Object(fields) =>
      var repaired := ApplySteps(schema, TableSteps(), TableDefaults() + fields);
      if schema(TableSettings, repaired.value) then repaired
      else Repair(Object(TableDefaults()),
                  repaired.warnings + [TableIncompatible])
    case _ => Repair(Null, [TableInvalid])
  }

  predicate KnownPosition(sidebar: Fields) {
    Position in sidebar && sidebar[Position] in {Text(Left), Text(Right)}
  }

  function SanitizeSidebar(schema: Schema, v: Json): Repair {
    match v
    case Object(fields) =>
      var placed := if KnownPosition(fields) then fields else fields[Position := Text(Left)];
      var moved := if KnownPosition(fields) then [] else [PositionUnknown];
      if TickersTable !in placed then Repair(Object(placed), moved)
      else
        var table := SanitizeTable(schema, placed[TickersTable]);
        Repair(Object(placed[TickersTable := table.value]), moved + table.warnings)
    case _ => Repair(DefaultSidebar(), [SidebarInvalid])
  }

  datatype Report = Report(fromVersion: nat, warnings: seq<Warning>)

  predicate Migrated(report: Report) { report.fromVersion != CURRENT_VERSION }

  // A stored version counts only when it fits an unsigned 32-bit integer.
  function StoredVersion(v: Json): nat {
    if v.Object? && SavedStateVersion in v.fields then
      match v.fields[SavedStateVersion]
      case Integer(i) => if 0 <= i < 0x1_0000_0000 then i else 0
      case _ => 0
    else 0
  }

  // The field `key` repaired in place, when there is one.
  function WithField(fields: Fields, key: Word, repaired: Option<Repair>): Fields {
    match repaired
    case Some(r) => fields[key := r.value]
    case None => fields
  }

  function Warnings(repaired: Option<Repair>): seq<Warning> {
    match repaired
    case Some(r) => r.warnings
    case None => []
  }

  ghost function RepairedManager(schema: Schema, root: Fields): Option<Repair> {
    if LayoutManager in root then Some(SanitizeLayoutManager(schema, root[LayoutManager])) else None
  }

  ghost function RepairedSidebar(schema: Schema, root: Fields): Option<Repair> {
    if Sidebar in root then Some(SanitizeSidebar(schema, root[Sidebar])) else None
  }

  ghost function MigrateRoot(schema: Schema, v: Json): Repair {
    var root := if v.Object? then v.fields else map[];
    var manager, sidebar := RepairedManager(schema, root), RepairedSidebar(schema, root);
    var versioned := root[SavedStateVersion := Integer(CURRENT_VERSION)];
    Repair(Object(WithField(WithField(versioned, LayoutManager, manager), Sidebar, sidebar)),
           (if v.Object? then [] else [RootInvalid])
           + Warnings(manager) + Warnings(sidebar))
  }

  // ---------------------------------------------------------------------
  // Clean values
  // ---------------------------------------------------------------------

  ghost predicate CleanSettings(v: Json) {
    && v.Object?
    && (VisualConfig in v.fields ==> v.fields[VisualConfig] == Null || KnownTag(v.fields[VisualConfig], VisualTags()))
    && (HasKlineConfig(v.fields) ==> GexLevels !in v.fields[VisualConfig].fields[Kline].fields)
  }

  ghost predicate Passes(schema: Schema, pass: Pass, v: Json) {
    match pass
    case CheckNews => schema(NewsConfig, v)
    case CheckReference => v == Null || schema(TickerInfo, v)
    case CheckKlineKind => v == Text(Candles) || KnownTag(v, {Footprint})
    case CheckSettings => CleanSettings(v)
    case _ => v.List? && forall i :: 0 <= i < |v.items| ==> Keeps(schema, pass, v.items[i])
  }

  ghost predicate Satisfies(schema: Schema, step: Step, fields: Fields) {
    && (step.default.Some? ==> step.key in fields)
    && (step.key in fields ==> Passes(schema, step.pass, fields[step.key]))
  }

  ghost predicate SatisfiesAll(schema: Schema, steps: seq<Step>, fields: Fields) {
    forall i :: 0 <= i < |steps| ==> Satisfies(schema, steps[i], fields)
  }

  ghost predicate ProperSplit(split: Fields) {
    KnownAxis(split) && Ratio in split && split[Ratio].Decimal? && 0.05 <= split[Ratio].r <= 0.95
  }

  ghost predicate CleanPane(schema: Schema, v: Json)
    decreases v
  {
    && v.Object? && |v.fields| == 1
    && if Split in v.fields then
         && v.fields[Split].Object?
         && (var split := v.fields[Split].fields;
             && ProperSplit(split)
             && BranchA in split && CleanPane(schema, split[BranchA])
             && BranchB in split && CleanPane(schema, split[BranchB]))
       else
         var tag := OnlyKey(v.fields);
         && PaneSteps(tag).Some?
         && (v.fields[tag].Object? ==> SatisfiesAll(schema, PaneSteps(tag).value, v.fields[tag].fields))
  }

  ghost predicate CleanPopout(schema: Schema, entry: Json) {
    IsPair(entry) && CleanPane(schema, entry.items[0])
  }

  ghost predicate CleanPopouts(schema: Schema, entries: seq<Json>) {
    forall i :: 0 <= i < |entries| ==> CleanPopout(schema, entries[i])
  }

  ghost predicate CleanDashboard(schema: Schema, v: Json) {
    && v.Object?
    && Pane in v.fields && CleanPane(schema, v.fields[Pane])
    && Popout in v.fields && v.fields[Popout].List? && CleanPopouts(schema, v.fields[Popout].items)
  }

  ghost predicate CleanLayout(schema: Schema, v: Json) {
    && v.Object?
    && Name in v.fields && v.fields[Name].Text?
    && Dashboard in v.fields && CleanDashboard(schema, v.fields[Dashboard])
  }

  ghost predicate CleanLayouts(schema: Schema, layouts: seq<Json>) {
    forall i :: 0 <= i < |layouts| ==> CleanLayout(schema, layouts[i])
  }

  ghost predicate CleanLayoutManager(schema: Schema, v: Json) {
    && v.Object?
    && Layouts in v.fields && v.fields[Layouts].List? && CleanLayouts(schema, v.fields[Layouts].items)
  }

  ghost predicate CleanTable(schema: Schema, v: Json) {
    || v == Null
    || (&& v.Object?
        && TableDefaults().Keys <= v.fields.Keys
        && SatisfiesAll(schema, TableSteps(), v.fields)
        && schema(TableSettings, v))
  }

  ghost predicate CleanSidebar(schema: Schema, v: Json) {
    && v.Object?
    && KnownPosition(v.fields)
    && (TickersTable in v.fields ==> CleanTable(schema, v.fields[TickersTable]))
  }

  ghost predicate CleanRoot(schema: Schema, v: Json) {
    && v.Object?
    && SavedStateVersion in v.fields && v.fields[SavedStateVersion] == Integer(CURRENT_VERSION)
    && (LayoutManager in v.fields ==> CleanLayoutManager(schema, v.fields[LayoutManager]))
    && (Sidebar in v.fields ==> CleanSidebar(schema, v.fields[Sidebar]))
  }
}
