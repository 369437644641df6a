/**
 What the sanitiser warns of (data/src/lib.rs): the faults of the document it
 is given, in the order in which they stand there.
 */
module SavedStateFaults {
  import opened Basics
  import opened SavedState
  import opened SavedStateProofs
  import opened SavedStateTrees
  import opened SavedStateKept
  import opened SavedStateUnique

  ghost predicate UnknownVisual(settings: Fields) {
    VisualConfig in settings && settings[VisualConfig] != Null && !KnownTag(settings[VisualConfig], VisualTags())
  }

  // Legacy levels that the indicator settings can take over.
  ghost predicate LevelsToMove(settings: Fields) {
    && !UnknownVisual(settings) && HasKlineConfig(settings)
    && (var kline := settings[VisualConfig].fields[Kline].fields;
        GexLevels in kline && (IndicatorConfigs in kline ==> kline[IndicatorConfigs].Object?))
  }

  // One warning for each entry of a list that does not pass.
  ghost function ValueFaults(schema: Schema, pass: Pass, v: Json): seq<Warning> {
    match pass
    case CheckNews => if schema(NewsConfig, v) then [] else [NewsFiltersInvalid]
    case CheckReference => if v == Null || schema(TickerInfo, v) then [] else [DroppedReference]
    case CheckKlineKind => if v == Text(Candles) || KnownTag(v, {Footprint}) then [] else [KlineKindUnknown]
    case CheckSettings =>
      if !v.Object? then [SettingsInvalid]
      else (if UnknownVisual(v.fields) then [VisualConfigDropped] else [])
           + (if LevelsToMove(v.fields) then [GexLevelsMigrated] else [])
    case _ =>
      if v.List? then Repeated(DropWarning(pass), Failing(schema, pass, v.items)) else [ListWarning(pass)]
  }

  ghost function Repeated(warning: Warning, n: nat): (r: seq<Warning>) { seq(n, _ => warning) }

  ghost function Failing(schema: Schema, pass: Pass, items: seq<Json>): nat {
    CountBounded(Passing(schema, pass, items));
    |items| - Count(Passing(schema, pass, items))
  }

  lemma {:induction false} CountBounded(flags: seq<bool>)
    ensures Count(flags) <= |flags|
  {
    if flags != [] {
      CountBounded(flags[..|flags| - 1]);
    }
  }

  ghost function FieldFaults(schema: Schema, check: Option<Pass>, fields: Fields, key: Word): seq<Warning> {
    if check.Some? && key in fields then ValueFaults(schema, check.value, fields[key]) else []
  }

  ghost function LeafFaults(schema: Schema, tag: Word, fields: Fields): seq<Warning> {
    Joined(KeyFaults(schema, tag, fields, Config), KeyFaults(schema, tag, fields, LiquidityReference),
           KeyFaults(schema, tag, fields, Indicators), KeyFaults(schema, tag, fields, StreamType),
           KeyFaults(schema, tag, fields, Kind), KeyFaults(schema, tag, fields, Settings))
  }

  ghost function KeyFaults(schema: Schema, tag: Word, fields: Fields, key: Word): seq<Warning> {
    FieldFaults(schema, CheckOf(tag, key), fields, key)
  }

  ghost function Joined(a: seq<Warning>, b: seq<Warning>, c: seq<Warning>, d: seq<Warning>, e: seq<Warning>, f: seq<Warning>): seq<Warning> {
    a + b + c + d + e + f
  }

  ghost function PaneFaults(schema: Schema, v: Json): seq<Warning>
    decreases v
  {
    if !v.Object? then [PaneInvalid]
    else if |v.fields| != 1 then [PaneMalformed]
    else if Split in v.fields then
      if !v.fields[Split].Object? then [SplitInvalid]
      else
        var split := v.fields[Split].fields;
        (if KnownAxis(split) then [] else [AxisInvalid])
        + (if BranchA in split then PaneFaults(schema, split[BranchA]) else [])
        + (if BranchB in split then PaneFaults(schema, split[BranchB]) else [])
    else
      var tag := OnlyKey(v.fields);
      if !KnownKind(tag) then [PaneTypeUnknown(tag)]
      else if v.fields[tag].Object? then LeafFaults(schema, tag, v.fields[tag].fields)
      else []
  }

  ghost function PopoutFaults(schema: Schema, entry: Json): seq<Warning> {
    if !entry.List? then [DroppedPopoutEntry]
    else if |entry.items| != 2 then [DroppedPopoutTuple]
    else PaneFaults(schema, entry.items[0])
  }

  ghost function PopoutsFaults(schema: Schema, entries: seq<Json>): seq<Warning> {
    if entries == [] then []
    else PopoutsFaults(schema, entries[..|entries| - 1]) + PopoutFaults(schema, entries[|entries| - 1])
  }

  ghost function DashboardFaults(schema: Schema, v: Json): seq<Warning> {
    if !v.Object? then [DashboardInvalid]
    else
      (if Pane in v.fields then PaneFaults(schema, v.fields[Pane]) else [])
      + (if Popout in v.fields && v.fields[Popout].List? then PopoutsFaults(schema, v.fields[Popout].items) else [])
  }

  // A name that is no text is replaced without a warning.
  ghost function LayoutFaults(schema: Schema, v: Json): seq<Warning> {
    if !v.Object? then [LayoutInvalid]
    else if Dashboard in v.fields then DashboardFaults(schema, v.fields[Dashboard])
    else []
  }

  ghost function LayoutsFaults(schema: Schema, layouts: seq<Json>): seq<Warning> {
    if layouts == [] then []
    else LayoutsFaults(schema, layouts[..|layouts| - 1]) + LayoutFaults(schema, layouts[|layouts| - 1])
  }

  ghost function ManagerFaults(schema: Schema, v: Json): seq<Warning> {
    if !v.Object? then [LayoutManagerInvalid]
    else if Layouts in v.fields && v.fields[Layouts].List? then LayoutsFaults(schema, v.fields[Layouts].items)
    else [LayoutsMissing]
  }

  // The decoder refuses the table even with its fields repaired.
  ghost predicate Refused(schema: Schema, table: Fields) {
    exists repaired :: TableFieldsKept(schema, table, repaired) && !schema(TableSettings, Object(repaired))
  }

  ghost function TableFaults(schema: Schema, v: Json): seq<Warning> {
    match v
    case Null => []
    case Object(fields) =>
      FieldFaults(schema, TableCheck(FavoritedTickers), fields, FavoritedTickers)
      + FieldFaults(schema, TableCheck(SelectedExchanges), fields, SelectedExchanges)
      + FieldFaults(schema, TableCheck(SelectedMarkets), fields, SelectedMarkets)
      + (if Refused(schema, fields) then [TableIncompatible] else [])
    case _ => [TableInvalid]
  }

  ghost function SidebarFaults(schema: Schema, v: Json): seq<Warning> {
    if !v.Object? then [SidebarInvalid]
    else
      (if KnownPosition(v.fields) then [] else [PositionUnknown])
      + (if TickersTable in v.fields then TableFaults(schema, v.fields[TickersTable]) else [])
  }

  ghost function RootFaults(schema: Schema, v: Json): seq<Warning> {
    if !v.Object? then [RootInvalid]
    else
      (if LayoutManager in v.fields then ManagerFaults(schema, v.fields[LayoutManager]) else [])
      + (if Sidebar in v.fields then SidebarFaults(schema, v.fields[Sidebar]) else [])
  }

  // ---------------------------------------------------------------------
  // The passes warn of these
  // ---------------------------------------------------------------------

  lemma {:induction false} DropsAreCounted(schema: Schema, pass: Pass, items: seq<Json>)
    requires IsListPass(pass)
    ensures DropWarnings(schema, pass, items) == Repeated(DropWarning(pass), Failing(schema, pass, items))
    decreases |items|
  {
    hide Keeps, DropWarning;
    if items != [] {
      var last, flags := |items| - 1, Passing(schema, pass, items);
      DropsAreCounted(schema, pass, items[..last]);
      assert flags[..last] == Passing(schema, pass, items[..last]);
      CountBounded(flags[..last]);
    }
  }

  lemma SettingsFaults(settings: Fields)
    ensures RepairSettings(settings).warnings
         == (if UnknownVisual(settings) then [VisualConfigDropped] else [])
            + (if LevelsToMove(settings) then [GexLevelsMigrated] else [])
  {
    hide MoveGexLevels;
    var known := KnownVisual(settings);
    if HasKlineConfig(known) {
      assert !UnknownVisual(settings);
      MovedWarnings(settings[VisualConfig].fields[Kline].fields);
    }
  }

  lemma MovedWarnings(kline: Fields)
    ensures MoveGexLevels(kline).warnings
         == if GexLevels in kline && (IndicatorConfigs in kline ==> kline[IndicatorConfigs].Object?) then [GexLevelsMigrated] else []
  {
  }

  lemma {:induction false} ValueIsReported(schema: Schema, pass: Pass, v: Json)
    ensures Apply(schema, pass, v).warnings == ValueFaults(schema, pass, v)
  {
    hide RepairSettings, UnknownVisual, LevelsToMove, DropWarnings, Repeated, Failing, Kept;
    if IsListPass(pass) && v.List? {
      DropsAreCounted(schema, pass, v.items);
    } else if pass.CheckSettings? && v.Object? {
      SettingsFaults(v.fields);
    }
  }

  // The faults of a field do not depend on the fields before it.
  lemma {:induction false} StepIsReported(schema: Schema, steps: seq<Step>, fields: Fields)
    requires steps != [] && DistinctKeys(steps)
    ensures var last := |steps| - 1;
            ApplySteps(schema, steps, fields).warnings
            == ApplySteps(schema, steps[..last], fields).warnings
               + FieldFaults(schema, Some(steps[last].pass), fields, steps[last].key)
  {
    hide Apply, ValueFaults;
    var last := |steps| - 1;
    assert !Touches(steps[..last], steps[last].key);
    OtherFieldsKept(schema, steps[..last], fields, steps[last].key);
    if steps[last].key in fields {
      ValueIsReported(schema, steps[last].pass, fields[steps[last].key]);
    }
  }

  ghost function StepFaults(schema: Schema, step: Step, fields: Fields): seq<Warning> {
    FieldFaults(schema, Some(step.pass), fields, step.key)
  }

  ghost function StepsFaults(schema: Schema, steps: seq<Step>, fields: Fields): seq<Warning> {
    if steps == [] then []
    else StepsFaults(schema, steps[..|steps| - 1], fields) + StepFaults(schema, steps[|steps| - 1], fields)
  }

  lemma {:induction false} StepsAreReported(schema: Schema, steps: seq<Step>, fields: Fields)
    requires DistinctKeys(steps)
    ensures ApplySteps(schema, steps, fields).warnings == StepsFaults(schema, steps, fields)
    decreases |steps|
  {
    hide ApplyStep, FieldFaults;
    if steps != [] {
      StepIsReported(schema, steps, fields);
      StepsAreReported(schema, steps[..|steps| - 1], fields);
    }
  }

  lemma StepsOfOne(schema: Schema, steps: seq<Step>, fields: Fields)
    requires |steps| == 1
    ensures StepsFaults(schema, steps, fields) == StepFaults(schema, steps[0], fields)
  {
    hide StepFaults;
  }

  lemma StepsOfTwo(schema: Schema, steps: seq<Step>, fields: Fields)
    requires |steps| == 2
    ensures StepsFaults(schema, steps, fields) == StepFaults(schema, steps[0], fields) + StepFaults(schema, steps[1], fields)
  {
    hide StepFaults;
    StepsOfOne(schema, steps[..1], fields);
  }

  lemma StepsOfThree(schema: Schema, steps: seq<Step>, fields: Fields)
    requires |steps| == 3
    ensures StepsFaults(schema, steps, fields)
         == StepFaults(schema, steps[0], fields) + StepFaults(schema, steps[1], fields) + StepFaults(schema, steps[2], fields)
  {
    hide StepFaults;
    StepsOfTwo(schema, steps[..2], fields);
  }

  lemma StepsOfFour(schema: Schema, steps: seq<Step>, fields: Fields)
    requires |steps| == 4
    ensures StepsFaults(schema, steps, fields)
         == StepFaults(schema, steps[0], fields) + StepFaults(schema, steps[1], fields)
            + StepFaults(schema, steps[2], fields) + StepFaults(schema, steps[3], fields)
  {
    hide StepFaults;
    StepsOfThree(schema, steps[..3], fields);
  }

  lemma StepIsOfKey(schema: Schema, tag: Word, fields: Fields, j: nat)
    requires PaneSteps(tag).Some? && j < |PaneSteps(tag).value|
    ensures var step := PaneSteps(tag).value[j];
            StepFaults(schema, step, fields) == KeyFaults(schema, tag, fields, step.key)
  {
    hide PaneSteps, CheckOf, FieldFaults;
    StepIsListed(tag, j);
  }

  // The fields checked in each kind of pane, in the order of the passes.
  lemma KeysInOrder(tag: Word)
    requires PaneSteps(tag).Some?
    ensures var steps := PaneSteps(tag).value;
            && (tag == Starter ==> steps == [])
            && (tag == NewsTracker ==> |steps| == 1 && steps[0].key == Config)
            && (tag in {HeatmapChart, ShaderHeatmap} ==>
                  |steps| == 3 && steps[0].key == Indicators && steps[1].key == StreamType && steps[2].key == Settings)
            && (tag == KlineChart ==>
                  && |steps| == 4 && steps[0].key == Indicators && steps[1].key == StreamType
                  && steps[2].key == Kind && steps[3].key == Settings)
            && (tag == GexChart ==> |steps| == 2 && steps[0].key == LiquidityReference && steps[1].key == Settings)
            && (tag in {ComparisonChart, TimeAndSales, Ladder} ==>
                  |steps| == 2 && steps[0].key == StreamType && steps[1].key == Settings)
  {
    hide Empty;
  }

  lemma UncheckedIsSilent(schema: Schema, tag: Word, fields: Fields, key: Word)
    ensures CheckOf(tag, key) == None ==> KeyFaults(schema, tag, fields, key) == []
  {
    hide CheckOf;
  }

  lemma UncheckedKeys(tag: Word)
    ensures tag != NewsTracker ==> CheckOf(tag, Config) == None
    ensures tag != GexChart ==> CheckOf(tag, LiquidityReference) == None
    ensures tag !in {HeatmapChart, ShaderHeatmap, KlineChart} ==> CheckOf(tag, Indicators) == None
    ensures tag in {Starter, NewsTracker, GexChart} ==> CheckOf(tag, StreamType) == None
    ensures tag != KlineChart ==> CheckOf(tag, Kind) == None
    ensures tag in {Starter, NewsTracker} ==> CheckOf(tag, Settings) == None
  {
  }

  lemma JoinedParts(a: seq<Warning>, b: seq<Warning>, c: seq<Warning>, d: seq<Warning>, e: seq<Warning>, f: seq<Warning>)
    ensures a == b == [] ==> Joined(a, b, c, d, e, f) == c + d + e + f
    ensures a == b == e == [] ==> Joined(a, b, c, d, e, f) == c + d + f
    ensures a == b == c == e == [] ==> Joined(a, b, c, d, e, f) == d + f
    ensures a == c == d == e == [] ==> Joined(a, b, c, d, e, f) == b + f
    ensures b == c == d == e == f == [] ==> Joined(a, b, c, d, e, f) == a
  {
  }

  lemma {:induction false} LeafIsReported(schema: Schema, tag: Word, fields: Fields)
    requires AcceptsDefaults(schema) && PaneSteps(tag).Some?
    ensures ApplySteps(schema, PaneSteps(tag).value, fields).warnings == LeafFaults(schema, tag, fields)
  {
    PaneStepsAreProper(schema, tag);
    KindsAreKnown(tag);
    hide AcceptsDefaults, ApplySteps, DefaultsPass, DistinctKeys, StepsFaults, PaneSteps, LeafFaults;
    StepsAreReported(schema, PaneSteps(tag).value, fields);
    if tag == KlineChart {
      KlineFaults(schema, fields);
    } else if tag in {HeatmapChart, ShaderHeatmap} {
      HeatmapFaults(schema, tag, fields);
    } else if tag in {Starter, NewsTracker} {
      SmallFaults(schema, tag, fields);
    } else {
      ChartFaults(schema, tag, fields);
    }
  }

  lemma KeysJoined(schema: Schema, tag: Word, fields: Fields)
    ensures var (c, l, i, s, k, t) := (KeyFaults(schema, tag, fields, Config), KeyFaults(schema, tag, fields, LiquidityReference),
                                       KeyFaults(schema, tag, fields, Indicators), KeyFaults(schema, tag, fields, StreamType),
                                       KeyFaults(schema, tag, fields, Kind), KeyFaults(schema, tag, fields, Settings));
            && (tag == KlineChart ==> LeafFaults(schema, tag, fields) == i + s + k + t)
            && (tag in {HeatmapChart, ShaderHeatmap} ==> LeafFaults(schema, tag, fields) == i + s + t)
            && (tag in {ComparisonChart, TimeAndSales, Ladder} ==> LeafFaults(schema, tag, fields) == s + t)
            && (tag == GexChart ==> LeafFaults(schema, tag, fields) == l + t)
            && (tag in {Starter, NewsTracker} ==> LeafFaults(schema, tag, fields) == c)
            && (tag == Starter ==> c == [])
  {
    hide CheckOf, KeyFaults, Joined;
    UncheckedKeys(tag);
    UncheckedIsSilent(schema, tag, fields, Config);
    UncheckedIsSilent(schema, tag, fields, LiquidityReference);
    UncheckedIsSilent(schema, tag, fields, Indicators);
    UncheckedIsSilent(schema, tag, fields, StreamType);
    UncheckedIsSilent(schema, tag, fields, Kind);
    UncheckedIsSilent(schema, tag, fields, Settings);
    JoinedParts(KeyFaults(schema, tag, fields, Config), KeyFaults(schema, tag, fields, LiquidityReference),
                KeyFaults(schema, tag, fields, Indicators), KeyFaults(schema, tag, fields, StreamType),
                KeyFaults(schema, tag, fields, Kind), KeyFaults(schema, tag, fields, Settings));
  }

  lemma KlineFaults(schema: Schema, fields: Fields)
    requires PaneSteps(KlineChart).Some?
    ensures StepsFaults(schema, PaneSteps(KlineChart).value, fields) == LeafFaults(schema, KlineChart, fields)
  {
    hide StepsFaults, StepFaults, KeyFaults, LeafFaults, PaneSteps;
    KeysInOrder(KlineChart);
    KeysJoined(schema, KlineChart, fields);
    StepsOfFour(schema, PaneSteps(KlineChart).value, fields);
    StepIsOfKey(schema, KlineChart, fields, 0);
    StepIsOfKey(schema, KlineChart, fields, 1);
    StepIsOfKey(schema, KlineChart, fields, 2);
    StepIsOfKey(schema, KlineChart, fields, 3);
  }

  lemma HeatmapFaults(schema: Schema, tag: Word, fields: Fields)
    requires tag in {HeatmapChart, ShaderHeatmap} && PaneSteps(tag).Some?
    ensures StepsFaults(schema, PaneSteps(tag).value, fields) == LeafFaults(schema, tag, fields)
  {
    hide StepsFaults, StepFaults, KeyFaults, LeafFaults, PaneSteps;
    KeysInOrder(tag);
    KeysJoined(schema, tag, fields);
    StepsOfThree(schema, PaneSteps(tag).value, fields);
    StepIsOfKey(schema, tag, fields, 0);
    StepIsOfKey(schema, tag, fields, 1);
    StepIsOfKey(schema, tag, fields, 2);
  }

  lemma SmallFaults(schema: Schema, tag: Word, fields: Fields)
    requires tag in {Starter, NewsTracker} && PaneSteps(tag).Some?
    ensures StepsFaults(schema, PaneSteps(tag).value, fields) == LeafFaults(schema, tag, fields)
  {
    hide StepsFaults, StepFaults, KeyFaults, LeafFaults, PaneSteps;
    KeysInOrder(tag);
    KeysJoined(schema, tag, fields);
    if tag == Starter {
      NoSteps(schema, fields);
    } else {
      StepsOfOne(schema, PaneSteps(tag).value, fields);
      StepIsOfKey(schema, tag, fields, 0);
    }
  }

  lemma ChartFaults(schema: Schema, tag: Word, fields: Fields)
    requires tag in {GexChart, ComparisonChart, TimeAndSales, Ladder} && PaneSteps(tag).Some?
    ensures StepsFaults(schema, PaneSteps(tag).value, fields) == LeafFaults(schema, tag, fields)
  {
    hide StepsFaults, StepFaults, KeyFaults, LeafFaults, PaneSteps;
    KeysInOrder(tag);
    KeysJoined(schema, tag, fields);
    StepsOfTwo(schema, PaneSteps(tag).value, fields);
    StepIsOfKey(schema, tag, fields, 0);
    StepIsOfKey(schema, tag, fields, 1);
  }

  lemma NoSteps(schema: Schema, fields: Fields)
    ensures StepsFaults(schema, [], fields) == []
  {
  }

  lemma {:induction false} PaneIsReported(schema: Schema, v: Json)
    requires AcceptsDefaults(schema)
    ensures SanitizePane(schema, v).warnings == PaneFaults(schema, v)
    decreases v
  {
    hide AcceptsDefaults, ApplySteps, PaneSteps, RepairedSplit, KnownAxis, DefaultPane, LeafFaults, KnownKind;
    if v.Object? && |v.fields| == 1 {
      var tag := OnlyKey(v.fields);
      OnlyKeyIs(v.fields, tag);
      KindsAreKnown(tag);
      if Split in v.fields {
        if v.fields[Split].Object? {
          var split := v.fields[Split].fields;
          if BranchA in split { PaneIsReported(schema, split[BranchA]); }
          if BranchB in split { PaneIsReported(schema, split[BranchB]); }
        }
      } else if KnownKind(tag) && v.fields[tag].Object? {
        LeafIsReported(schema, tag, v.fields[tag].fields);
      }
    }
  }

  lemma {:induction false} PopoutsAreReported(schema: Schema, entries: seq<Json>)
    requires AcceptsDefaults(schema)
    ensures SanitizePopouts(schema, entries).warnings == PopoutsFaults(schema, entries)
    decreases |entries|
  {
    hide AcceptsDefaults, SanitizePane, PaneFaults;
    if entries != [] {
      var entry := entries[|entries| - 1];
      PopoutsAreReported(schema, entries[..|entries| - 1]);
      if IsPair(entry) {
        PaneIsReported(schema, entry.items[0]);
      }
    }
  }

  lemma {:induction false} DashboardIsReported(schema: Schema, v: Json)
    requires AcceptsDefaults(schema)
    ensures SanitizeDashboard(schema, v).warnings == DashboardFaults(schema, v)
  {
    hide AcceptsDefaults, SanitizePane, SanitizePopouts, PaneFaults, PopoutsFaults;
    if v.Object? {
      if Pane in v.fields { PaneIsReported(schema, v.fields[Pane]); }
      if Popout in v.fields && v.fields[Popout].List? { PopoutsAreReported(schema, v.fields[Popout].items); }
    }
  }

  lemma {:induction false} LayoutsAreReported(schema: Schema, layouts: seq<Json>)
    requires AcceptsDefaults(schema)
    ensures SanitizeLayouts(schema, layouts).warnings == LayoutsFaults(schema, layouts)
    decreases |layouts|
  {
    hide AcceptsDefaults, SanitizeDashboard, DashboardFaults;
    if layouts != [] {
      var layout := layouts[|layouts| - 1];
      LayoutsAreReported(schema, layouts[..|layouts| - 1]);
      if layout.Object? {
        DashboardIsReported(schema, if Dashboard in layout.fields then layout.fields[Dashboard] else Empty());
        EmptyDashboard(schema);
      }
    }
  }

  lemma EmptyDashboard(schema: Schema)
    ensures DashboardFaults(schema, Empty()) == []
  {
  }

  lemma {:induction false} TableIsReported(schema: Schema, v: Json)
    requires AcceptsDefaults(schema)
    ensures SanitizeTable(schema, v).warnings == TableFaults(schema, v)
  {
    hide AcceptsDefaults, ApplySteps, TableDefaults, FieldKept, Refused, FieldFaults, StepsFaults, TableFieldsKept, TableCheck, DistinctKeys;
    if v.Object? {
      var filled := TableDefaults() + v.fields;
      var repaired := ApplySteps(schema, TableSteps(), filled);
      forall key ensures FieldKept(schema, TableCheck(key), TableFiller(key), v.fields, repaired.value.fields, key) {
        TableFieldsAreKept(schema, v.fields, key);
      }
      RefusalIsDecided(schema, v.fields, repaired.value.fields);
      TableDefaultsAreClean(schema);
      StepsAreReported(schema, TableSteps(), filled);
      TableStepIsReported(schema, v.fields, 0);
      StepsOfThree(schema, TableSteps(), filled);
      TableStepIsReported(schema, v.fields, 1);
      TableStepIsReported(schema, v.fields, 2);
    }
  }

  lemma RefusalIsDecided(schema: Schema, fields: Fields, repaired: Fields)
    requires forall key :: FieldKept(schema, TableCheck(key), TableFiller(key), fields, repaired, key)
    ensures Refused(schema, fields) <==> !schema(TableSettings, Object(repaired))
  {
    hide FieldKept;
    assert TableFieldsKept(schema, fields, repaired);
    forall other | TableFieldsKept(schema, fields, other) ensures other == repaired {
      TableFieldsAreKeptOneWay(schema, fields, other, repaired);
    }
  }

  // The defaults that fill the table have no faults.
  lemma {:induction false} TableStepIsReported(schema: Schema, fields: Fields, k: nat)
    requires AcceptsDefaults(schema) && k < 3
    ensures |TableSteps()| == 3
    ensures var key := if k == 0 then FavoritedTickers else if k == 1 then SelectedExchanges else SelectedMarkets;
            StepFaults(schema, TableSteps()[k], TableDefaults() + fields) == FieldFaults(schema, TableCheck(key), fields, key)
  {
    hide AcceptsDefaults, Passes, ValueFaults, TableDefaults, TableSteps, TableCheck;
    TableStepAt(k);
    var key := TableSteps()[k].key;
    FillerExists(key);
    if key !in fields {
      FillerHasNoFaults(schema, key);
    }
  }

  lemma {:induction false} FillerHasNoFaults(schema: Schema, key: Word)
    requires AcceptsDefaults(schema) && TableCheck(key).Some? && key in TableDefaults()
    ensures ValueFaults(schema, TableCheck(key).value, TableDefaults()[key]) == []
  {
    var pass, default := TableCheck(key).value, TableDefaults()[key];
    assert forall i :: 0 <= i < |default.items| ==> Keeps(schema, pass, default.items[i]);
    CleanListIsKept(schema, pass, default.items);
    DropsAreCounted(schema, pass, default.items);
  }

  // The main result, for every JSON value: a migration warns of the faults of
  // the document, each in its place, and of nothing else.
  lemma {:induction false} MigrationIsReported(schema: Schema, v: Json)
    requires AcceptsDefaults(schema)
    ensures MigrateRoot(schema, v).warnings == RootFaults(schema, v)
  {
    hide AcceptsDefaults, SanitizeLayouts, SanitizeTable, LayoutsFaults, TableFaults;
    if v.Object? {
      if LayoutManager in v.fields && v.fields[LayoutManager].Object? {
        var manager := v.fields[LayoutManager].fields;
        if Layouts in manager && manager[Layouts].List? {
          LayoutsAreReported(schema, manager[Layouts].items);
        }
      }
      if Sidebar in v.fields && v.fields[Sidebar].Object? {
        var sidebar := v.fields[Sidebar].fields;
        if TickersTable in sidebar {
          TableIsReported(schema, sidebar[TickersTable]);
        }
      }
    }
  }
}
