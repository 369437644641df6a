/**
 What a document is after the sanitiser, in terms of what it was before
 (data/src/lib.rs): every field of every object, every entry of every list.
 The relations do not refer to the passes; each is proved of the pass's output.
 */
module SavedStateKept {
  import opened Basics
  import opened SavedState
  import opened SavedStateProofs
  import opened SavedStateTrees

  // ---------------------------------------------------------------------
  // Lists and checked values
  // ---------------------------------------------------------------------

  ghost function Count(flags: seq<bool>): nat {
    if flags == [] then 0 else Count(flags[..|flags| - 1]) + if flags[|flags| - 1] then 1 else 0
  }

  // There is one entry for each flag that is set, in their order.
  ghost predicate Selected(flags: seq<bool>, items: seq<Json>, kept: seq<Json>)
    requires |items| == |flags|
  {
    && |kept| == Count(flags)
    && forall i: nat :: i < |flags| && flags[i] ==> Count(flags[..i]) < |kept| && kept[Count(flags[..i])] == items[i]
  }

  ghost function Passing(schema: Schema, pass: Pass, items: seq<Json>): (flags: seq<bool>)
    ensures |flags| == |items| && forall i :: 0 <= i < |items| ==> flags[i] == Keeps(schema, pass, items[i])
  {
    seq(|items|, i requires 0 <= i < |items| => Keeps(schema, pass, items[i]))
  }

  // The levels leave the legacy place; the indicator settings take them over
  // when they can and do not have their own.
  ghost predicate LevelsMoved(kline: Fields, after: Fields) {
    && GexLevels !in after
    && (forall key :: key !in {GexLevels, IndicatorConfigs} ==> SameField(kline, after, key))
    && if GexLevels !in kline || (IndicatorConfigs in kline && !kline[IndicatorConfigs].Object?)
       then SameField(kline, after, IndicatorConfigs)
       else
         && IndicatorConfigs in after && after[IndicatorConfigs].Object?
         && LevelsTaken(if IndicatorConfigs in kline then kline[IndicatorConfigs].fields else map[],
                        after[IndicatorConfigs].fields, kline[GexLevels])
  }

  ghost predicate LevelsTaken(configs: Fields, after: Fields, levels: Json) {
    && (forall key :: key != GexLevels ==> SameField(configs, after, key))
    && GexLevels in after
    && after[GexLevels] == if GexLevels in configs then configs[GexLevels] else levels
  }

  ghost predicate SettingsKept(before: Fields, after: Fields) {
    && (forall key :: key != VisualConfig ==> SameField(before, after, key))
    && if VisualConfig in before && before[VisualConfig] != Null && !KnownTag(before[VisualConfig], VisualTags())
       then VisualConfig !in after
       else if HasKlineConfig(before) then
         && HasKlineConfig(after)
         && (var (visual, changed) := (before[VisualConfig].fields, after[VisualConfig].fields);
             && (forall key :: key != Kline ==> SameField(visual, changed, key))
             && LevelsMoved(visual[Kline].fields, changed[Kline].fields))
       else SameField(before, after, VisualConfig)
  }

  ghost predicate ValueKept(schema: Schema, pass: Pass, v: Json, w: Json) {
    match pass
    case CheckNews => w == if schema(NewsConfig, v) then v else Object(map[])
    case CheckReference => w == if schema(TickerInfo, v) then v else Null
    case CheckKlineKind => w == if v == Text(Candles) || KnownTag(v, {Footprint}) then v else Text(Candles)
    case CheckSettings => if v.Object? then w.Object? && SettingsKept(v.fields, w.fields) else w == Object(map[])
    case _ => w.List? && (if v.List? then Selected(Passing(schema, pass, v.items), v.items, w.items) else w.items == [])
  }

  // One field: what is checked is kept as far as it passes, what is not is
  // the same, and what is missing is filled in where there is something to
  // fill it with.
  ghost predicate FieldKept(schema: Schema, check: Option<Pass>, filler: Option<Json>, before: Fields, after: Fields, key: Word) {
    if key in before then
      && key in after
      && (if check.Some? then ValueKept(schema, check.value, before[key], after[key]) else after[key] == before[key])
    else
      && (key in after <==> filler.Some?)
      && (key in after ==> after[key] == filler.value)
  }

  // ---------------------------------------------------------------------
  // Panes
  // ---------------------------------------------------------------------

  predicate KnownKind(tag: Word) {
    tag in {Starter, NewsTracker, HeatmapChart, ShaderHeatmap, KlineChart, GexChart, ComparisonChart, TimeAndSales, Ladder}
  }

  // By the field, in which kinds of pane it is checked and how.
  function CheckOf(tag: Word, key: Word): Option<Pass> {
    match key
    case Settings => if KnownKind(tag) && tag !in {Starter, NewsTracker} then Some(CheckSettings) else None
    case StreamType => if KnownKind(tag) && tag !in {Starter, NewsTracker, GexChart} then Some(CheckStreams) else None
    case Indicators =>
      if tag in {HeatmapChart, ShaderHeatmap} then Some(CheckIndicators)
      else if tag == KlineChart then Some(CheckEntries(KlineIndicator))
      else None
    case Kind => if tag == KlineChart then Some(CheckKlineKind) else None
    case Config => if tag == NewsTracker then Some(CheckNews) else None
    case LiquidityReference => if tag == GexChart then Some(CheckReference) else None
    case _ => None
  }

  function Filler(tag: Word, key: Word): Option<Json> {
    match CheckOf(tag, key)
    case Some(CheckSettings) => Some(Empty())
    case Some(CheckNews) => Some(Empty())
    case Some(CheckKlineKind) => Some(Text(Candles))
    case _ => None
  }

  ghost predicate LeafKept(schema: Schema, tag: Word, before: Json, after: Json) {
    if !before.Object? then after == before
    else after.Object? && forall key :: FieldKept(schema, CheckOf(tag, key), Filler(tag, key), before.fields, after.fields, key)
  }

  // The ratio nearest to the one given, or one half.
  ghost predicate RatioKept(before: Fields, after: Fields) {
    && Ratio in after && after[Ratio].Decimal? && 0.05 <= after[Ratio].r <= 0.95
    && match (if Ratio in before then AsNumber(before[Ratio]) else None)
       case None => after[Ratio].r == 0.5
       case Some(x) =>
         && (0.05 <= x <= 0.95 ==> after[Ratio].r == x)
         && (x < 0.05 ==> after[Ratio].r == 0.05)
         && (x > 0.95 ==> after[Ratio].r == 0.95)
  }

  ghost predicate FrameKept(before: Fields, after: Fields) {
    && (forall key :: key !in {Axis, Ratio, BranchA, BranchB} ==> SameField(before, after, key))
    && Axis in after && (if KnownAxis(before) then after[Axis] == before[Axis] else after[Axis] == Text(Horizontal))
    && RatioKept(before, after)
  }

  // A value that is no pane of a known kind gives way to a starter pane.
  ghost predicate PaneKept(schema: Schema, v: Json, w: Json)
    decreases v
  {
    if !v.Object? || |v.fields| != 1 then w == DefaultPane()
    else if Split in v.fields then
      if !v.fields[Split].Object? then w == DefaultPane()
      else
        && w.Object? && w.fields.Keys == {Split} && w.fields[Split].Object?
        && (var (before, after) := (v.fields[Split].fields, w.fields[Split].fields);
            && FrameKept(before, after)
            && BranchA in after && BranchB in after
            && (if BranchA in before then PaneKept(schema, before[BranchA], after[BranchA]) else after[BranchA] == DefaultPane())
            && (if BranchB in before then PaneKept(schema, before[BranchB], after[BranchB]) else after[BranchB] == DefaultPane()))
    else
      var tag := OnlyKey(v.fields);
      if !KnownKind(tag) then w == DefaultPane()
      else w.Object? && w.fields.Keys == {tag} && LeafKept(schema, tag, v.fields[tag], w.fields[tag])
  }

  // ---------------------------------------------------------------------
  // Dashboards, layouts, sidebar and root
  // ---------------------------------------------------------------------

  ghost function Pairs(entries: seq<Json>): (flags: seq<bool>)
    ensures |flags| == |entries| && forall i :: 0 <= i < |entries| ==> flags[i] == IsPair(entries[i])
  {
    seq(|entries|, i requires 0 <= i < |entries| => IsPair(entries[i]))
  }

  // The pairs are kept in order, each with its pane repaired and its window
  // as it was.
  ghost predicate PopoutKept(schema: Schema, entry: Json, kept: Json) {
    IsPair(entry) && IsPair(kept) && PaneKept(schema, entry.items[0], kept.items[0]) && kept.items[1] == entry.items[1]
  }

  ghost predicate PopoutsKept(schema: Schema, entries: seq<Json>, kept: seq<Json>) {
    var flags := Pairs(entries);
    && |kept| == Count(flags)
    && forall i: nat :: i < |flags| && flags[i] ==>
         Count(flags[..i]) < |kept| && PopoutKept(schema, entries[i], kept[Count(flags[..i])])
  }

  ghost predicate DashboardKept(schema: Schema, v: Json, w: Json) {
    if !v.Object? then w == DefaultDashboard()
    else
      && w.Object?
      && (forall key :: key !in {Pane, Popout} ==> SameField(v.fields, w.fields, key))
      && Pane in w.fields
      && (if Pane in v.fields then PaneKept(schema, v.fields[Pane], w.fields[Pane]) else w.fields[Pane] == DefaultPane())
      && Popout in w.fields && w.fields[Popout].List?
      && (if Popout in v.fields && v.fields[Popout].List?
          then PopoutsKept(schema, v.fields[Popout].items, w.fields[Popout].items)
          else w.fields[Popout].items == [])
  }

  ghost predicate LayoutKept(schema: Schema, v: Json, w: Json) {
    if !v.Object? then w == DefaultLayout()
    else
      && w.Object?
      && (forall key :: key !in {Name, Dashboard} ==> SameField(v.fields, w.fields, key))
      && Name in w.fields
      && w.fields[Name] == (if Name in v.fields && v.fields[Name].Text? then v.fields[Name] else Text(Recovered))
      && Dashboard in w.fields
      && DashboardKept(schema, if Dashboard in v.fields then v.fields[Dashboard] else Object(map[]), w.fields[Dashboard])
  }

  ghost predicate LayoutsKept(schema: Schema, layouts: seq<Json>, kept: seq<Json>) {
    |kept| == |layouts| && forall i :: 0 <= i < |layouts| ==> LayoutKept(schema, layouts[i], kept[i])
  }

  ghost predicate ManagerKept(schema: Schema, v: Json, w: Json) {
    if !v.Object? then w == DefaultManager()
    else
      && w.Object?
      && (forall key :: key != Layouts ==> SameField(v.fields, w.fields, key))
      && Layouts in w.fields && w.fields[Layouts].List?
      && (if Layouts in v.fields && v.fields[Layouts].List?
          then LayoutsKept(schema, v.fields[Layouts].items, w.fields[Layouts].items)
          else w.fields[Layouts].items == [DefaultLayout()])
  }

  function TableCheck(key: Word): Option<Pass> {
    match key
    case FavoritedTickers => Some(CheckEntries(Ticker))
    case SelectedExchanges => Some(CheckEntries(Venue))
    case SelectedMarkets => Some(CheckEntries(Market))
    case _ => None
  }

  function TableFiller(key: Word): Option<Json> {
    if key in TableDefaults() then Some(TableDefaults()[key]) else None
  }

  ghost predicate TableFieldsKept(schema: Schema, before: Fields, after: Fields) {
    forall key :: FieldKept(schema, TableCheck(key), TableFiller(key), before, after, key)
  }

  // A table that the decoder refuses even with its fields repaired is replaced.
  ghost predicate TableKept(schema: Schema, v: Json, w: Json) {
    if !v.Object? then w == Null
    else exists repaired :: TableFieldsKept(schema, v.fields, repaired)
           && w == if schema(TableSettings, Object(repaired)) then Object(repaired) else Object(TableDefaults())
  }

  ghost predicate SidebarKept(schema: Schema, v: Json, w: Json) {
    if !v.Object? then w == DefaultSidebar()
    else
      && w.Object?
      && (forall key :: key !in {Position, TickersTable} ==> SameField(v.fields, w.fields, key))
      && Position in w.fields
      && w.fields[Position] == (if KnownPosition(v.fields) then v.fields[Position] else Text(Left))
      && (TickersTable in w.fields <==> TickersTable in v.fields)
      && (TickersTable in v.fields ==> TableKept(schema, v.fields[TickersTable], w.fields[TickersTable]))
  }

  ghost predicate RootKept(schema: Schema, before: Fields, after: Fields) {
    && (forall key :: key !in {SavedStateVersion, LayoutManager, Sidebar} ==> SameField(before, after, key))
    && SavedStateVersion in after && after[SavedStateVersion] == Integer(CURRENT_VERSION)
    && (LayoutManager in after <==> LayoutManager in before)
    && (LayoutManager in before ==> ManagerKept(schema, before[LayoutManager], after[LayoutManager]))
    && (Sidebar in after <==> Sidebar in before)
    && (Sidebar in before ==> SidebarKept(schema, before[Sidebar], after[Sidebar]))
  }

  // ---------------------------------------------------------------------
  // The passes keep what the relations say
  // ---------------------------------------------------------------------

  // Only the list pass makes this selection.
  lemma {:induction false} ListIsSelected(schema: Schema, pass: Pass, items: seq<Json>, kept: seq<Json>)
    ensures kept == Kept(schema, pass, items) <==> Selected(Passing(schema, pass, items), items, kept)
    decreases |items|
  {
    hide Keeps;
    if items != [] {
      var last, n, flags := |items| - 1, |kept| - 1, Passing(schema, pass, items);
      assert flags[..last] == Passing(schema, pass, items[..last]);
      LastKept(schema, pass, items);
      hide Passing, Selected, Kept;
      LastSelected(flags, items, kept);
      if !flags[last] {
        ListIsSelected(schema, pass, items[..last], kept);
      } else if kept != [] {
        ListIsSelected(schema, pass, items[..last], kept[..n]);
        assert kept == kept[..n] + [kept[n]];
      }
    }
  }

  lemma LastKept(schema: Schema, pass: Pass, items: seq<Json>)
    requires items != []
    ensures var last := |items| - 1;
            Kept(schema, pass, items)
            == Kept(schema, pass, items[..last]) + if Keeps(schema, pass, items[last]) then [items[last]] else []
  {
    hide Keeps;
  }

  lemma {:induction false} CountsAscend(flags: seq<bool>, i: nat)
    requires i < |flags| && flags[i]
    ensures Count(flags[..i]) < Count(flags)
  {
    var n := |flags| - 1;
    if i < n {
      CountsAscend(flags[..n], i);
      assert flags[..n][..i] == flags[..i];
    }
  }

  lemma LastSelected(flags: seq<bool>, items: seq<Json>, kept: seq<Json>)
    requires |flags| == |items| > 0
    ensures var last := |flags| - 1;
            Selected(flags, items, kept)
            <==> if flags[last]
                 then kept != [] && kept[|kept| - 1] == items[last] && Selected(flags[..last], items[..last], kept[..|kept| - 1])
                 else Selected(flags[..last], items[..last], kept)
  {
    var last := |flags| - 1;
    forall i: nat | i < last ensures flags[..last][..i] == flags[..i] {
    }
    forall i: nat | i < last && flags[i] ensures Count(flags[..i]) < Count(flags[..last]) {
      CountsAscend(flags[..last], i);
    }
  }

  lemma LevelsAreMoved(kline: Fields)
    ensures MoveGexLevels(kline).value.Object? && LevelsMoved(kline, MoveGexLevels(kline).value.fields)
  {
    hide LevelsTaken;
    if GexLevels in kline {
      var configs := if IndicatorConfigs in kline && kline[IndicatorConfigs].Object? then kline[IndicatorConfigs].fields else map[];
      LevelsAreTaken(configs, kline[GexLevels]);
    }
  }

  lemma LevelsAreTaken(configs: Fields, levels: Json)
    ensures LevelsTaken(configs, if GexLevels in configs then configs else configs[GexLevels := levels], levels)
  {
  }

  lemma SettingsAreKept(settings: Fields)
    ensures RepairSettings(settings).value.Object? && SettingsKept(settings, RepairSettings(settings).value.fields)
  {
    hide LevelsMoved, MoveGexLevels;
    var known := KnownVisual(settings);
    if HasKlineConfig(known) {
      LevelsAreMoved(known[VisualConfig].fields[Kline].fields);
    }
  }

  lemma {:induction false} ValueIsKept(schema: Schema, pass: Pass, v: Json)
    requires AcceptsDefaults(schema)
    ensures ValueKept(schema, pass, v, Apply(schema, pass, v).value)
  {
    hide SettingsKept, RepairSettings, Kept, Selected;
    if IsListPass(pass) && v.List? {
      ListIsSelected(schema, pass, v.items, Kept(schema, pass, v.items));
    } else if pass.CheckSettings? && v.Object? {
      SettingsAreKept(v.fields);
    }
  }

  lemma {:induction false} FieldIsKept(schema: Schema, steps: seq<Step>, fields: Fields, k: nat)
    requires AcceptsDefaults(schema) && DistinctKeys(steps) && k < |steps|
    ensures FieldKept(schema, Some(steps[k].pass), steps[k].default, fields, ApplySteps(schema, steps, fields).value.fields, steps[k].key)
    decreases |steps|
  {
    hide ApplyStep, ValueKept, AcceptsDefaults;
    var last := |steps| - 1;
    var front, key := steps[..last], steps[k].key;
    var before := ApplySteps(schema, front, fields).value.fields;
    if k < last {
      FieldIsKept(schema, front, fields, k);
      OtherFieldIsSame(schema, steps[last], before, key);
    } else {
      assert !Touches(front, key);
      OtherFieldsKept(schema, front, fields, key);
      StepKeepsField(schema, steps[last], before);
    }
  }

  lemma StepKeepsField(schema: Schema, step: Step, fields: Fields)
    requires AcceptsDefaults(schema)
    ensures FieldKept(schema, Some(step.pass), step.default, fields, ApplyStep(schema, step, fields).value.fields, step.key)
  {
    hide Apply, ValueKept, AcceptsDefaults;
    if step.key in fields {
      ValueIsKept(schema, step.pass, fields[step.key]);
    }
  }

  lemma OtherFieldIsSame(schema: Schema, step: Step, fields: Fields, key: Word)
    requires key != step.key
    ensures SameField(fields, ApplyStep(schema, step, fields).value.fields, key)
  {
    hide Apply;
  }

  // The fields checked by kind are the kinds listed by field.
  lemma StepsAreChecks(tag: Word, key: Word) returns (k: nat)
    ensures KnownKind(tag) <==> PaneSteps(tag).Some?
    ensures KnownKind(tag) && CheckOf(tag, key) == None ==> Filler(tag, key) == None && !Touches(PaneSteps(tag).value, key)
    ensures KnownKind(tag) && CheckOf(tag, key).Some? ==>
              k < |PaneSteps(tag).value| && PaneSteps(tag).value[k] == Step(key, Filler(tag, key), CheckOf(tag, key).value)
  {
    NoFiller(tag, key);
    KindsAreKnown(tag);
    hide PaneSteps, CheckOf, Filler, KnownKind;
    k := 0;
    if KnownKind(tag) {
      if CheckOf(tag, key).Some? {
        k := CheckIsStep(tag, key);
        StepIsCheck(tag, k);
      } else {
        forall j: nat | j < |PaneSteps(tag).value| ensures PaneSteps(tag).value[j].key != key {
          StepIsCheck(tag, j);
        }
      }
    }
  }

  lemma NoFiller(tag: Word, key: Word)
    ensures CheckOf(tag, key) == None ==> Filler(tag, key) == None
  {
    hide CheckOf;
  }

  lemma KindsAreKnown(tag: Word)
    ensures KnownKind(tag) <==> PaneSteps(tag).Some?
  {
  }

  lemma StepIsCheck(tag: Word, j: nat)
    requires PaneSteps(tag).Some? && j < |PaneSteps(tag).value|
    ensures var step := PaneSteps(tag).value[j];
            CheckOf(tag, step.key) == Some(step.pass) && Filler(tag, step.key) == step.default
  {
    StepIsListed(tag, j);
    DefaultOfPass(tag, j);
    hide PaneSteps, CheckOf, Empty;
  }

  lemma StepIsListed(tag: Word, j: nat)
    requires PaneSteps(tag).Some? && j < |PaneSteps(tag).value|
    ensures var step := PaneSteps(tag).value[j];
            CheckOf(tag, step.key) == Some(step.pass)
  {
    hide Empty;
  }

  lemma DefaultOfPass(tag: Word, j: nat)
    requires PaneSteps(tag).Some? && j < |PaneSteps(tag).value|
    ensures var step := PaneSteps(tag).value[j];
            step.default == match step.pass
                            case CheckSettings => Some(Empty())
                            case CheckNews => Some(Empty())
                            case CheckKlineKind => Some(Text(Candles))
                            case _ => None
  {
    hide Empty;
  }

  lemma CheckIsStep(tag: Word, key: Word) returns (k: nat)
    requires CheckOf(tag, key).Some?
    ensures PaneSteps(tag).Some? && k < |PaneSteps(tag).value| && PaneSteps(tag).value[k].key == key
  {
    hide Empty;
    KindsAreKnown(tag);
    var steps := PaneSteps(tag).value;
    k := if key == Settings then |steps| - 1
         else if key == Kind then 2
         else if key == StreamType && steps[0].key != StreamType then 1
         else 0;
  }

  lemma {:induction false} LeafFieldsAreKept(schema: Schema, tag: Word, fields: Fields, key: Word)
    requires AcceptsDefaults(schema) && KnownKind(tag) && PaneSteps(tag).Some?
    ensures var after := ApplySteps(schema, PaneSteps(tag).value, fields).value.fields;
            FieldKept(schema, CheckOf(tag, key), Filler(tag, key), fields, after, key)
  {
    hide AcceptsDefaults, ApplySteps, ValueKept, PaneSteps, CheckOf, Filler, Touches, DistinctKeys, DefaultsPass;
    var k := StepsAreChecks(tag, key);
    if CheckOf(tag, key) == None {
      OtherFieldsKept(schema, PaneSteps(tag).value, fields, key);
    } else {
      PaneStepsAreProper(schema, tag);
      FieldIsKept(schema, PaneSteps(tag).value, fields, k);
    }
  }

  lemma {:induction false} LeafIsKeptByKind(schema: Schema, tag: Word, v: Json)
    requires AcceptsDefaults(schema) && tag != Split
    ensures var w := SanitizePane(schema, Object(map[tag := v])).value;
            if KnownKind(tag) then w.Object? && w.fields.Keys == {tag} && LeafKept(schema, tag, v, w.fields[tag])
            else w == DefaultPane()
  {
    hide AcceptsDefaults, ApplySteps, PaneSteps, FieldKept, DefaultPane, KnownKind;
    OnlyKeyIs(map[tag := v], tag);
    var k := StepsAreChecks(tag, Starter);
    if KnownKind(tag) && v.Object? {
      forall key
        ensures FieldKept(schema, CheckOf(tag, key), Filler(tag, key), v.fields, ApplySteps(schema, PaneSteps(tag).value, v.fields).value.fields, key)
      {
        LeafFieldsAreKept(schema, tag, v.fields, key);
      }
    }
  }

  lemma FrameIsKept(split: Fields, a: Json, b: Json)
    ensures FrameKept(split, RepairedSplit(split, a, b))
  {
    hide KnownAxis;
    assert KnownAxis(split) ==> Axis in split by {
      RatioIsKept(split, a, b);
    }
    RatioIsKept(split, a, b);
  }

  lemma RatioIsKept(split: Fields, a: Json, b: Json)
    ensures RatioKept(split, RepairedSplit(split, a, b))
    ensures KnownAxis(split) ==> Axis in split
  {
  }

  // For every JSON value.
  lemma {:induction false} PaneIsKept(schema: Schema, v: Json)
    requires AcceptsDefaults(schema)
    ensures PaneKept(schema, v, SanitizePane(schema, v).value)
    decreases v
  {
    hide AcceptsDefaults, ApplySteps, PaneSteps, RepairedSplit, KnownAxis, DefaultPane, LeafKept, FrameKept, KnownKind;
    if v.Object? && |v.fields| == 1 {
      var tag := OnlyKey(v.fields);
      OnlyKeyIs(v.fields, tag);
      if Split in v.fields {
        if v.fields[Split].Object? {
          var split := v.fields[Split].fields;
          if BranchA in split { PaneIsKept(schema, split[BranchA]); }
          if BranchB in split { PaneIsKept(schema, split[BranchB]); }
          OnlyKeyIs(v.fields, Split);
          hide SanitizePane, PaneKept;
          BranchesAreKept(schema, split);
        }
      } else {
        LeafIsKeptByKind(schema, tag, v.fields[tag]);
      }
    }
  }

  lemma {:induction false} BranchesAreKept(schema: Schema, split: Fields)
    requires BranchA in split ==> PaneKept(schema, split[BranchA], SanitizePane(schema, split[BranchA]).value)
    requires BranchB in split ==> PaneKept(schema, split[BranchB], SanitizePane(schema, split[BranchB]).value)
    ensures PaneKept(schema, SplitPane(split), SanitizePane(schema, SplitPane(split)).value)
  {
    hide SanitizePane, RepairedSplit, DefaultPane, LeafKept, FrameKept, KnownKind, KnownAxis;
    SplitUnfolds(schema, split);
    var (a, b) := (Branch(schema, split, BranchA).value, Branch(schema, split, BranchB).value);
    FrameIsKept(split, a, b);
    RepairedSplitKeeps(split, a, b);
    hide SameSplit;
  }

  lemma {:induction false} PopoutsAreKept(schema: Schema, entries: seq<Json>)
    requires AcceptsDefaults(schema)
    ensures PopoutsKept(schema, entries, SanitizePopouts(schema, entries).value.items)
    decreases |entries|
  {
    hide AcceptsDefaults, SanitizePane, PaneKept, PopoutsKept;
    if entries == [] {
      NoPopouts(schema);
    } else {
      var last := |entries| - 1;
      var entry, before := entries[last], SanitizePopouts(schema, entries[..last]).value.items;
      PopoutsAreKept(schema, entries[..last]);
      if IsPair(entry) {
        PaneIsKept(schema, entry.items[0]);
        OneMorePopout(schema, entries, before, List([SanitizePane(schema, entry.items[0]).value, entry.items[1]]));
      } else {
        NoMorePopout(schema, entries, before);
      }
    }
  }

  lemma NoPopouts(schema: Schema)
    ensures PopoutsKept(schema, [], [])
  {
  }

  lemma OneMorePopout(schema: Schema, entries: seq<Json>, before: seq<Json>, kept: Json)
    requires entries != [] && PopoutsKept(schema, entries[..|entries| - 1], before)
    requires PopoutKept(schema, entries[|entries| - 1], kept)
    ensures PopoutsKept(schema, entries, before + [kept])
  {
    var (last, flags) := (|entries| - 1, Pairs(entries));
    assert flags[last];
    hide PopoutKept, IsPair;
    PairsOfFront(entries);
    assert Count(flags) == Count(flags[..last]) + 1;
  }

  lemma NoMorePopout(schema: Schema, entries: seq<Json>, before: seq<Json>)
    requires entries != [] && PopoutsKept(schema, entries[..|entries| - 1], before)
    requires !IsPair(entries[|entries| - 1])
    ensures PopoutsKept(schema, entries, before)
  {
    var (last, flags) := (|entries| - 1, Pairs(entries));
    assert !flags[last];
    hide PopoutKept, IsPair;
    PairsOfFront(entries);
    assert Count(flags) == Count(flags[..last]);
  }

  lemma PairsOfFront(entries: seq<Json>)
    requires entries != []
    ensures var last := |entries| - 1;
            && Pairs(entries[..last]) == Pairs(entries)[..last]
            && forall i :: 0 <= i <= last ==> Pairs(entries)[..last][..i] == Pairs(entries)[..i]
  {
    var last := |entries| - 1;
    assert Pairs(entries[..last]) == Pairs(entries)[..last];
  }

  lemma {:induction false} DashboardIsKept(schema: Schema, v: Json)
    requires AcceptsDefaults(schema)
    ensures DashboardKept(schema, v, SanitizeDashboard(schema, v).value)
  {
    hide AcceptsDefaults, SanitizePane, SanitizePopouts, PaneKept, PopoutsKept, DefaultPane;
    if v.Object? {
      if Pane in v.fields { PaneIsKept(schema, v.fields[Pane]); }
      if Popout in v.fields && v.fields[Popout].List? { PopoutsAreKept(schema, v.fields[Popout].items); }
    }
  }

  lemma {:induction false} LayoutIsKept(schema: Schema, v: Json)
    requires AcceptsDefaults(schema)
    ensures LayoutKept(schema, v, SanitizeLayout(schema, v).value)
  {
    hide AcceptsDefaults, SanitizeDashboard, DashboardKept;
    if v.Object? {
      DashboardIsKept(schema, if Dashboard in v.fields then v.fields[Dashboard] else Empty());
    }
  }

  lemma {:induction false} LayoutsAreKept(schema: Schema, layouts: seq<Json>)
    requires AcceptsDefaults(schema)
    ensures LayoutsKept(schema, layouts, SanitizeLayouts(schema, layouts).value.items)
    decreases |layouts|
  {
    hide AcceptsDefaults, SanitizeLayout, LayoutKept;
    if layouts != [] {
      LayoutsAreKept(schema, layouts[..|layouts| - 1]);
      LayoutIsKept(schema, layouts[|layouts| - 1]);
    }
  }

  lemma {:induction false} ManagerIsKept(schema: Schema, v: Json)
    requires AcceptsDefaults(schema)
    ensures ManagerKept(schema, v, SanitizeLayoutManager(schema, v).value)
  {
    hide AcceptsDefaults, SanitizeLayouts, LayoutsKept, DefaultLayout;
    if v.Object? && Layouts in v.fields && v.fields[Layouts].List? {
      LayoutsAreKept(schema, v.fields[Layouts].items);
    }
  }

  lemma {:induction false} TableFieldsAreKept(schema: Schema, fields: Fields, key: Word)
    requires AcceptsDefaults(schema)
    ensures FieldKept(schema, TableCheck(key), TableFiller(key), fields,
                      ApplySteps(schema, TableSteps(), TableDefaults() + fields).value.fields, key)
  {
    hide AcceptsDefaults, ApplySteps, ValueKept, TableDefaults, TableSteps, TableCheck, Touches;
    var steps, filled := TableSteps(), TableDefaults() + fields;
    var k := TableStepsAreChecks(key);
    if TableCheck(key) == None {
      OtherFieldsKept(schema, steps, filled, key);
    } else {
      TableDefaultsAreClean(schema);
      FieldIsKept(schema, steps, filled, k);
      FillerExists(key);
      if key !in fields {
        FillerIsKept(schema, key, ApplySteps(schema, steps, filled).value.fields[key]);
      }
    }
  }

  lemma TableStepsAreChecks(key: Word) returns (k: nat)
    ensures TableCheck(key) == None ==> !Touches(TableSteps(), key)
    ensures TableCheck(key).Some? ==> k < |TableSteps()| && TableSteps()[k] == Step(key, None, TableCheck(key).value)
  {
    ThreeTableChecks(key);
    hide TableSteps, TableCheck, Touches;
    if TableCheck(key) == None {
      k := 0;
      ThreeTableSteps(key);
    } else {
      k := if key == FavoritedTickers then 0 else if key == SelectedExchanges then 1 else 2;
      TableStepAt(k);
    }
  }

  lemma TableStepAt(k: nat)
    requires k < 3
    ensures |TableSteps()| == 3
    ensures TableSteps()[k].key == if k == 0 then FavoritedTickers else if k == 1 then SelectedExchanges else SelectedMarkets
    ensures TableCheck(TableSteps()[k].key).Some?
    ensures TableSteps()[k] == Step(TableSteps()[k].key, None, TableCheck(TableSteps()[k].key).value)
  {
  }

  lemma ThreeTableSteps(key: Word)
    requires key !in {FavoritedTickers, SelectedExchanges, SelectedMarkets}
    ensures !Touches(TableSteps(), key)
  {
    hide TableSteps;
    TableStepAt(0);
    forall k: nat | k < |TableSteps()| ensures TableSteps()[k].key != key {
      TableStepAt(k);
    }
  }

  lemma ThreeTableChecks(key: Word)
    ensures TableCheck(key).Some? <==> key in {FavoritedTickers, SelectedExchanges, SelectedMarkets}
  {
  }

  lemma FillerExists(key: Word)
    requires TableCheck(key).Some?
    ensures key in TableDefaults()
  {
  }

  lemma {:induction false} FillerIsKept(schema: Schema, key: Word, w: Json)
    requires AcceptsDefaults(schema) && TableCheck(key).Some?
    requires key in TableDefaults() ==> ValueKept(schema, TableCheck(key).value, TableDefaults()[key], w)
    ensures key in TableDefaults() && w == TableDefaults()[key]
  {
    var pass := TableCheck(key).value;
    var default := TableDefaults()[key];
    ListIsSelected(schema, pass, default.items, w.items);
    assert forall i :: 0 <= i < |default.items| ==> Keeps(schema, pass, default.items[i]);
    CleanListIsKept(schema, pass, default.items);
  }

  lemma {:induction false} TableIsKept(schema: Schema, v: Json)
    requires AcceptsDefaults(schema)
    ensures TableKept(schema, v, SanitizeTable(schema, v).value)
  {
    hide AcceptsDefaults, ApplySteps, FieldKept, TableDefaults, TableSteps;
    if v.Object? {
      var repaired := ApplySteps(schema, TableSteps(), TableDefaults() + v.fields).value.fields;
      forall key ensures FieldKept(schema, TableCheck(key), TableFiller(key), v.fields, repaired, key) {
        TableFieldsAreKept(schema, v.fields, key);
      }
      assert TableFieldsKept(schema, v.fields, repaired);
    }
  }

  lemma {:induction false} SidebarIsKept(schema: Schema, v: Json)
    requires AcceptsDefaults(schema)
    ensures SidebarKept(schema, v, SanitizeSidebar(schema, v).value)
  {
    hide AcceptsDefaults, SanitizeTable, TableKept;
    if v.Object? && TickersTable in v.fields {
      TableIsKept(schema, v.fields[TickersTable]);
    }
  }

  // The main result, for every JSON value: every field and entry of the
  // document is kept, repaired or replaced as the relations say.
  lemma {:induction false} MigrationKeeps(schema: Schema, v: Json)
    requires AcceptsDefaults(schema)
    ensures var w := MigrateRoot(schema, v).value;
            w.Object? && RootKept(schema, if v.Object? then v.fields else map[], w.fields)
  {
    hide AcceptsDefaults, SanitizeLayoutManager, SanitizeSidebar, ManagerKept, SidebarKept;
    if v.Object? {
      if LayoutManager in v.fields { ManagerIsKept(schema, v.fields[LayoutManager]); }
      if Sidebar in v.fields { SidebarIsKept(schema, v.fields[Sidebar]); }
    }
  }
}
