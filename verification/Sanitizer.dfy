/**
 The sanitiser as the program runs it (data/src/lib.rs): every pass rewrites the
 node it is given, which its caller owns exclusively, and pushes its warnings
 onto one shared list. A node is passed in and its rewritten form is returned;
 the warnings are updated in place.
 */
module Sanitizer {
  import opened Basics
  import opened SavedState
  import Spec = SavedState
  import opened SavedStateProofs
  import opened SavedStateKept
  import opened SavedStateUnique
  import opened SavedStateFaults

  class Sanitizer {
    const schema: Schema
    var warnings: seq<Warning>

    constructor (schema: Schema)
      ensures this.schema == schema && warnings == []
    {
      this.schema := schema;
      warnings := [];
    }

    method Warn(warning: Warning)
      modifies this`warnings
      ensures warnings == old(warnings) + [warning]
    {
      warnings := warnings + [warning];
    }

    // `sanitize_streams`, `sanitize_deserializable_vec` and
    // `sanitize_vec_tagged_enum` differ in what they keep and what they say.
    method RetainEntries(value: Json, pass: Pass) returns (r: Json)
      requires IsListPass(pass)
      modifies this`warnings
      ensures r == Apply(schema, pass, value).value
      ensures warnings == old(warnings) + Apply(schema, pass, value).warnings
    {
      if !value.List? {
        Warn(ListWarning(pass));
        return List([]);
      }
      var entries := value.items;
      var kept := [];
      for i := 0 to |entries|
        invariant kept == Kept(schema, pass, entries[..i])
        invariant warnings == old(warnings) + DropWarnings(schema, pass, entries[..i])
      {
        assert entries[..i + 1][..i] == entries[..i];
        if Keeps(schema, pass, entries[i]) {
          kept := kept + [entries[i]];
        } else {
          Warn(DropWarning(pass));
        }
      }
      assert entries[..|entries|] == entries;
      r := List(kept);
    }

    method SanitizeKlineKind(value: Json) returns (r: Json)
      modifies this`warnings
      ensures r == Apply(schema, CheckKlineKind, value).value
      ensures warnings == old(warnings) + Apply(schema, CheckKlineKind, value).warnings
    {
      if value == Text(Candles) || KnownTag(value, {Footprint}) {
        return value;
      }
      Warn(KlineKindUnknown);
      r := Text(Candles);
    }

    method SanitizeSettings(value: Json) returns (r: Json)
      modifies this`warnings
      ensures r == Apply(schema, CheckSettings, value).value
      ensures warnings == old(warnings) + Apply(schema, CheckSettings, value).warnings
    {
      if !value.Object? {
        Warn(SettingsInvalid);
        return Empty();
      }
      var settings := value.fields;
      if VisualConfig in settings && settings[VisualConfig] != Null && !KnownTag(settings[VisualConfig], VisualTags()) {
        settings := settings - {VisualConfig};
        Warn(VisualConfigDropped);
      }
      assert settings == KnownVisual(value.fields);
      if HasKlineConfig(settings) {
        var visual := settings[VisualConfig].fields;
        var kline := visual[Kline].fields;
        if GexLevels in kline {
          var legacy := kline[GexLevels];
          kline := kline - {GexLevels};
          if IndicatorConfigs !in kline {
            kline := kline[IndicatorConfigs := Empty()];
          }
          if kline[IndicatorConfigs].Object? {
            var configs := kline[IndicatorConfigs].fields;
            if GexLevels !in configs {
              configs := configs[GexLevels := legacy];
            }
            kline := kline[IndicatorConfigs := Object(configs)];
            Warn(GexLevelsMigrated);
          }
        }
        assert Object(kline) == MoveGexLevels(visual[Kline].fields).value;
        settings := settings[VisualConfig := Object(visual[Kline := Object(kline)])];
      }
      r := Object(settings);
    }

    method SanitizeField(value: Json, pass: Pass) returns (r: Json)
      modifies this`warnings
      ensures r == Apply(schema, pass, value).value
      ensures warnings == old(warnings) + Apply(schema, pass, value).warnings
    {
      match pass
      case CheckKlineKind => r := SanitizeKlineKind(value);
      case CheckSettings => r := SanitizeSettings(value);
      case CheckNews =>
        r := value;
        if !schema(NewsConfig, value) {
          r := Empty();
          Warn(NewsFiltersInvalid);
        }
      case CheckReference =>
        r := value;
        if value != Null && !schema(TickerInfo, value) {
          r := Null;
          Warn(DroppedReference);
        }
      case _ => r := RetainEntries(value, pass);
    }

    // A field that is rewritten when present, and inserted first when it has a default.
    method Visit(pane: Fields, step: Step) returns (r: Fields)
      requires AcceptsDefaults(schema)
      requires step.default.Some? ==> Passes(schema, step.pass, step.default.value)
      modifies this`warnings
      ensures Object(r) == ApplyStep(schema, step, pane).value
      ensures warnings == old(warnings) + ApplyStep(schema, step, pane).warnings
    {
      hide Apply, Passes, AcceptsDefaults;
      r := pane;
      if step.key !in r && step.default.Some? {
        r := r[step.key := step.default.value];
        ApplyReachesPass(schema, step.pass, step.default.value);
      }
      if step.key in r {
        var field := SanitizeField(r[step.key], step.pass);
        r := r[step.key := field];
      }
    }

    // The panes that carry streams, settings or other checked fields.
    method SanitizeChart(tag: Word, fields: Fields) returns (r: Fields)
      requires AcceptsDefaults(schema) && PaneSteps(tag).Some?
      modifies this`warnings
      ensures Object(r) == ApplySteps(schema, PaneSteps(tag).value, fields).value
      ensures warnings == old(warnings) + ApplySteps(schema, PaneSteps(tag).value, fields).warnings
    {
      hide Passes, ApplyStep, AcceptsDefaults;
      DefaultsPassHere(schema);
      match tag
      case Starter => r := fields;
      case NewsTracker =>
        var config := Step(Config, Some(Empty()), CheckNews);
        r := Visit(fields, config);
        StepsOf1(schema, config, fields);
      case HeatmapChart | ShaderHeatmap => r := SanitizeHeatmap(fields);
      case KlineChart => r := SanitizeKlineChart(fields);
      case GexChart => r := VisitWithSettings(fields, Step(LiquidityReference, None, CheckReference));
      case ComparisonChart | TimeAndSales | Ladder =>
        r := VisitWithSettings(fields, Step(StreamType, None, CheckStreams));
    }

    method VisitWithSettings(fields: Fields, step: Step) returns (r: Fields)
      requires AcceptsDefaults(schema) && step.default == None
      modifies this`warnings
      ensures var steps := [step, Step(Settings, Some(Empty()), CheckSettings)];
              && Object(r) == ApplySteps(schema, steps, fields).value
              && warnings == old(warnings) + ApplySteps(schema, steps, fields).warnings
    {
      hide Passes, ApplyStep, AcceptsDefaults;
      DefaultsPassHere(schema);
      var settings := Step(Settings, Some(Empty()), CheckSettings);
      StepsOf2(schema, step, settings, fields);
      hide ApplySteps;
      r := Visit(fields, step);
      r := Visit(r, settings);
    }

    method SanitizeHeatmap(fields: Fields) returns (r: Fields)
      requires AcceptsDefaults(schema)
      modifies this`warnings
      ensures var steps := [Step(Indicators, None, CheckIndicators), Step(StreamType, None, CheckStreams),
                            Step(Settings, Some(Empty()), CheckSettings)];
              && Object(r) == ApplySteps(schema, steps, fields).value
              && warnings == old(warnings) + ApplySteps(schema, steps, fields).warnings
    {
      hide Passes, ApplyStep, AcceptsDefaults, ApplySteps;
      DefaultsPassHere(schema);
      var indicators, streams := Step(Indicators, None, CheckIndicators), Step(StreamType, None, CheckStreams);
      var settings := Step(Settings, Some(Empty()), CheckSettings);
      StepsOf3(schema, indicators, streams, settings, fields);
      r := Visit(fields, indicators);
      r := Visit(r, streams);
      r := Visit(r, settings);
    }

    method SanitizeKlineChart(fields: Fields) returns (r: Fields)
      requires AcceptsDefaults(schema)
      modifies this`warnings
      ensures var steps := [Step(Indicators, None, CheckEntries(KlineIndicator)), Step(StreamType, None, CheckStreams),
                            Step(Kind, Some(Text(Candles)), CheckKlineKind), Step(Settings, Some(Empty()), CheckSettings)];
              && Object(r) == ApplySteps(schema, steps, fields).value
              && warnings == old(warnings) + ApplySteps(schema, steps, fields).warnings
    {
      hide Passes, ApplyStep, AcceptsDefaults, ApplySteps;
      DefaultsPassHere(schema);
      var indicators, streams := Step(Indicators, None, CheckEntries(KlineIndicator)), Step(StreamType, None, CheckStreams);
      var kind, settings := Step(Kind, Some(Text(Candles)), CheckKlineKind), Step(Settings, Some(Empty()), CheckSettings);
      StepsOf4(schema, indicators, streams, kind, settings, fields);
      r := Visit(fields, indicators);
      r := Visit(r, streams);
      r := Visit(r, kind);
      r := Visit(r, settings);
    }

    method SanitizePane(value: Json) returns (r: Json)
      requires AcceptsDefaults(schema)
      modifies this`warnings
      ensures r == Spec.SanitizePane(schema, value).value
      ensures warnings == old(warnings) + Spec.SanitizePane(schema, value).warnings
      decreases value, 2
    {
      hide AcceptsDefaults, ApplySteps, PaneSteps, Spec.SanitizePane, RepairedSplit, KnownAxis;
      PaneUnfolds(schema, value);
      if !value.Object? {
        Warn(PaneInvalid);
        return DefaultPane();
      }
      var node := value.fields;
      if |node| != 1 {
        Warn(PaneMalformed);
        return DefaultPane();
      }
      var tag :| tag in node;
      OnlyKeyIs(node, tag);
      if tag == Split {
        if !node[Split].Object? {
          Warn(SplitInvalid);
          return DefaultPane();
        }
        var split := SanitizeSplit(value, node[Split].fields);
        r := Object(map[Split := Object(split)]);
      } else if PaneSteps(tag) == None {
        Warn(PaneTypeUnknown(tag));
        r := DefaultPane();
      } else if node[tag].Object? {
        var pane := SanitizeChart(tag, node[tag].fields);
        r := Object(map[tag := Object(pane)]);
      } else {
        r := value;
      }
    }

    method SanitizeSplit(ghost value: Json, split: Fields) returns (r: Fields)
      requires AcceptsDefaults(schema)
      requires value == SplitPane(split)
      modifies this`warnings
      ensures SplitPane(r) == Spec.SanitizePane(schema, value).value
      ensures warnings == old(warnings) + Spec.SanitizePane(schema, value).warnings
      decreases value, 1
    {
      hide AcceptsDefaults, Spec.SanitizePane, KnownAxis, SplitRatio, Branch, SplitPane;
      SplitUnfolds(schema, split);
      r := FrameSplit(split);
      var a := SanitizeBranch(value, split, BranchA);
      var b := SanitizeBranch(value, split, BranchB);
      r := r[BranchA := a][BranchB := b];
      assert r == RepairedSplit(split, a, b);
    }

    method FrameSplit(split: Fields) returns (r: Fields)
      modifies this`warnings
      ensures r == split[Axis := if KnownAxis(split) then split[Axis] else Text(Horizontal)][Ratio := Decimal(SplitRatio(split))]
      ensures warnings == old(warnings) + if KnownAxis(split) then [] else [AxisInvalid]
    {
      hide SplitRatio;
      RatioIgnoresAxis(split);
      r := split;
      if !KnownAxis(r) {
        r := r[Axis := Text(Horizontal)];
        Warn(AxisInvalid);
      }
      r := r[Ratio := Decimal(SplitRatio(r))];
    }

    // A missing branch becomes a starter pane, which has nothing to sanitise.
    method SanitizeBranch(ghost value: Json, split: Fields, key: Word) returns (r: Json)
      requires AcceptsDefaults(schema)
      requires value == SplitPane(split)
      modifies this`warnings
      ensures r == Branch(schema, split, key).value
      ensures warnings == old(warnings) + Branch(schema, split, key).warnings
      decreases value, 0
    {
      hide AcceptsDefaults, Spec.SanitizePane, DefaultPane;
      if key in split {
        assert value.fields[Split] == Object(split);
        r := SanitizePane(split[key]);
      } else {
        r := DefaultPane();
      }
    }

    method SanitizeDashboard(value: Json) returns (r: Json)
      requires AcceptsDefaults(schema)
      modifies this`warnings
      ensures r == Spec.SanitizeDashboard(schema, value).value
      ensures warnings == old(warnings) + Spec.SanitizeDashboard(schema, value).warnings
    {
      hide AcceptsDefaults, Spec.SanitizePane;
      if !value.Object? {
        Warn(DashboardInvalid);
        return DefaultDashboard();
      }
      var dashboard := value.fields;
      var pane := DefaultPane();
      if Pane in dashboard {
        pane := SanitizePane(dashboard[Pane]);
      }
      dashboard := dashboard[Pane := pane];
      if Popout in dashboard && dashboard[Popout].List? {
        var popouts := SanitizePopouts(dashboard[Popout].items);
        dashboard := dashboard[Popout := List(popouts)];
      } else {
        dashboard := dashboard[Popout := List([])];
      }
      r := Object(dashboard);
    }

    // The `retain_mut` over the popouts.
    method SanitizePopouts(entries: seq<Json>) returns (kept: seq<Json>)
      requires AcceptsDefaults(schema)
      modifies this`warnings
      ensures List(kept) == Spec.SanitizePopouts(schema, entries).value
      ensures warnings == old(warnings) + Spec.SanitizePopouts(schema, entries).warnings
    {
      hide AcceptsDefaults, Spec.SanitizePane;
      kept := [];
      for i := 0 to |entries|
        invariant List(kept) == Spec.SanitizePopouts(schema, entries[..i]).value
        invariant warnings == old(warnings) + Spec.SanitizePopouts(schema, entries[..i]).warnings
      {
        var entry := entries[i];
        assert entries[..i + 1][..i] == entries[..i];
        if !entry.List? {
          Warn(DroppedPopoutEntry);
        } else if |entry.items| != 2 {
          Warn(DroppedPopoutTuple);
        } else {
          var pane := SanitizePane(entry.items[0]);
          kept := kept + [List([pane, entry.items[1]])];
        }
      }
      assert entries[..|entries|] == entries;
    }

    method SanitizeLayout(value: Json) returns (r: Json)
      requires AcceptsDefaults(schema)
      modifies this`warnings
      ensures r == Spec.SanitizeLayout(schema, value).value
      ensures warnings == old(warnings) + Spec.SanitizeLayout(schema, value).warnings
    {
      hide AcceptsDefaults, Spec.SanitizeDashboard;
      if !value.Object? {
        Warn(LayoutInvalid);
        return DefaultLayout();
      }
      var layout := value.fields;
      if Name !in layout || !layout[Name].Text? {
        layout := layout[Name := Text(Recovered)];
      }
      if Dashboard !in layout {
        layout := layout[Dashboard := Empty()];
      }
      var dashboard := SanitizeDashboard(layout[Dashboard]);
      r := Object(layout[Dashboard := dashboard]);
    }

    method SanitizeLayoutManager(value: Json) returns (r: Json)
      requires AcceptsDefaults(schema)
      modifies this`warnings
      ensures r == Spec.SanitizeLayoutManager(schema, value).value
      ensures warnings == old(warnings) + Spec.SanitizeLayoutManager(schema, value).warnings
    {
      hide AcceptsDefaults, Spec.SanitizeLayout;
      if !value.Object? {
        Warn(LayoutManagerInvalid);
        return DefaultManager();
      }
      var manager := value.fields;
      if Layouts in manager && manager[Layouts].List? {
        var layouts := manager[Layouts].items;
        var repaired := [];
        for i := 0 to |layouts|
          invariant List(repaired) == SanitizeLayouts(schema, layouts[..i]).value
          invariant warnings == old(warnings) + SanitizeLayouts(schema, layouts[..i]).warnings
        {
          assert layouts[..i + 1][..i] == layouts[..i];
          var layout := SanitizeLayout(layouts[i]);
          repaired := repaired + [layout];
        }
        assert layouts[..|layouts|] == layouts;
        manager := manager[Layouts := List(repaired)];
      } else {
        Warn(LayoutsMissing);
        manager := manager[Layouts := List([DefaultLayout()])];
      }
      r := Object(manager);
    }

    method SanitizeTable(value: Json) returns (r: Json)
      requires AcceptsDefaults(schema)
      modifies this`warnings
      ensures r == Spec.SanitizeTable(schema, value).value
      ensures warnings == old(warnings) + Spec.SanitizeTable(schema, value).warnings
    {
      hide AcceptsDefaults, TableDefaults, ApplyStep;
      if value == Null {
        return value;
      }
      if !value.Object? {
        Warn(TableInvalid);
        return Null;
      }
      var filled := TableDefaults() + value.fields;
      var table := Visit(filled, TableSteps()[0]);
      table := Visit(table, TableSteps()[1]);
      table := Visit(table, TableSteps()[2]);
      StepsOf3(schema, TableSteps()[0], TableSteps()[1], TableSteps()[2], filled);
      if schema(TableSettings, Object(table)) {
        r := Object(table);
      } else {
        r := Object(TableDefaults());
        Warn(TableIncompatible);
      }
    }

    method SanitizeSidebar(value: Json) returns (r: Json)
      requires AcceptsDefaults(schema)
      modifies this`warnings
      ensures r == Spec.SanitizeSidebar(schema, value).value
      ensures warnings == old(warnings) + Spec.SanitizeSidebar(schema, value).warnings
    {
      hide AcceptsDefaults, Spec.SanitizeTable;
      if !value.Object? {
        r := DefaultSidebar();
        Warn(SidebarInvalid);
        return;
      }
      var sidebar := value.fields;
      if !KnownPosition(sidebar) {
        sidebar := sidebar[Position := Text(Left)];
        Warn(PositionUnknown);
      }
      if TickersTable in sidebar {
        var table := SanitizeTable(sidebar[TickersTable]);
        sidebar := sidebar[TickersTable := table];
      }
      r := Object(sidebar);
    }
  }

  lemma RatioIgnoresAxis(split: Fields)
    ensures SplitRatio(split[Axis := Text(Horizontal)]) == SplitRatio(split)
    ensures KnownAxis(split) ==> Axis in split
  {
  }

  // The definition of the pane pass, one level deep.
  lemma {:induction false} PaneUnfolds(schema: Schema, v: Json)
    ensures !v.Object? ==> Spec.SanitizePane(schema, v) == Repair(DefaultPane(), [PaneInvalid])
    ensures v.Object? && |v.fields| != 1 ==> Spec.SanitizePane(schema, v) == Repair(DefaultPane(), [PaneMalformed])
    ensures v.Object? && |v.fields| == 1 && Split in v.fields && !v.fields[Split].Object? ==>
              Spec.SanitizePane(schema, v) == Repair(DefaultPane(), [SplitInvalid])
    ensures v.Object? && |v.fields| == 1 && Split !in v.fields ==>
              var tag := OnlyKey(v.fields);
              Spec.SanitizePane(schema, v)
              == (if PaneSteps(tag) == None then Repair(DefaultPane(), [PaneTypeUnknown(tag)])
                  else if !v.fields[tag].Object? then Repair(v, [])
                  else
                    var repaired := ApplySteps(schema, PaneSteps(tag).value, v.fields[tag].fields);
                    Repair(Object(map[tag := repaired.value]), repaired.warnings))
  {
    hide ApplySteps, PaneSteps, RepairedSplit;
  }

  lemma {:induction false} StepsOf1(schema: Schema, a: Step, fields: Fields)
    ensures ApplySteps(schema, [a], fields) == ApplyStep(schema, a, fields)
  {
    assert [a][..0] == [];
  }

  lemma {:induction false} StepsOf2(schema: Schema, a: Step, b: Step, fields: Fields)
    ensures var first := ApplyStep(schema, a, fields);
            var second := ApplyStep(schema, b, first.value.fields);
            ApplySteps(schema, [a, b], fields) == Repair(second.value, first.warnings + second.warnings)
  {
    hide ApplyStep;
    assert [a, b][..1] == [a];
    StepsOf1(schema, a, fields);
  }

  lemma {:induction false} StepsOf3(schema: Schema, a: Step, b: Step, c: Step, fields: Fields)
    ensures var first := ApplyStep(schema, a, fields);
            var second := ApplyStep(schema, b, first.value.fields);
            var third := ApplyStep(schema, c, second.value.fields);
            ApplySteps(schema, [a, b, c], fields) == Repair(third.value, first.warnings + second.warnings + third.warnings)
  {
    hide ApplyStep;
    assert [a, b, c][..2] == [a, b];
    StepsOf2(schema, a, b, fields);
  }

  lemma {:induction false} StepsOf4(schema: Schema, a: Step, b: Step, c: Step, d: Step, fields: Fields)
    ensures var first := ApplyStep(schema, a, fields);
            var second := ApplyStep(schema, b, first.value.fields);
            var third := ApplyStep(schema, c, second.value.fields);
            var fourth := ApplyStep(schema, d, third.value.fields);
            ApplySteps(schema, [a, b, c, d], fields)
            == Repair(fourth.value, first.warnings + second.warnings + third.warnings + fourth.warnings)
  {
    hide ApplyStep;
    assert [a, b, c, d][..3] == [a, b, c];
    StepsOf3(schema, a, b, c, fields);
  }

  ghost predicate HasVersion(value: Json, n: nat) {
    && value.Object? && SavedStateVersion in value.fields
    && value.fields[SavedStateVersion] == Integer(n) && n < 0x1_0000_0000
  }

  /** `migrate_saved_state_value`. */
  method MigrateSavedState(schema: Schema, value: Json) returns (r: Json, report: Report)
    requires AcceptsDefaults(schema)
    ensures r == MigrateRoot(schema, value).value
    ensures r.Object? && RootKept(schema, if value.Object? then value.fields else map[], r.fields)
    ensures report.warnings == MigrateRoot(schema, value).warnings == RootFaults(schema, value)
    ensures report.fromVersion == StoredVersion(value)
    ensures forall n: nat :: HasVersion(value, n) ==> report.fromVersion == n
    ensures (forall n: nat :: !HasVersion(value, n)) ==> report.fromVersion == 0
  {
    MigrationKeeps(schema, value);
    MigrationIsReported(schema, value);
    VersionIsRead(value);
    hide AcceptsDefaults, SanitizeLayoutManager, SanitizeSidebar, RootKept, RootFaults, StoredVersion, HasVersion;
    var sanitizer := new Sanitizer(schema);
    var fromVersion := StoredVersion(value);
    var root := map[];
    if value.Object? {
      root := value.fields;
    } else {
      sanitizer.Warn(RootInvalid);
    }
    root := root[SavedStateVersion := Integer(CURRENT_VERSION)];
    if LayoutManager in root {
      var manager := sanitizer.SanitizeLayoutManager(root[LayoutManager]);
      root := root[LayoutManager := manager];
    }
    if Sidebar in root {
      var sidebar := sanitizer.SanitizeSidebar(root[Sidebar]);
      root := root[Sidebar := sidebar];
    }
    r := Object(root);
    report := Report(fromVersion, sanitizer.warnings);
  }

  lemma VersionIsRead(value: Json)
    ensures forall n: nat :: HasVersion(value, n) ==> StoredVersion(value) == n
    ensures (forall n: nat :: !HasVersion(value, n)) ==> StoredVersion(value) == 0
  {
    if value.Object? && SavedStateVersion in value.fields && value.fields[SavedStateVersion].Integer? {
      var i := value.fields[SavedStateVersion].i;
      if i >= 0 {
        assert i < 0x1_0000_0000 ==> HasVersion(value, i);
      }
    }
  }

  // A document that was repaired, saved and loaded again comes through as it
  // is, with nothing to warn of and no migration to report.
  method MigrateTwice(schema: Schema, value: Json) returns (once: Json, again: Json, report: Report)
    requires AcceptsDefaults(schema)
    ensures once == MigrateRoot(schema, value).value
    ensures again == once && report.warnings == [] && !Migrated(report)
  {
    hide AcceptsDefaults, MigrateRoot;
    var first;
    once, first := MigrateSavedState(schema, value);
    OnePassReachesFixedPoint(schema, value);
    again, report := MigrateSavedState(schema, once);
  }
}
