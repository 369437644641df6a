/**
 One pass of the sanitiser reaches a fixed point. For each pass there are two
 results: its output is clean, and a clean value passes through unchanged and
 without a warning. Together they say that a pass leaves a value alone exactly
 when the value is clean.
 */
module SavedStateProofs {
  import opened Basics
  import opened SavedState

  // ---------------------------------------------------------------------
  // Lists and single values
  // ---------------------------------------------------------------------

  lemma {:induction false} KeptEntriesPass(schema: Schema, pass: Pass, items: seq<Json>)
    requires IsListPass(pass)
    ensures forall i :: 0 <= i < |Kept(schema, pass, items)| ==> Keeps(schema, pass, Kept(schema, pass, items)[i])
    ensures |Kept(schema, pass, items)| + |DropWarnings(schema, pass, items)| == |items|
    decreases |items|
  {
    if items != [] {
      KeptEntriesPass(schema, pass, items[..|items| - 1]);
    }
  }

  lemma {:induction false} CleanListIsKept(schema: Schema, pass: Pass, items: seq<Json>)
    requires IsListPass(pass)
    requires forall i :: 0 <= i < |items| ==> Keeps(schema, pass, items[i])
    ensures Kept(schema, pass, items) == items && DropWarnings(schema, pass, items) == []
    decreases |items|
  {
    if items != [] {
      CleanListIsKept(schema, pass, items[..|items| - 1]);
      assert items == items[..|items| - 1] + [items[|items| - 1]];
    }
  }

  lemma {:induction false} SettingsPass(settings: Fields)
    ensures CleanSettings(RepairSettings(settings).value)
    ensures CleanSettings(Object(settings)) ==> RepairSettings(settings) == Repair(Object(settings), [])
  {
    var known := KnownVisual(settings);
    assert VisualConfig in known ==> known[VisualConfig] == Null || KnownTag(known[VisualConfig], VisualTags());
    if HasKlineConfig(known) {
      var visual := known[VisualConfig].fields;
      var kline := visual[Kline].fields;
      var moved := MoveGexLevels(kline);
      assert moved.value.Object? && GexLevels !in moved.value.fields;
      assert visual[Kline := moved.value].Keys == visual.Keys;
      if GexLevels !in kline {
        assert visual[Kline := moved.value] == visual;
        assert known[VisualConfig := Object(visual)] == known;
      }
    }
  }

  lemma {:induction false} ApplyReachesPass(schema: Schema, pass: Pass, v: Json)
    requires AcceptsDefaults(schema)
    ensures Passes(schema, pass, Apply(schema, pass, v).value)
    ensures Passes(schema, pass, v) ==> Apply(schema, pass, v) == Repair(v, [])
  {
    if IsListPass(pass) {
      if v.List? {
        KeptEntriesPass(schema, pass, v.items);
        if Passes(schema, pass, v) {
          CleanListIsKept(schema, pass, v.items);
        }
      }
    } else if pass.CheckSettings? && v.Object? {
      SettingsPass(v.fields);
    }
  }

  // ---------------------------------------------------------------------
  // Fields of an object
  // ---------------------------------------------------------------------

  ghost predicate DistinctKeys(steps: seq<Step>) {
    forall i, j :: 0 <= i < j < |steps| ==> steps[i].key != steps[j].key
  }

  ghost predicate DefaultsPass(schema: Schema, steps: seq<Step>) {
    forall i :: 0 <= i < |steps| && steps[i].default.Some? ==> Passes(schema, steps[i].pass, steps[i].default.value)
  }

  ghost predicate Touches(steps: seq<Step>, key: Word) {
    exists i :: 0 <= i < |steps| && steps[i].key == key
  }

  lemma {:induction false} StepsReachPasses(schema: Schema, steps: seq<Step>, fields: Fields)
    requires AcceptsDefaults(schema) && DistinctKeys(steps) && DefaultsPass(schema, steps)
    ensures SatisfiesAll(schema, steps, ApplySteps(schema, steps, fields).value.fields)
    ensures SatisfiesAll(schema, steps, fields) ==> ApplySteps(schema, steps, fields) == Repair(Object(fields), [])
    decreases |steps|
  {
    if steps != [] {
      var front, last := steps[..|steps| - 1], steps[|steps| - 1];
      StepsReachPasses(schema, front, fields);
      var before := ApplySteps(schema, front, fields).value.fields;
      if last.key in before {
        ApplyReachesPass(schema, last.pass, before[last.key]);
      }
      if SatisfiesAll(schema, steps, fields) {
        assert SatisfiesAll(schema, front, fields) && Satisfies(schema, last, fields);
        assert before == fields;
        if last.key in fields {
          assert fields[last.key := fields[last.key]] == fields;
        }
      }
      var after := ApplySteps(schema, steps, fields).value.fields;
      forall i | 0 <= i < |steps| ensures Satisfies(schema, steps[i], after) {
        if i < |front| {
          assert Satisfies(schema, front[i], before) && steps[i].key != last.key;
        }
      }
    }
  }

  // A pass leaves every field it does not know alone.
  lemma {:induction false} OtherFieldsKept(schema: Schema, steps: seq<Step>, fields: Fields, key: Word)
    requires !Touches(steps, key)
    ensures var after := ApplySteps(schema, steps, fields).value.fields;
            && (key in after <==> key in fields)
            && (key in fields ==> after[key] == fields[key])
    decreases |steps|
  {
    if steps != [] {
      var front := steps[..|steps| - 1];
      assert !Touches(front, key);
      OtherFieldsKept(schema, front, fields, key);
      assert steps[|steps| - 1].key != key;
    }
  }

  lemma {:induction false} PaneStepsAreProper(schema: Schema, tag: Word)
    requires AcceptsDefaults(schema) && PaneSteps(tag).Some?
    ensures DistinctKeys(PaneSteps(tag).value) && DefaultsPass(schema, PaneSteps(tag).value)
  {
    hide DefaultsPass, Empty;
    DefaultsPassHere(schema);
    PaneDefaultsPass(schema, tag);
  }

  lemma {:induction false} PaneDefaultsPass(schema: Schema, tag: Word)
    requires PaneSteps(tag).Some?
    requires Passes(schema, CheckSettings, Empty()) && Passes(schema, CheckNews, Empty())
    requires Passes(schema, CheckKlineKind, Text(Candles))
    ensures DefaultsPass(schema, PaneSteps(tag).value)
  {
    hide Passes, Empty;
  }

  lemma {:induction false} DefaultsPassHere(schema: Schema)
    requires AcceptsDefaults(schema)
    ensures Passes(schema, CheckSettings, Empty())
    ensures Passes(schema, CheckNews, Empty())
    ensures Passes(schema, CheckKlineKind, Text(Candles))
  {
  }

  lemma {:induction false} OnlyKeyIs(fields: Fields, key: Word)
    requires |fields| == 1 && key in fields
    ensures OnlyKey(fields) == key && fields == map[key := fields[key]]
  {
    forall other: Word | other in fields ensures other == key {
      if other != key {
        assert {key, other} <= fields.Keys;
        SubsetIsSmaller({key, other}, fields.Keys);
      }
    }
  }

  lemma {:induction false} SubsetIsSmaller(a: set<Word>, b: set<Word>)
    requires a <= b
    ensures |a| <= |b|
  {
    if a != {} {
      var x :| x in a;
      SubsetIsSmaller(a - {x}, b - {x});
    }
  }

  // ---------------------------------------------------------------------
  // The split tree
  // ---------------------------------------------------------------------

  lemma {:induction false} DefaultPaneIsClean(schema: Schema)
    ensures CleanPane(schema, DefaultPane())
  {
    OnlyKeyIs(DefaultPane().fields, Starter);
  }

  lemma {:induction false} DefaultsAreClean(schema: Schema)
    ensures CleanPane(schema, DefaultPane()) && CleanPopouts(schema, [])
    ensures CleanDashboard(schema, DefaultDashboard())
    ensures CleanLayout(schema, DefaultLayout()) && CleanLayouts(schema, [DefaultLayout()])
  {
    DefaultPaneIsClean(schema);
    hide CleanPane;
    assert DefaultLayout().fields[Dashboard] == DefaultDashboard();
  }

  lemma {:induction false} PaneReachesClean(schema: Schema, v: Json)
    requires AcceptsDefaults(schema)
    ensures CleanPane(schema, SanitizePane(schema, v).value)
    ensures CleanPane(schema, v) ==> SanitizePane(schema, v) == Repair(v, [])
    decreases v
  {
    hide PaneSteps, ApplySteps, AcceptsDefaults, RepairedSplit, ProperSplit, KnownAxis, DefaultPane;
    DefaultPaneIsClean(schema);
    if v.Object? && |v.fields| == 1 {
      var tag := OnlyKey(v.fields);
      OnlyKeyIs(v.fields, tag);
      if Split in v.fields {
        if v.fields[Split].Object? {
          var split := v.fields[Split].fields;
          if BranchA in split { PaneReachesClean(schema, split[BranchA]); }
          if BranchB in split { PaneReachesClean(schema, split[BranchB]); }
          hide SanitizePane, CleanPane;
          SplitReachesClean(schema, split);
        }
      } else if PaneSteps(tag).Some? && v.fields[tag].Object? {
        LeafReachesClean(schema, tag, v.fields[tag].fields);
      }
    }
  }

  lemma {:induction false} LeafReachesClean(schema: Schema, tag: Word, fields: Fields)
    requires AcceptsDefaults(schema) && PaneSteps(tag).Some? && tag != Split
    ensures var v := Object(map[tag := Object(fields)]);
            && CleanPane(schema, SanitizePane(schema, v).value)
            && (CleanPane(schema, v) ==> SanitizePane(schema, v) == Repair(v, []))
  {
    hide PaneSteps, ApplySteps, AcceptsDefaults, RepairedSplit, ProperSplit, KnownAxis, DefaultPane, SatisfiesAll, DefaultsPass;
    PaneStepsAreProper(schema, tag);
    StepsReachPasses(schema, PaneSteps(tag).value, fields);
    var repaired := ApplySteps(schema, PaneSteps(tag).value, fields).value;
    OnlyKeyIs(map[tag := Object(fields)], tag);
    OnlyKeyIs(map[tag := repaired], tag);
  }

  ghost function SplitPane(split: Fields): Json { Object(map[Split := Object(split)]) }

  // What becomes of a branch, which may be missing.
  ghost function Branch(schema: Schema, split: Fields, key: Word): Repair {
    if key in split then SanitizePane(schema, split[key]) else Repair(DefaultPane(), [])
  }

  // The definition of the pane pass on a split.
  lemma {:induction false} SplitUnfolds(schema: Schema, split: Fields)
    ensures var (a, b) := (Branch(schema, split, BranchA), Branch(schema, split, BranchB));
            SanitizePane(schema, SplitPane(split))
            == Repair(SplitPane(RepairedSplit(split, a.value, b.value)),
                      (if KnownAxis(split) then [] else [AxisInvalid]) + a.warnings + b.warnings)
  {
    hide ApplySteps, PaneSteps, RepairedSplit, KnownAxis, DefaultPane;
  }

  lemma {:induction false} SplitReachesClean(schema: Schema, split: Fields)
    requires BranchA in split ==>
               && CleanPane(schema, SanitizePane(schema, split[BranchA]).value)
               && (CleanPane(schema, split[BranchA]) ==> SanitizePane(schema, split[BranchA]) == Repair(split[BranchA], []))
    requires BranchB in split ==>
               && CleanPane(schema, SanitizePane(schema, split[BranchB]).value)
               && (CleanPane(schema, split[BranchB]) ==> SanitizePane(schema, split[BranchB]) == Repair(split[BranchB], []))
    ensures var v := SplitPane(split);
            && CleanPane(schema, SanitizePane(schema, v).value)
            && (CleanPane(schema, v) ==> SanitizePane(schema, v) == Repair(v, []))
  {
    hide KnownAxis, RepairedSplit, ProperSplit, CleanPane, SanitizePane, DefaultPane, SplitPane;
    DefaultPaneIsClean(schema);
    SplitUnfolds(schema, split);
    var (a, b) := (Branch(schema, split, BranchA), Branch(schema, split, BranchB));
    SplitIsRepaired(split, a.value, b.value);
    CleanSplit(schema, split);
    CleanSplit(schema, RepairedSplit(split, a.value, b.value));
  }

  lemma {:induction false} CleanSplit(schema: Schema, split: Fields)
    ensures CleanPane(schema, SplitPane(split))
       <==> (ProperSplit(split)
             && BranchA in split && CleanPane(schema, split[BranchA])
             && BranchB in split && CleanPane(schema, split[BranchB]))
  {
    hide ProperSplit;
  }

  lemma {:induction false} SplitIsRepaired(split: Fields, a: Json, b: Json)
    ensures var repaired := RepairedSplit(split, a, b);
            && ProperSplit(repaired)
            && BranchA in repaired && repaired[BranchA] == a
            && BranchB in repaired && repaired[BranchB] == b
            && (ProperSplit(split) && BranchA in split && BranchB in split && split[BranchA] == a && split[BranchB] == b ==>
                  repaired == split && KnownAxis(split))
  {
  }

  // ---------------------------------------------------------------------
  // Dashboards and layouts
  // ---------------------------------------------------------------------

  lemma {:induction false} PopoutsBecomeClean(schema: Schema, entries: seq<Json>)
    requires AcceptsDefaults(schema)
    ensures CleanPopouts(schema, SanitizePopouts(schema, entries).value.items)
    decreases |entries|
  {
    hide SanitizePane, CleanPane, AcceptsDefaults;
    if entries != [] {
      var front, entry := entries[..|entries| - 1], entries[|entries| - 1];
      PopoutsBecomeClean(schema, front);
      if IsPair(entry) {
        PaneReachesClean(schema, entry.items[0]);
        assert CleanPopout(schema, List([SanitizePane(schema, entry.items[0]).value, entry.items[1]]));
      }
    }
  }

  lemma {:induction false} CleanPopoutsPass(schema: Schema, entries: seq<Json>)
    requires AcceptsDefaults(schema) && CleanPopouts(schema, entries)
    ensures SanitizePopouts(schema, entries) == Repair(List(entries), [])
    decreases |entries|
  {
    hide SanitizePane, CleanPane, AcceptsDefaults;
    if entries != [] {
      var front, entry := entries[..|entries| - 1], entries[|entries| - 1];
      CleanPopoutsPass(schema, front);
      assert CleanPopout(schema, entry);
      PaneReachesClean(schema, entry.items[0]);
      assert entry.items == [entry.items[0], entry.items[1]];
      assert entries == front + [entry];
    }
  }

  lemma {:induction false} DashboardReachesClean(schema: Schema, v: Json)
    requires AcceptsDefaults(schema)
    ensures CleanDashboard(schema, SanitizeDashboard(schema, v).value)
    ensures CleanDashboard(schema, v) ==> SanitizeDashboard(schema, v) == Repair(v, [])
  {
    hide SanitizePane, CleanPane, SanitizePopouts, CleanPopouts, AcceptsDefaults;
    DefaultsAreClean(schema);
    if v.Object? {
      if Pane in v.fields { PaneReachesClean(schema, v.fields[Pane]); }
      if Popout in v.fields && v.fields[Popout].List? { PopoutsBecomeClean(schema, v.fields[Popout].items); }
      var repaired := SanitizeDashboard(schema, v).value;
      assert CleanPane(schema, repaired.fields[Pane]);
      if CleanDashboard(schema, v) {
        CleanPopoutsPass(schema, v.fields[Popout].items);
        assert v.fields[Pane := v.fields[Pane]][Popout := v.fields[Popout]] == v.fields;
      }
    }
  }

  lemma {:induction false} LayoutReachesClean(schema: Schema, v: Json)
    requires AcceptsDefaults(schema)
    ensures CleanLayout(schema, SanitizeLayout(schema, v).value)
    ensures CleanLayout(schema, v) ==> SanitizeLayout(schema, v) == Repair(v, [])
  {
    hide SanitizeDashboard, CleanDashboard, AcceptsDefaults;
    DefaultsAreClean(schema);
    if v.Object? {
      DashboardReachesClean(schema, if Dashboard in v.fields then v.fields[Dashboard] else Empty());
      if CleanLayout(schema, v) {
        assert v.fields[Name := v.fields[Name]][Dashboard := v.fields[Dashboard]] == v.fields;
      }
    }
  }

  lemma {:induction false} LayoutsBecomeClean(schema: Schema, layouts: seq<Json>)
    requires AcceptsDefaults(schema)
    ensures CleanLayouts(schema, SanitizeLayouts(schema, layouts).value.items)
    ensures |SanitizeLayouts(schema, layouts).value.items| == |layouts|
    decreases |layouts|
  {
    hide SanitizeLayout, CleanLayout, AcceptsDefaults;
    if layouts != [] {
      LayoutsBecomeClean(schema, layouts[..|layouts| - 1]);
      LayoutReachesClean(schema, layouts[|layouts| - 1]);
    }
  }

  lemma {:induction false} CleanLayoutsPass(schema: Schema, layouts: seq<Json>)
    requires AcceptsDefaults(schema) && CleanLayouts(schema, layouts)
    ensures SanitizeLayouts(schema, layouts) == Repair(List(layouts), [])
    decreases |layouts|
  {
    hide SanitizeLayout, CleanLayout, AcceptsDefaults;
    if layouts != [] {
      CleanLayoutsPass(schema, layouts[..|layouts| - 1]);
      LayoutReachesClean(schema, layouts[|layouts| - 1]);
      assert layouts == layouts[..|layouts| - 1] + [layouts[|layouts| - 1]];
    }
  }

  lemma {:induction false} LayoutManagerReachesClean(schema: Schema, v: Json)
    requires AcceptsDefaults(schema)
    ensures CleanLayoutManager(schema, SanitizeLayoutManager(schema, v).value)
    ensures CleanLayoutManager(schema, v) ==> SanitizeLayoutManager(schema, v) == Repair(v, [])
  {
    hide SanitizeLayouts, CleanLayout, CleanLayouts, AcceptsDefaults;
    DefaultsAreClean(schema);
    if v.Object? && Layouts in v.fields && v.fields[Layouts].List? {
      LayoutsBecomeClean(schema, v.fields[Layouts].items);
      if CleanLayoutManager(schema, v) {
        CleanLayoutsPass(schema, v.fields[Layouts].items);
        assert v.fields[Layouts := v.fields[Layouts]] == v.fields;
      }
    }
  }

  // ---------------------------------------------------------------------
  // Sidebar and root
  // ---------------------------------------------------------------------

  lemma {:induction false} TableDefaultsAreClean(schema: Schema)
    requires AcceptsDefaults(schema)
    ensures CleanTable(schema, Object(TableDefaults()))
    ensures DistinctKeys(TableSteps()) && DefaultsPass(schema, TableSteps())
  {
  }

  lemma {:induction false} FilledTableReachesPasses(schema: Schema, fields: Fields)
    requires AcceptsDefaults(schema)
    ensures var repaired := ApplySteps(schema, TableSteps(), TableDefaults() + fields);
            && TableDefaults().Keys <= repaired.value.fields.Keys
            && SatisfiesAll(schema, TableSteps(), repaired.value.fields)
            && (TableDefaults().Keys <= fields.Keys && SatisfiesAll(schema, TableSteps(), fields) ==>
                  repaired == Repair(Object(fields), []))
  {
    hide TableDefaults, TableSteps, ApplySteps, SatisfiesAll, AcceptsDefaults, DistinctKeys, DefaultsPass;
    TableDefaultsAreClean(schema);
    var filled := TableDefaults() + fields;
    StepsReachPasses(schema, TableSteps(), filled);
    StepsKeepKeys(schema, TableSteps(), filled);
    if TableDefaults().Keys <= fields.Keys {
      assert filled == fields;
    }
  }

  lemma {:induction false} TableReachesClean(schema: Schema, v: Json)
    requires AcceptsDefaults(schema)
    ensures CleanTable(schema, SanitizeTable(schema, v).value)
    ensures CleanTable(schema, v) ==> SanitizeTable(schema, v) == Repair(v, [])
  {
    hide TableDefaults, TableSteps, ApplySteps, SatisfiesAll, AcceptsDefaults, DistinctKeys, DefaultsPass;
    TableDefaultsAreClean(schema);
    match v
    case Object(fields) =>
      FilledTableReachesPasses(schema, fields);
      var repaired := ApplySteps(schema, TableSteps(), TableDefaults() + fields);
      assert schema(TableSettings, repaired.value) ==> CleanTable(schema, repaired.value);
    case _ =>
  }

  lemma {:induction false} StepsKeepKeys(schema: Schema, steps: seq<Step>, fields: Fields)
    ensures fields.Keys <= ApplySteps(schema, steps, fields).value.fields.Keys
    decreases |steps|
  {
    if steps != [] {
      StepsKeepKeys(schema, steps[..|steps| - 1], fields);
    }
  }

  lemma {:induction false} SidebarReachesClean(schema: Schema, v: Json)
    requires AcceptsDefaults(schema)
    ensures CleanSidebar(schema, SanitizeSidebar(schema, v).value)
    ensures CleanSidebar(schema, v) ==> SanitizeSidebar(schema, v) == Repair(v, [])
  {
    TableReachesClean(schema, Null);
    hide SanitizeTable, CleanTable, AcceptsDefaults;
    if v.Object? && TickersTable in v.fields {
      TableReachesClean(schema, v.fields[TickersTable]);
      if CleanSidebar(schema, v) {
        assert v.fields[TickersTable := v.fields[TickersTable]] == v.fields;
      }
    }
  }

  ghost predicate CleanParts(schema: Schema, root: Fields) {
    && (LayoutManager in root ==> CleanLayoutManager(schema, root[LayoutManager]))
    && (Sidebar in root ==> CleanSidebar(schema, root[Sidebar]))
  }

  lemma {:induction false} PartsReachClean(schema: Schema, root: Fields)
    requires AcceptsDefaults(schema)
    ensures var manager, sidebar := RepairedManager(schema, root), RepairedSidebar(schema, root);
            && (manager.Some? <==> LayoutManager in root)
            && (sidebar.Some? <==> Sidebar in root)
            && (manager.Some? ==> CleanLayoutManager(schema, manager.value.value))
            && (sidebar.Some? ==> CleanSidebar(schema, sidebar.value.value))
            && (CleanParts(schema, root) ==>
                  && (manager.Some? ==> manager.value == Repair(root[LayoutManager], []))
                  && (sidebar.Some? ==> sidebar.value == Repair(root[Sidebar], [])))
  {
    hide SanitizeLayoutManager, CleanLayoutManager, SanitizeSidebar, CleanSidebar, AcceptsDefaults;
    if LayoutManager in root { LayoutManagerReachesClean(schema, root[LayoutManager]); }
    if Sidebar in root { SidebarReachesClean(schema, root[Sidebar]); }
  }

  lemma {:induction false} RootReachesClean(schema: Schema, v: Json)
    requires AcceptsDefaults(schema)
    ensures CleanRoot(schema, MigrateRoot(schema, v).value)
    ensures CleanRoot(schema, v) ==> MigrateRoot(schema, v) == Repair(v, [])
  {
    hide RepairedManager, RepairedSidebar, CleanLayoutManager, CleanSidebar, AcceptsDefaults, WithField;
    var root := if v.Object? then v.fields else map[];
    PartsReachClean(schema, root);
    RootFields(root, RepairedManager(schema, root), RepairedSidebar(schema, root));
  }

  lemma {:induction false} RootFields(root: Fields, manager: Option<Repair>, sidebar: Option<Repair>)
    requires manager.Some? <==> LayoutManager in root
    requires sidebar.Some? <==> Sidebar in root
    ensures var versioned := root[SavedStateVersion := Integer(CURRENT_VERSION)];
            var final := WithField(WithField(versioned, LayoutManager, manager), Sidebar, sidebar);
            && SavedStateVersion in final && final[SavedStateVersion] == Integer(CURRENT_VERSION)
            && (LayoutManager in final <==> manager.Some?)
            && (manager.Some? ==> final[LayoutManager] == manager.value.value)
            && (Sidebar in final <==> sidebar.Some?)
            && (sidebar.Some? ==> final[Sidebar] == sidebar.value.value)
            && (&& SavedStateVersion in root && root[SavedStateVersion] == Integer(CURRENT_VERSION)
                && (manager.Some? ==> root[LayoutManager] == manager.value.value)
                && (sidebar.Some? ==> root[Sidebar] == sidebar.value.value)
                ==> final == root)
  {
  }

  // The main result, for every JSON value: after one pass, a second one
  // changes nothing, warns of nothing and migrates nothing; and a pass leaves
  // exactly the clean values alone.
  lemma {:induction false} OnePassReachesFixedPoint(schema: Schema, v: Json)
    requires AcceptsDefaults(schema)
    ensures var once := MigrateRoot(schema, v).value;
            && MigrateRoot(schema, once) == Repair(once, [])
            && StoredVersion(once) == CURRENT_VERSION
    ensures MigrateRoot(schema, v) == Repair(v, []) <==> CleanRoot(schema, v)
  {
    RootReachesClean(schema, v);
    RootReachesClean(schema, MigrateRoot(schema, v).value);
  }
}
