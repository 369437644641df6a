/**
 The relations between a document and what the sanitiser makes of it leave
 nothing open: each value is related to one other value only.
 */
module SavedStateUnique {
  import opened Basics
  import opened SavedState
  import opened SavedStateProofs
  import opened SavedStateTrees
  import opened SavedStateKept

  lemma SameFields(a: Fields, b: Fields)
    requires forall key :: SameField(a, b, key)
    ensures a == b
  {
    forall key ensures key in a <==> key in b {
      assert SameField(a, b, key);
    }
    forall key | key in a ensures a[key] == b[key] {
      assert SameField(a, b, key);
    }
  }

  // What is the same as in `before` is the same in both.
  lemma SameAsBefore(before: Fields, a: Fields, b: Fields, key: Word)
    requires SameField(before, a, key) && SameField(before, b, key)
    ensures SameField(a, b, key)
  {
  }

  lemma LevelsMoveOneWay(kline: Fields, a: Fields, b: Fields)
    requires LevelsMoved(kline, a) && LevelsMoved(kline, b)
    ensures a == b
  {
    hide LevelsTaken, SameField;
    forall key ensures SameField(a, b, key) {
      if key == GexLevels {
        MissingInBoth(a, b, key);
      } else if key == IndicatorConfigs {
        if GexLevels !in kline || (IndicatorConfigs in kline && !kline[IndicatorConfigs].Object?) {
          SameAsBefore(kline, a, b, key);
        } else {
          var configs := if IndicatorConfigs in kline then kline[IndicatorConfigs].fields else map[];
          LevelsAreTakenOneWay(configs, a[key].fields, b[key].fields, kline[GexLevels]);
          EqualInBoth(a, b, key);
        }
      } else {
        SameAsBefore(kline, a, b, key);
      }
    }
    SameFields(a, b);
  }

  lemma MissingInBoth(a: Fields, b: Fields, key: Word)
    requires key !in a && key !in b
    ensures SameField(a, b, key)
  {
  }

  lemma EqualInBoth(a: Fields, b: Fields, key: Word)
    requires key in a && key in b && a[key] == b[key]
    ensures SameField(a, b, key)
  {
  }

  lemma LevelsAreTakenOneWay(configs: Fields, a: Fields, b: Fields, levels: Json)
    requires LevelsTaken(configs, a, levels) && LevelsTaken(configs, b, levels)
    ensures a == b
  {
    hide SameField;
    forall key ensures SameField(a, b, key) {
      if key == GexLevels {
        EqualInBoth(a, b, key);
      } else {
        SameAsBefore(configs, a, b, key);
      }
    }
    SameFields(a, b);
  }

  lemma VisualIsKeptOneWay(visual: Fields, a: Fields, b: Fields)
    requires Kline in visual && visual[Kline].Object? && Kline in a && a[Kline].Object? && Kline in b && b[Kline].Object?
    requires forall key :: key != Kline ==> SameField(visual, a, key) && SameField(visual, b, key)
    requires LevelsMoved(visual[Kline].fields, a[Kline].fields) && LevelsMoved(visual[Kline].fields, b[Kline].fields)
    ensures a == b
  {
    hide LevelsMoved, SameField;
    forall key ensures SameField(a, b, key) {
      if key == Kline {
        LevelsMoveOneWay(visual[key].fields, a[key].fields, b[key].fields);
        EqualInBoth(a, b, key);
      } else {
        SameAsBefore(visual, a, b, key);
      }
    }
    SameFields(a, b);
  }

  lemma SettingsAreKeptOneWay(before: Fields, a: Fields, b: Fields)
    requires SettingsKept(before, a) && SettingsKept(before, b)
    ensures a == b
  {
    hide LevelsMoved, SameField;
    forall key ensures SameField(a, b, key) {
      if key != VisualConfig {
        SameAsBefore(before, a, b, key);
      } else if VisualConfig in before && before[key] != Null && !KnownTag(before[key], VisualTags()) {
        MissingInBoth(a, b, key);
      } else if HasKlineConfig(before) {
        VisualIsKeptOneWay(before[key].fields, a[key].fields, b[key].fields);
        EqualInBoth(a, b, key);
      } else {
        SameAsBefore(before, a, b, key);
      }
    }
    SameFields(a, b);
  }

  lemma {:induction false} ValueIsKeptOneWay(schema: Schema, pass: Pass, v: Json, a: Json, b: Json)
    requires ValueKept(schema, pass, v, a) && ValueKept(schema, pass, v, b)
    ensures a == b
  {
    hide SettingsKept, Selected;
    if pass.CheckSettings? && v.Object? {
      SettingsAreKeptOneWay(v.fields, a.fields, b.fields);
    } else if IsListPass(pass) && v.List? {
      ListIsSelected(schema, pass, v.items, a.items);
      ListIsSelected(schema, pass, v.items, b.items);
    }
  }

  lemma FieldIsKeptOneWay(schema: Schema, check: Option<Pass>, filler: Option<Json>, before: Fields, a: Fields, b: Fields, key: Word)
    requires FieldKept(schema, check, filler, before, a, key) && FieldKept(schema, check, filler, before, b, key)
    ensures SameField(a, b, key)
  {
    hide ValueKept;
    if key in before && check.Some? {
      ValueIsKeptOneWay(schema, check.value, before[key], a[key], b[key]);
    }
  }

  lemma LeafIsKeptOneWay(schema: Schema, tag: Word, before: Json, a: Json, b: Json)
    requires LeafKept(schema, tag, before, a) && LeafKept(schema, tag, before, b)
    ensures a == b
  {
    hide FieldKept, SameField;
    if before.Object? {
      forall key ensures SameField(a.fields, b.fields, key) {
        FieldIsKeptOneWay(schema, CheckOf(tag, key), Filler(tag, key), before.fields, a.fields, b.fields, key);
      }
      SameFields(a.fields, b.fields);
    }
  }

  lemma RatioIsKeptOneWay(before: Fields, a: Fields, b: Fields)
    requires RatioKept(before, a) && RatioKept(before, b)
    ensures SameField(a, b, Ratio)
  {
  }

  lemma FrameIsKeptOneWay(before: Fields, a: Fields, b: Fields, key: Word)
    requires FrameKept(before, a) && FrameKept(before, b) && key !in {BranchA, BranchB}
    ensures SameField(a, b, key)
  {
    hide RatioKept, KnownAxis, SameField;
    if key == Axis {
      EqualInBoth(a, b, key);
    } else if key == Ratio {
      RatioIsKeptOneWay(before, a, b);
    } else {
      SameAsBefore(before, a, b, key);
    }
  }

  lemma OneField(fields: Fields, tag: Word)
    requires fields.Keys == {tag}
    ensures fields == map[tag := fields[tag]]
  {
  }

  lemma {:induction false} PaneIsKeptOneWay(schema: Schema, v: Json, a: Json, b: Json)
    requires PaneKept(schema, v, a) && PaneKept(schema, v, b)
    ensures a == b
    decreases v
  {
    hide FrameKept, LeafKept, DefaultPane, KnownKind, SameField;
    if v.Object? && |v.fields| == 1 {
      var tag := OnlyKey(v.fields);
      OnlyKeyIs(v.fields, tag);
      if Split in v.fields {
        if v.fields[Split].Object? {
          var (before, x, y) := (v.fields[Split].fields, a.fields[Split].fields, b.fields[Split].fields);
          if BranchA in before {
            PaneIsKeptOneWay(schema, before[BranchA], x[BranchA], y[BranchA]);
          }
          if BranchB in before {
            PaneIsKeptOneWay(schema, before[BranchB], x[BranchB], y[BranchB]);
          }
          hide PaneKept;
          forall key ensures SameField(x, y, key) {
            if key in {BranchA, BranchB} {
              EqualInBoth(x, y, key);
            } else {
              FrameIsKeptOneWay(before, x, y, key);
            }
          }
          SameFields(x, y);
          OneField(a.fields, Split);
          OneField(b.fields, Split);
        }
      } else if KnownKind(tag) {
        LeafIsKeptOneWay(schema, tag, v.fields[tag], a.fields[tag], b.fields[tag]);
        OneField(a.fields, tag);
        OneField(b.fields, tag);
      }
    }
  }

  lemma {:induction false} PopoutIsKeptOneWay(schema: Schema, entry: Json, a: Json, b: Json)
    requires PopoutKept(schema, entry, a) && PopoutKept(schema, entry, b)
    ensures a == b
  {
    hide PaneKept;
    PaneIsKeptOneWay(schema, entry.items[0], a.items[0], b.items[0]);
    assert a.items == [a.items[0], a.items[1]] && b.items == [b.items[0], b.items[1]];
  }

  lemma LastPopout(schema: Schema, entries: seq<Json>, kept: seq<Json>)
    requires entries != [] && PopoutsKept(schema, entries, kept)
    ensures var last, n := |entries| - 1, |kept| - 1;
            if IsPair(entries[last])
            then kept != [] && PopoutKept(schema, entries[last], kept[n]) && PopoutsKept(schema, entries[..last], kept[..n])
            else PopoutsKept(schema, entries[..last], kept)
  {
    var (last, flags) := (|entries| - 1, Pairs(entries));
    assert flags[last] == IsPair(entries[last]);
    hide PopoutKept, IsPair;
    PairsOfFront(entries);
    assert Count(flags) == Count(flags[..last]) + if flags[last] then 1 else 0;
    forall i: nat | i < last && flags[i] ensures Count(flags[..i]) < Count(flags[..last]) {
      CountsAscend(flags[..last], i);
    }
  }

  lemma NoneOfNone(schema: Schema, kept: seq<Json>)
    requires PopoutsKept(schema, [], kept)
    ensures kept == []
  {
  }

  lemma {:induction false} PopoutsAreKeptOneWay(schema: Schema, entries: seq<Json>, a: seq<Json>, b: seq<Json>)
    requires PopoutsKept(schema, entries, a) && PopoutsKept(schema, entries, b)
    ensures a == b
    decreases |entries|
  {
    hide PopoutsKept, PopoutKept, IsPair;
    if entries == [] {
      NoneOfNone(schema, a);
      NoneOfNone(schema, b);
    } else {
      var last := |entries| - 1;
      LastPopout(schema, entries, a);
      LastPopout(schema, entries, b);
      if IsPair(entries[last]) {
        PopoutIsKeptOneWay(schema, entries[last], a[|a| - 1], b[|b| - 1]);
        PopoutsAreKeptOneWay(schema, entries[..last], a[..|a| - 1], b[..|b| - 1]);
        assert a == a[..|a| - 1] + [a[|a| - 1]] && b == b[..|b| - 1] + [b[|b| - 1]];
      } else {
        PopoutsAreKeptOneWay(schema, entries[..last], a, b);
      }
    }
  }

  lemma {:induction false} DashboardIsKeptOneWay(schema: Schema, v: Json, a: Json, b: Json)
    requires DashboardKept(schema, v, a) && DashboardKept(schema, v, b)
    ensures a == b
  {
    hide PaneKept, PopoutsKept, DefaultPane, DefaultDashboard, SameField;
    if v.Object? {
      forall key ensures SameField(a.fields, b.fields, key) {
        if key == Pane {
          if Pane in v.fields {
            PaneIsKeptOneWay(schema, v.fields[key], a.fields[key], b.fields[key]);
          }
          EqualInBoth(a.fields, b.fields, key);
        } else if key == Popout {
          if Popout in v.fields && v.fields[Popout].List? {
            PopoutsAreKeptOneWay(schema, v.fields[key].items, a.fields[key].items, b.fields[key].items);
          }
          EqualInBoth(a.fields, b.fields, key);
        } else {
          SameAsBefore(v.fields, a.fields, b.fields, key);
        }
      }
      SameFields(a.fields, b.fields);
    }
  }

  lemma {:induction false} LayoutIsKeptOneWay(schema: Schema, v: Json, a: Json, b: Json)
    requires LayoutKept(schema, v, a) && LayoutKept(schema, v, b)
    ensures a == b
  {
    hide DashboardKept, DefaultLayout, SameField;
    if v.Object? {
      forall key ensures SameField(a.fields, b.fields, key) {
        if key == Name {
          EqualInBoth(a.fields, b.fields, key);
        } else if key == Dashboard {
          DashboardIsKeptOneWay(schema, if key in v.fields then v.fields[key] else Object(map[]), a.fields[key], b.fields[key]);
          EqualInBoth(a.fields, b.fields, key);
        } else {
          SameAsBefore(v.fields, a.fields, b.fields, key);
        }
      }
      SameFields(a.fields, b.fields);
    }
  }

  lemma {:induction false} ManagerIsKeptOneWay(schema: Schema, v: Json, a: Json, b: Json)
    requires ManagerKept(schema, v, a) && ManagerKept(schema, v, b)
    ensures a == b
  {
    hide LayoutKept, DefaultLayout, DefaultManager, SameField;
    if v.Object? {
      forall key ensures SameField(a.fields, b.fields, key) {
        if key == Layouts {
          var x, y := a.fields[key].items, b.fields[key].items;
          if Layouts in v.fields && v.fields[Layouts].List? {
            forall i | 0 <= i < |x| ensures x[i] == y[i] {
              LayoutIsKeptOneWay(schema, v.fields[key].items[i], x[i], y[i]);
            }
          }
          EqualInBoth(a.fields, b.fields, key);
        } else {
          SameAsBefore(v.fields, a.fields, b.fields, key);
        }
      }
      SameFields(a.fields, b.fields);
    }
  }

  lemma {:induction false} TableFieldsAreKeptOneWay(schema: Schema, before: Fields, a: Fields, b: Fields)
    requires TableFieldsKept(schema, before, a) && TableFieldsKept(schema, before, b)
    ensures a == b
  {
    hide FieldKept, SameField;
    forall key ensures SameField(a, b, key) {
      FieldIsKeptOneWay(schema, TableCheck(key), TableFiller(key), before, a, b, key);
    }
    SameFields(a, b);
  }

  lemma {:induction false} TableIsKeptOneWay(schema: Schema, v: Json, a: Json, b: Json)
    requires TableKept(schema, v, a) && TableKept(schema, v, b)
    ensures a == b
  {
    hide TableFieldsKept, TableDefaults;
    if v.Object? {
      var x :| TableFieldsKept(schema, v.fields, x)
               && a == if schema(TableSettings, Object(x)) then Object(x) else Object(TableDefaults());
      var y :| TableFieldsKept(schema, v.fields, y)
               && b == if schema(TableSettings, Object(y)) then Object(y) else Object(TableDefaults());
      TableFieldsAreKeptOneWay(schema, v.fields, x, y);
    }
  }

  lemma {:induction false} SidebarIsKeptOneWay(schema: Schema, v: Json, a: Json, b: Json)
    requires SidebarKept(schema, v, a) && SidebarKept(schema, v, b)
    ensures a == b
  {
    hide TableKept, DefaultSidebar, KnownPosition, SameField;
    if v.Object? {
      forall key ensures SameField(a.fields, b.fields, key) {
        if key == Position {
          EqualInBoth(a.fields, b.fields, key);
        } else if key == TickersTable {
          if key in v.fields {
            TableIsKeptOneWay(schema, v.fields[key], a.fields[key], b.fields[key]);
            EqualInBoth(a.fields, b.fields, key);
          } else {
            MissingInBoth(a.fields, b.fields, key);
          }
        } else {
          SameAsBefore(v.fields, a.fields, b.fields, key);
        }
      }
      SameFields(a.fields, b.fields);
    }
  }

  lemma {:induction false} RootIsKeptOneWay(schema: Schema, before: Fields, a: Fields, b: Fields)
    requires RootKept(schema, before, a) && RootKept(schema, before, b)
    ensures a == b
  {
    hide ManagerKept, SidebarKept, SameField;
    forall key ensures SameField(a, b, key) {
      if key == SavedStateVersion {
        EqualInBoth(a, b, key);
      } else if key in {LayoutManager, Sidebar} {
        if key !in before {
          MissingInBoth(a, b, key);
        } else {
          if key == LayoutManager {
            ManagerIsKeptOneWay(schema, before[key], a[key], b[key]);
          } else {
            SidebarIsKeptOneWay(schema, before[key], a[key], b[key]);
          }
          EqualInBoth(a, b, key);
        }
      } else {
        SameAsBefore(before, a, b, key);
      }
    }
    SameFields(a, b);
  }

  // The main result, for every JSON value: the migrated document is the one
  // that keeps, repairs and replaces as the relations say.
  lemma {:induction false} MigrationIsExact(schema: Schema, v: Json, w: Json)
    requires AcceptsDefaults(schema)
    ensures w == MigrateRoot(schema, v).value <==> w.Object? && RootKept(schema, if v.Object? then v.fields else map[], w.fields)
  {
    hide AcceptsDefaults, RootKept, MigrateRoot;
    MigrationKeeps(schema, v);
    var before := if v.Object? then v.fields else map[];
    if w.Object? && RootKept(schema, before, w.fields) {
      RootIsKeptOneWay(schema, before, w.fields, MigrateRoot(schema, v).value.fields);
    }
  }
}
