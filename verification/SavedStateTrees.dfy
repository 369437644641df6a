/**
 What the sanitiser keeps of a value that it repairs (data/src/lib.rs): the
 tree of panes, the fields it does not check, the entries that pass, and the
 legacy settings that it moves.
 */
module SavedStateTrees {
  import opened Basics
  import opened SavedState
  import opened SavedStateProofs

  // Every node of the tree is of a known kind.
  ghost predicate WellTagged(v: Json)
    decreases v
  {
    && v.Object? && |v.fields| == 1
    && if Split in v.fields then
         && v.fields[Split].Object?
         && (var split := v.fields[Split].fields;
             && (BranchA in split ==> WellTagged(split[BranchA]))
             && (BranchB in split ==> WellTagged(split[BranchB])))
       else PaneSteps(OnlyKey(v.fields)).Some?
  }

  // The same key in both, with the same value.
  predicate SameField(before: Fields, after: Fields, key: Word) {
    && (key in after <==> key in before)
    && (key in before ==> after[key] == before[key])
  }

  ghost predicate SameLeaf(tag: Word, before: Json, after: Json) {
    && (!before.Object? ==> after == before)
    && (before.Object? && PaneSteps(tag).Some? ==>
          && after.Object?
          && forall key :: !Touches(PaneSteps(tag).value, key) ==> SameField(before.fields, after.fields, key))
  }

  ghost predicate SameSplit(before: Fields, after: Fields) {
    && (forall key :: key !in {Axis, Ratio, BranchA, BranchB} ==> SameField(before, after, key))
    && (KnownAxis(before) ==> SameField(before, after, Axis))
    && (Ratio in before && before[Ratio].Decimal? && 0.05 <= before[Ratio].r <= 0.95 ==> SameField(before, after, Ratio))
  }

  // Panes of one kind each, and of the same.
  ghost predicate SameTag(v: Json, w: Json) {
    v.Object? && w.Object? && |v.fields| == |w.fields| == 1 && OnlyKey(w.fields) in v.fields
  }

  // The same tree of splits and leaves of the same kinds. A missing branch is
  // a starter pane.
  ghost predicate SameTree(v: Json, w: Json)
    decreases v
  {
    && SameTag(v, w)
    && if Split in v.fields then
         && Split in w.fields && v.fields[Split].Object? && w.fields[Split].Object?
         && (var (before, after) := (v.fields[Split].fields, w.fields[Split].fields);
             && SameSplit(before, after)
             && BranchA in after && BranchB in after
             && (if BranchA in before then SameTree(before[BranchA], after[BranchA]) else after[BranchA] == DefaultPane())
             && (if BranchB in before then SameTree(before[BranchB], after[BranchB]) else after[BranchB] == DefaultPane()))
       else
         var tag := OnlyKey(v.fields);
         tag in w.fields && SameLeaf(tag, v.fields[tag], w.fields[tag])
  }

  // A tree of known panes keeps its shape, its kinds, and all that is not checked.
  lemma {:induction false} TreeIsKept(schema: Schema, v: Json)
    requires AcceptsDefaults(schema) && WellTagged(v)
    ensures SameTree(v, SanitizePane(schema, v).value)
    decreases v
  {
    hide AcceptsDefaults, ApplySteps, PaneSteps, KnownAxis;
    if Split in v.fields {
      var split := v.fields[Split].fields;
      OnlyKeyIs(v.fields, Split);
      if BranchA in split {
        TreeIsKept(schema, split[BranchA]);
      }
      if BranchB in split {
        TreeIsKept(schema, split[BranchB]);
      }
      SplitIsKept(schema, split);
    } else {
      LeafIsKept(schema, v, OnlyKey(v.fields));
    }
  }

  lemma {:induction false} SplitIsKept(schema: Schema, split: Fields)
    requires BranchA in split ==> SameTree(split[BranchA], SanitizePane(schema, split[BranchA]).value)
    requires BranchB in split ==> SameTree(split[BranchB], SanitizePane(schema, split[BranchB]).value)
    ensures SameTree(SplitPane(split), SanitizePane(schema, SplitPane(split)).value)
  {
    hide SanitizePane, RepairedSplit, SameTree, SplitPane, DefaultPane, SameSplit, KnownAxis;
    SplitUnfolds(schema, split);
    var (a, b) := (Branch(schema, split, BranchA).value, Branch(schema, split, BranchB).value);
    RepairedSplitKeeps(split, a, b);
    SplitsAlike(split, RepairedSplit(split, a, b));
  }

  ghost predicate SameBranch(before: Fields, after: Fields, key: Word) {
    && key in after
    && (if key in before then SameTree(before[key], after[key]) else after[key] == DefaultPane())
  }

  lemma {:induction false} SplitsAlike(before: Fields, after: Fields)
    requires SameSplit(before, after) && SameBranch(before, after, BranchA) && SameBranch(before, after, BranchB)
    ensures SameTree(SplitPane(before), SplitPane(after))
  {
    SplitsShareTag(before, after);
    hide SameSplit, DefaultPane, PaneSteps, SameLeaf, OnlyKey, SameTag, SplitPane;
  }

  lemma {:induction false} SplitsShareTag(before: Fields, after: Fields)
    ensures var (v, w) := (SplitPane(before), SplitPane(after));
            && SameTag(v, w) && v.Object? && w.Object? && Split in v.fields && Split in w.fields
            && v.fields[Split] == Object(before) && w.fields[Split] == Object(after)
  {
    OnlyKeyIs(SplitPane(after).fields, Split);
  }

  lemma RepairedSplitKeeps(split: Fields, a: Json, b: Json)
    ensures var after := RepairedSplit(split, a, b);
            && SameSplit(split, after)
            && BranchA in after && after[BranchA] == a && BranchB in after && after[BranchB] == b
  {
  }

  lemma {:induction false} LeafIsKept(schema: Schema, v: Json, tag: Word)
    requires AcceptsDefaults(schema)
    requires v.Object? && |v.fields| == 1 && tag == OnlyKey(v.fields) && Split !in v.fields && PaneSteps(tag).Some?
    ensures SameTree(v, SanitizePane(schema, v).value)
  {
    hide ApplySteps, PaneSteps, AcceptsDefaults;
    var key :| key in v.fields;
    OnlyKeyIs(v.fields, key);
    var w := SanitizePane(schema, v).value;
    OnlyKeyIs(w.fields, tag);
    if v.fields[tag].Object? {
      forall key | !Touches(PaneSteps(tag).value, key)
        ensures SameField(v.fields[tag].fields, w.fields[tag].fields, key)
      {
        OtherFieldsKept(schema, PaneSteps(tag).value, v.fields[tag].fields, key);
      }
    }
  }

  // Of a list, exactly the entries that pass are kept, as often as they occur.
  lemma {:induction false} KeptIsExact(schema: Schema, pass: Pass, items: seq<Json>, v: Json)
    requires IsListPass(pass)
    ensures multiset(Kept(schema, pass, items))[v] == if Keeps(schema, pass, v) then multiset(items)[v] else 0
    decreases |items|
  {
    hide Keeps;
    if items != [] {
      KeptIsExact(schema, pass, items[..|items| - 1], v);
      assert items == items[..|items| - 1] + [items[|items| - 1]];
    }
  }

  // The settings of the legacy levels end up with the indicator settings,
  // which win, and only they move. Nothing is left of them when the indicator
  // settings are not an object.
  lemma {:induction false} LegacyLevelsMove(kline: Fields)
    requires GexLevels in kline
    ensures var after := MoveGexLevels(kline).value.fields;
            && GexLevels !in after
            && (forall key :: key !in {GexLevels, IndicatorConfigs} ==> SameField(kline, after, key))
            && (IndicatorConfigs in kline && !kline[IndicatorConfigs].Object? ==>
                  SameField(kline, after, IndicatorConfigs) && MoveGexLevels(kline).warnings == [])
            && (IndicatorConfigs in kline && kline[IndicatorConfigs].Object? ==>
                  && IndicatorConfigs in after && after[IndicatorConfigs].Object?
                  && (forall key :: key != GexLevels ==>
                        SameField(kline[IndicatorConfigs].fields, after[IndicatorConfigs].fields, key))
                  && GexLevels in after[IndicatorConfigs].fields
                  && (after[IndicatorConfigs].fields[GexLevels]
                      == if GexLevels in kline[IndicatorConfigs].fields then kline[IndicatorConfigs].fields[GexLevels]
                         else kline[GexLevels]))
            && (IndicatorConfigs !in kline ==>
                  IndicatorConfigs in after && after[IndicatorConfigs] == Object(map[GexLevels := kline[GexLevels]]))
  {
  }

  // Legacy levels that nothing takes over, and nothing is said of.
  lemma LegacyLevelsAreLost(levels: Json) returns (kline: Fields)
    ensures GexLevels in kline && kline[GexLevels] == levels
    ensures MoveGexLevels(kline) == Repair(Object(map[IndicatorConfigs := Null]), [])
  {
    kline := map[GexLevels := levels, IndicatorConfigs := Null];
    assert kline - {GexLevels} == map[IndicatorConfigs := Null];
  }
}
