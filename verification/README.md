# Flowdepth: verified models of its cores

Flowdepth is a market-data desktop program. This project models the parts of it whose correctness is a claim
about every input or every run, and proves those claims: the streaming indicators, the accounting of runtime
values, the repair of saved documents, the metadata store, the stream registry and the paging of bars, the
connectivity and notification state machines, the log terminal, the stored forms of tickers, and the
retargeting of layouts. `dafny verify dfyconfig.toml` checks everything.

How it is organised:

- `Values`, `NumericOrder`, `Collections`: runtime values with their cached sizes, the order of mixed numbers,
  and the array and record builtins with their limits.
- `Windows`, `Rsi`, `Intrinsics`, `CallLogs`: the `ta.*` builtins. `Windows` and `Rsi` say what a run of calls
  holds and computes, in terms of the whole history of samples; `Intrinsics` is the stateful evaluator; `CallLogs`
  carries the promises to whole logs of calls, interleaved over call sites.
- `SavedState`, `SavedStateProofs`, `SavedStateTrees`, `SavedStateKept`, `SavedStateUnique`, `SavedStateFaults`,
  `Sanitizer`, `LoadedState`: what each repair pass makes of a JSON value, which values are clean, what is kept of
  any value and that nothing else can be, what is warned of, and the passes as they run.
- `Exchanges`, `Tickers`, `Metadata`: names, stored ticker forms, the metadata store, its merge and its file.
- `Orders`, `Timeframes`, `Streams`, `Paging`: the registry of streams and pages of bars.
- `Connectivity`, `Notify`: two state machines, with theorems over whole runs. A run lists its events, the
  states around them and what each emits.
- `Text`, `Utf8`, `DebugLog`, `LogEntries`: from the bytes a logger writes to the entries the terminal reads.
- `PaneSetups`, `Retarget`: copying a layout to another market.

A method that changes state is specified by a function of the old state, and the properties are proved of that
function. Conventions: a finite `f64` is a real and a missing or non-finite one is `None`; `usize` and `u64`
arithmetic saturates where the program's does; clock readings never go back; iteration over a hash map or a
hash set visits its elements in some order that nothing depends on.

## What turned out not to hold as promised

Each is stated with the exact condition under which the promise does hold, and with an input that breaks it. The
last words of each entry say where such an input comes from.

- `array.push` pushes to a clone that starts at its exact length, while its heap projection counts one slot on top
  of the original's capacity. The projection covers the result exactly when the grown clone needs at most one slot
  more than the original had, or the projection is the largest integer (`Collections.PushWithinLimits`,
  `Collections.LimitIsPassed`). A vector that doubles never manages that from an array without spare slots
  (`Collections.DoublingPush`, `Collections.PushCanOvershootHeapLimit`). Any script that pushes does this.
- `record.set` forgets the map slot of a new key. Its heap projection covers a new key exactly when the caches exceed
  what the clones need by that many bytes (`Collections.SetProjectsHeap`), which they never do, when exact, on a
  record that `record.set` itself returned (`Collections.TightSetIsNotCovered`, `Collections.SetCanOvershootHeapLimit`).
  Any script that sets new keys does this.
- `record.set` on a key that is there takes the previous value out of a total that may have saturated, and then
  checks too little: the count is exact, and the bytes are covered, exactly as `Collections.SetProjectsElements` and
  `Collections.SetProjectsHeap` say (`Collections.SetLimitIsPassed`, `Collections.SaturatedSetPassesLimit`). It
  takes values of more elements or bytes than the largest integer, that is arrays shared many times over; values
  under limits below the largest integer do not reach it.
- A clone's cached bytes fall below the recount exactly when the original's have saturated, it has spare slots, and
  the cloned elements exceed what is left beside its buffer (`Values.CloneArrayIsAccounted`,
  `Values.SaturatedCloneUndercounts`). It takes the same shared arrays, and a heap limit rules it out as well.
- When windows grow from call to call, a builtin reports nothing until its deque has caught up. It is never wrong
  (`Windows.VaryingOutput`, `Windows.LongerLengthIsMissing`). Scripts whose window length is a series do this.
- Fetches of a venue can overlap: turning the cache on while the store is empty loads over the set of running
  fetches. They overlap exactly when such a load hits a running fetch and the venue is asked for again before it
  completes (`Metadata.OverlapsAreLostFetches`, `Metadata.LoadingOverlapsFetches`). A user who turns the cache on
  during the first fetch and refreshes does this.
- Two stores with one stamp and different entries merge to whichever is on the left (`Metadata.MergeCommutes`,
  `Metadata.MergeOrderMatters`). It takes two results of the same instant.
- The cache file invents the default time for entries without a stamp, and loses stamps without entries
  (`Metadata.FileRoundTrip`, `Metadata.FileInventsStamp`, `Metadata.FileLosesStamp`). Neither arises from what the
  program ingests and saves (`Metadata.RunKeepsWell`, `Metadata.SavedSnapshotLoads`), only from an edited file.
- The count of hidden errors is lost once their entry has expired (`Notify.AggregatedExactly`, `Notify.CountIsLost`,
  `Notify.HiddenErrorIsForgotten`). An error that comes back after five quiet minutes does this.
- A ticker text that goes on after a NUL is cut there (`Tickers.PrintThenParse`, `Tickers.TextAfterNulIsLost`); only
  a venue or an edited file could send one. An exchange-and-ticker key loses display symbols, as Hyperliquid's
  spot markets have them, and cannot be read back when its symbol holds a colon (`Tickers.PrintThenParseKey`,
  `Tickers.KeysAreLost`).
- Log chunks are decoded one by one, so a character cut between two of them is lost (`Utf8.ChunksDecide`,
  `Utf8.CutLosesLetter`). The program's own records are written as whole strings, whose pieces cut no character;
  only another caller of the writer could.
- Legacy gex levels are dropped in silence when the settings they should move into are not an object
  (`SavedStateTrees.LegacyLevelsMove`, `SavedStateTrees.LegacyLevelsAreLost`). Damaged or edited files have those.
- A kline stream can end on a timeframe that the new market does not support: in a footprint whose basis counts
  ticks, and in a heatmap or a ladder whose basis is no kline timeframe (`Retarget.TimeframeIsSupported`,
  `Retarget.TimeframesAreLeftUnsupported`). The program's own panes do not pair a kline stream with those, so this
  takes an edited or imported layout.

The pivot evaluator called by itself, with a fixed window and legs that grow, misses pivots
(`Windows.FixedWindowMissesPivot`). The program never calls it so: it sets the flag for fixed expressions only, and
then no pivot is missed (`CallLogs.FixedLegsMissNoPivot`).

## Model

| member | source | states |
|---|---|---|
| Values.UsageIsRecount | indicator-engine/src/types.rs:300-324 | the usage and depth read from the caches of any accounted value are a recount of the tree, capped at the integer limit |
| Values.StringIsRecount | indicator-engine/src/types.rs:380-394 | the largest string capacity read from the caches is a recount of the tree, exactly or never too low |
| Values.NewArrayIsAccounted | indicator-engine/src/types.rs:32-57 | a new array caches exactly its recount, in all four caches |
| Values.PushedArrayIsAccounted | indicator-engine/src/types.rs:75-109 | a push keeps count and depth exact, and bytes and string capacity exact or never too low, whatever capacity the allocator picks, and projects the element count exactly |
| Values.ArrayCell.Push | indicator-engine/src/types.rs:75-97 | the in-place push reaches the state the accounting theorems are about |
| Values.CloneKeepsShape | indicator-engine/src/types.rs:10-20 | a cloned value has the same count and depth and never more bytes |
| Values.CloneIsNoLonger | indicator-engine/src/types.rs:10-20 | a cloned value never holds a larger string capacity |
| Values.CloneIsSame | indicator-engine/src/types.rs:9-20 | a value is the clone of another exactly when it has the same numbers, texts, keys and items in order, the very same nested arrays, and buffers with nothing to spare |
| Values.CloneArrayIsAccounted | indicator-engine/src/types.rs:120-133 | a cloned array keeps count and depth exact and string capacity never too low; its heap bytes fall below the recount exactly when the original has saturated, has spare slots, and its cloned elements exceed what is left beside its buffer |
| Values.ExactCloneUndercounts | indicator-engine/src/types.rs:120-133 | the same condition in terms of the recount, for an exact cache |
| Values.SaturatedCloneUndercounts | indicator-engine/src/types.rs:120-133 | an exactly accounted tower of shared arrays whose clone undercounts |
| Values.BuiltValuesAreAccounted | indicator-engine/src/types.rs:31-133 | whatever sequence of new, push, clone and nesting builds a value, every array in it caches its recount: exactly without clones, never too low with clones that do not undercount |
| NumericOrder.CompareIsOrder | indicator-engine/src/types.rs:231-243 | comparing any integers and floats is exactly the order of the represented numbers, and missing exactly for other operands |
| NumericOrder.CompareIsTotalOrder | indicator-engine/src/types.rs:397-413 | hence total, antisymmetric under swapping and transitive across integers and floats |
| NumericOrder.OperatorsFollowOrder | indicator-engine/src/types.rs:245-269 | all six operators and equality of numbers agree with that order |
| Collections.EvalArrayNew | indicator-engine/src/intrinsic.rs:927-939 | its array holds the arguments in order, equal values in buffers with nothing to spare; it fails on elements exactly when the recount exceeds the limit, and with exact caches on either limit exactly when the recount does; its result is accounted and within both limits |
| Collections.EvalArrayPush | indicator-engine/src/intrinsic.rs:941-960 | its result holds the elements that were there in order and then the given value; it fails on each limit exactly when the projection exceeds it, on elements exactly when the result would; the result is accounted unless the clone undercounts, and covered by the heap projection exactly when the clone grows by no slot that the original lacked |
| Collections.PushWithinLimits | indicator-engine/src/intrinsic.rs:952-958 | the projection is the exact element count, and covers the heap bytes exactly when the grown clone needs at most one slot more than the original had, or the projection saturates |
| Collections.LimitIsPassed | indicator-engine/src/intrinsic.rs:952-958 | some limit lets the push through and is passed by its result, exactly when the projection does not cover it |
| Collections.DoublingPush | indicator-engine/src/intrinsic.rs:957-958 | for a vector that doubles from four slots, exactly when there are enough spare slots |
| Collections.PushCanOvershootHeapLimit | indicator-engine/src/intrinsic.rs:952-958 | a push that passes the check and ends above the heap limit |
| Collections.EvalRecordSet | indicator-engine/src/intrinsic.rs:1004-1050 | its result gives the set key the given value and every other key the value it had, with keys in order; it fails on each limit exactly when the projection exceeds it, on elements only when the result does, and always then if the count is exact; the result is within the heap limit if it is covered, and otherwise, on a total that has not saturated, above it by at most the slot of a new key |
| Collections.InsertSetsKey | indicator-engine/src/intrinsic.rs:1046-1048 | a set changes the value of its key and no other lookup |
| Collections.SetElements | indicator-engine/src/intrinsic.rs:1046-1048 | the record returned has one element more, or the previous value's elements less, and the new value's |
| Collections.SetProjectsElements | indicator-engine/src/intrinsic.rs:1020-1036 | the projected element count is never above that of the record returned, and equals it exactly when no previous value is taken out of a saturated count, or all of it is, or as much is put in |
| Collections.SetProjectsHeap | indicator-engine/src/intrinsic.rs:1024-1042 | for every record, with caches exact or too high, saturated or not: exactly when the heap projection covers the record returned |
| Collections.SetLimitIsPassed | indicator-engine/src/intrinsic.rs:1024-1043 | some limits let a set through and are passed by its result, exactly when one of the projections does not cover it |
| Collections.SaturatedSetPassesLimit | indicator-engine/src/intrinsic.rs:1033-1043 | a set that is checked as one element and twenty-five bytes and returns more elements than the largest integer |
| Collections.SetRecordIsTight | indicator-engine/src/intrinsic.rs:1046-1048 | a clone of the record returned is the record itself: nothing of it can be saved |
| Collections.TightSetIsNotCovered | indicator-engine/src/intrinsic.rs:1037-1042 | on such a record, with exact caches, a new key without spare capacity always passes the heap projection |
| Collections.SetCanOvershootHeapLimit | indicator-engine/src/intrinsic.rs:1074-1085 | a set of a new key that passes the check and ends above the heap limit |
| Windows.PushWindow | indicator-engine/src/intrinsic.rs:1594-1599 | the deque becomes the last `length` of its samples and the new one |
| Windows.RunIsSuffix | indicator-engine/src/intrinsic.rs:1594-1599 | after any run, with lengths changing from call to call, the deque is a suffix of the history |
| Windows.RunRetains | indicator-engine/src/intrinsic.rs:1594-1599 | its size is what the tightest earlier call left, plus what came after it |
| Windows.OutputIsPromised | indicator-engine/src/intrinsic.rs:1101-1132 | for a constant length, the output on every bar is the statistic of the last `length` samples of the history, whatever those are, and missing exactly when that window is short or has a gap |
| Windows.PromisedIsExact | indicator-engine/src/intrinsic.rs:1101-1674 | the promise is made exactly when the last `length` samples are all there, and is the number that the defining equation of the statistic gives on them, without division |
| Windows.StatisticIsExact | indicator-engine/src/intrinsic.rs:1101-1674 | each statistic of any samples is the one number that meets its defining equation or, for an extreme, the element that bounds all others |
| Windows.SumOfPermutation | indicator-engine/src/intrinsic.rs:1127-1129 | the sum does not depend on the order of the samples |
| Windows.SumOfConcat | indicator-engine/src/intrinsic.rs:1127-1129 | the sum is additive over concatenation |
| Windows.MeanIsBalanced | indicator-engine/src/intrinsic.rs:1127-1129 | mean times count is the sum, and the deviations from the mean cancel |
| Windows.VarianceIsExact | indicator-engine/src/intrinsic.rs:1601-1638 | the variance times the count, and the share of the mean, make up the sum of squares; around any other centre the squares exceed it by the squared distance to the mean |
| Windows.DeviationIsExact | indicator-engine/src/intrinsic.rs:1640-1674 | the mean absolute deviation times the count is the sum of the distances from the mean; it ignores shifts and scales with the samples |
| Windows.VaryingOutput | indicator-engine/src/intrinsic.rs:1490-1543 | for changing lengths it is that exactly when no recent call was too short, and otherwise missing |
| Windows.PivotIsPromised | indicator-engine/src/intrinsic.rs:1392-1462 | whatever each call retains, the pivot is that of the whole history exactly while no recent call retained too few for the last one, and otherwise missing |
| Windows.LongerLengthIsMissing | indicator-engine/src/intrinsic.rs:1490-1543 | a mean that is missing right after shorter calls |
| Windows.LowestMeanHighest | indicator-engine/src/intrinsic.rs:1490-1543 | lowest, mean and highest of any samples are in this order |
| Windows.DeviationWithinStdev | indicator-engine/src/intrinsic.rs:1601-1674 | the square of the mean absolute deviation is at most the variance, and neither is negative |
| Windows.OutputsAreOrdered | indicator-engine/src/intrinsic.rs:1601-1674 | over a full window all five builtins are defined, and in order |
| Windows.RetainedPivotIsPromised | indicator-engine/src/intrinsic.rs:1392-1462 | with the general retention the pivot is that of the whole history on every bar, legs changing from bar to bar within the limit |
| Windows.FixedPivotIsPromised | indicator-engine/src/intrinsic.rs:1392-1462 | with the fixed window it is exactly while no recent call had shorter legs, and otherwise missing |
| Windows.FixedWindowMissesPivot | indicator-engine/src/intrinsic.rs:1392-1462 | a pivot that the evaluator misses when called with a fixed window and legs that grow, which the program does not do |
| Windows.FixedWindowAgrees | indicator-engine/src/intrinsic.rs:1392-1462 | with constant legs the two retention policies agree bar by bar |
| Windows.OffsetFindsExtreme | indicator-engine/src/intrinsic.rs:1692-1751 | on consecutive bars the offset is below `length`, its bar attains what highest or lowest reports, and no older bar of the window does |
| Intrinsics.EvalContext.EvalSma | indicator-engine/src/intrinsic.rs:1101-1132 | errors, state and result, the other call sites untouched |
| Intrinsics.EvalContext.EvalWindow | indicator-engine/src/intrinsic.rs:1490-1543 | the same for highest and lowest, with the mode check |
| Intrinsics.EvalContext.EvalStdev | indicator-engine/src/intrinsic.rs:1601-1638 | the same for the value under the root of the standard deviation |
| Intrinsics.EvalContext.EvalDev | indicator-engine/src/intrinsic.rs:1640-1674 | the same for the mean absolute deviation |
| Intrinsics.EvalContext.EvalPivot | indicator-engine/src/intrinsic.rs:1392-1462 | the same for pivots under either retention |
| Intrinsics.EvalContext.EvalExtremeBars | indicator-engine/src/intrinsic.rs:1692-1751 | the same for bars since the extreme |
| Intrinsics.EvalContext.EvalRsi | indicator-engine/src/intrinsic.rs:1201-1289 | the same for the relative strength index |
| Intrinsics.EvalContext.Evaluate | indicator-engine/src/intrinsic.rs:1101-1751 | errors, whole new state and result of any of these builtins, as one function of the state at the call site |
| Intrinsics.WindowLength | indicator-engine/src/intrinsic.rs:1570-1592 | an accepted window length is positive and within the limit |
| Intrinsics.SourceIsExact | indicator-engine/src/intrinsic.rs:1101-1751 | a sample is there exactly when the first argument is a number, of either kind |
| Intrinsics.WindowLengthIsExact | indicator-engine/src/intrinsic.rs:1570-1592 | exactly which arguments are accepted as a window length, and as which |
| Intrinsics.PivotLegsAreExact | indicator-engine/src/intrinsic.rs:1392-1420 | the legs are accepted exactly when they are positive integers that fit the limit with their candidate |
| Intrinsics.FindOldestBest | indicator-engine/src/intrinsic.rs:1692-1751 | the search loop finds the bar the offset theorem is about |
| CallLogs.EvaluateAll | indicator-engine/src/intrinsic.rs:1101-1751 | making a log of calls in contexts of their own bars reaches the states and results that the theorems below are about |
| CallLogs.SiteState | indicator-engine/src/intrinsic.rs:1101-1751 | whatever runs or fails at other sites, the state of a site is the run of the calls it heard: those of its builtin with good arguments |
| CallLogs.ResultIsOwn | indicator-engine/src/intrinsic.rs:1101-1751 | the result of every call in every log, from the calls at its own site alone |
| CallLogs.CallIsHeard | indicator-engine/src/intrinsic.rs:1101-1751 | exactly the calls that neither fail on arguments nor find the site taken are heard |
| CallLogs.WindowCallIsPromised | indicator-engine/src/intrinsic.rs:1101-1132 | in every log a mean, extreme or deviation is that of the last samples its site heard, or missing, exactly as windows and gaps decide |
| CallLogs.PivotCallIsPromised | indicator-engine/src/intrinsic.rs:1392-1462 | in every log, whichever of its calls have fixed windows, a pivot is the one of all samples its site heard exactly while no recent call there kept too few for its legs, and otherwise missing |
| CallLogs.FixedLegsMissNoPivot | indicator-engine/src/runtime.rs:1719-1762 | when calls with a fixed window have the legs of all others at their site, as the runtime sees to, no pivot is ever missed |
| CallLogs.BarsCallFindsExtreme | indicator-engine/src/intrinsic.rs:1692-1751 | in every log, on consecutive bars, the offset points to the oldest bar attaining the extreme |
| CallLogs.RsiCallIsWilder | indicator-engine/src/intrinsic.rs:1201-1289 | in every log the index stays in range without the state error, and for one length is Wilder's |
| Rsi.RunStaysInRange | indicator-engine/src/intrinsic.rs:1201-1289 | in every run, with gaps and changing lengths, the incomplete-average error is never reached and results stay in 0 to 100 |
| Rsi.RunIsWilder | indicator-engine/src/intrinsic.rs:1201-1289 | for a constant length the state and every result are Wilder's seed-then-smooth fold over the deltas between adjacent present samples |
| Rsi.WilderIsWeightedSum | indicator-engine/src/intrinsic.rs:1201-1289 | the smoothed average is the sum of all samples, the seed ones weighted alike, each decaying by (length - 1) / length with every later one |
| Rsi.SmoothIsMix | indicator-engine/src/intrinsic.rs:1249-1253 | one smoothing step: length times the new average is length - 1 times the old one plus the new number |
| Rsi.RunIsClosedForm | indicator-engine/src/intrinsic.rs:1201-1289 | for a constant length every result is present exactly when two adjacent samples and enough deltas are, and is the share of the weighted gains in all weighted moves, or 50 when nothing moved |
| Rsi.DeltasInOrder | indicator-engine/src/intrinsic.rs:1234-1243 | there is one delta for each pair of adjacent present samples, in their order |
| Rsi.GainsAndLosses | indicator-engine/src/intrinsic.rs:1247-1248 | gain and loss of a delta are its two parts, neither negative and one of them zero |
| Rsi.AffineHistory | indicator-engine/src/intrinsic.rs:1241-1289 | the index ignores shifts and positive scales of the history, and complements under negative ones |
| Rsi.MirroredRunsSumToHundred | indicator-engine/src/intrinsic.rs:1241-1289 | a run and the run on the negated samples, with any lengths, sum to 100 wherever defined, and are defined together |
| SavedStateProofs.OnePassReachesFixedPoint | data/src/lib.rs:375-407 | for every JSON value, one pass yields a value on which a second pass changes nothing, warns of nothing and finds the current version; the values a pass leaves alone are exactly the clean ones |
| SavedStateUnique.MigrationIsExact | data/src/lib.rs:375-407 | for every JSON value, the migrated document is the only one that keeps every unchecked field of root, manager, layouts, dashboards, panes and sidebar, keeps what passes, and replaces what does not by its default |
| SavedStateFaults.MigrationIsReported | data/src/lib.rs:375-407 | for every JSON value, the warnings are the faults of the document, each in its place, and no others |
| SavedStateProofs.PaneReachesClean | data/src/lib.rs:539-681 | the pane pass, through every split, yields a clean tree and leaves clean trees alone |
| SavedStateKept.PaneIsKept | data/src/lib.rs:539-681 | for every JSON value, a pane keeps its kind, every unchecked field, and of every checked field what passes; a split keeps its valid axis and the nearest ratio, and its branches in the same way; anything else gives way to a starter pane |
| SavedStateProofs.DashboardReachesClean | data/src/lib.rs:503-537 | the same for dashboards with their popouts |
| SavedStateKept.DashboardIsKept | data/src/lib.rs:503-537 | its pane is the repaired pane, its popouts are exactly the pairs in order with their windows, and every other field is the same |
| SavedStateProofs.LayoutReachesClean | data/src/lib.rs:486-501 | the same for layouts |
| SavedStateKept.LayoutIsKept | data/src/lib.rs:486-501 | an object keeps every field, its name when that is a string, and its dashboard repaired |
| SavedStateProofs.LayoutManagerReachesClean | data/src/lib.rs:459-484 | the same for the layout manager |
| SavedStateKept.ManagerIsKept | data/src/lib.rs:459-484 | the list keeps its length and order, each layout repaired in place, and the manager every other field |
| SavedStateProofs.SettingsPass | data/src/lib.rs:683-724 | the same for settings, with the legacy levels moved |
| SavedStateKept.SettingsAreKept | data/src/lib.rs:683-724 | every field but the visual settings is the same, and those are dropped when unknown, or keep all but the legacy levels, which move |
| SavedStateProofs.TableReachesClean | data/src/lib.rs:751-794 | the same for the sidebar's table, with its defaults |
| SavedStateKept.TableIsKept | data/src/lib.rs:751-794 | fields are kept, lists filtered and missing fields filled in, unless the decoder refuses the result |
| SavedStateProofs.SidebarReachesClean | data/src/lib.rs:735-794 | the same for the sidebar |
| SavedStateKept.SidebarIsKept | data/src/lib.rs:735-794 | a known position and every other field are kept, and the table repaired |
| SavedStateProofs.KeptEntriesPass | data/src/lib.rs:796-866 | list passes keep only what passes and warn once for each entry dropped |
| SavedStateTrees.KeptIsExact | data/src/lib.rs:796-866 | every passing entry is kept as often as it occurs, and no other |
| SavedStateKept.ListIsSelected | data/src/lib.rs:796-866 | a list pass returns the passing entries in their order, and only it does |
| SavedStateTrees.TreeIsKept | data/src/lib.rs:539-681 | a tree of known panes keeps its splits, kinds, valid axes and ratios, and every field that no pass checks |
| SavedStateTrees.LegacyLevelsMove | data/src/lib.rs:708-723 | what becomes of the legacy levels and of everything around them |
| SavedStateTrees.LegacyLevelsAreLost | data/src/lib.rs:708-723 | levels that are dropped without a warning |
| Sanitizer.Sanitizer.SanitizePane | data/src/lib.rs:539-681 | the pass as it runs, with its warnings in order, is the specified one |
| Sanitizer.Sanitizer.SanitizeSettings | data/src/lib.rs:683-724 | likewise |
| Sanitizer.Sanitizer.RetainEntries | data/src/lib.rs:796-866 | likewise, for the three list passes |
| Sanitizer.Sanitizer.SanitizeSidebar | data/src/lib.rs:735-794 | likewise |
| Sanitizer.MigrateSavedState | data/src/lib.rs:375-407 | the whole migration: the document keeps what the relations say, the warnings are its faults in order, and the version found is the one stored when that fits 32 bits, and otherwise zero |
| Sanitizer.MigrateTwice | data/src/lib.rs:375-407 | migrating the migrated value gives it back, with no warning and no migration reported |
| LoadedState.State.Sanitize | data/src/lib.rs:409-434 | the repaired state has a layout, an active layout that exists or none, and a sane window; it warns exactly when something was wrong and leaves a sound state alone |
| LoadedState.State.SanitizeMainWindow | data/src/lib.rs:436-457 | the window is dropped exactly when its size or position is invalid |
| Connectivity.MarketConnectivity.RecordDisconnected | src/market_service.rs:78-94 | the whole new state and the transition emitted |
| Connectivity.MarketConnectivity.EvaluateNow | src/market_service.rs:127-157 | likewise, for the evaluation that ends every event |
| Connectivity.RunIsConsistent | src/market_service.rs:41-157 | in every run connected is within expected, the timer is set exactly while a required stream is missing, and online is exactly completeness |
| Connectivity.StreamsFromEvents | src/market_service.rs:41-94 | in every run a stream is expected exactly when an event named it and no sync since left it out, and connected exactly when a connection of it was recorded and neither a disconnection nor such a sync since |
| Connectivity.CompleteFromEvents | src/market_service.rs:127-131 | so the tracker is complete exactly when every stream that the events require is live |
| Connectivity.PhaseFromEvents | src/market_service.rs:127-157 | online is a complete step, and offline one in a stretch of incomplete steps that began 1500 ms or more before, from the events alone |
| Connectivity.TimerStartsStretch | src/market_service.rs:127-157 | the timer holds the time of the first step of the current incomplete stretch |
| Connectivity.GoesOfflineAfterGrace | src/market_service.rs:127-157 | `WentOffline` is emitted exactly at the first step 1500 ms or more after a stretch of incomplete steps began, completeness being that of the events |
| Connectivity.RestoredAtFirstCompleteStep | src/market_service.rs:127-157 | `Restored` is emitted exactly at the first complete step after an outage or after a disconnect recorded while complete, from the events alone |
| Connectivity.RestoredBetweenOutages | src/market_service.rs:127-157 | two outages have a restoration between them |
| Connectivity.ReasonIsLatest | src/market_service.rs:78-94 | the reason kept is that of the last disconnect, until a restoration |
| Notify.Notifications.Push | src/notify.rs:49-96 | the new cache and the toast shown, if any |
| Notify.EmissionIsRemembered | src/notify.rs:49-96 | the cache holds a key's last emission, its level and the pushes hidden since, unless the entry expired, which takes longer than any window |
| Notify.EmissionsKeepApart | src/notify.rs:118-129 | two emissions of a key are at least the window of the level after the first apart, even when its entry was pruned in between |
| Notify.LevelsAreBounded | src/notify.rs:73-77 | backoff levels stay at most 5 in every run |
| Notify.LevelIsStreak | src/notify.rs:69-83 | the level after an emission is the number of emissions in a row that told of hidden errors, at most 5: such a one is one level up, any other resets it |
| Notify.WindowOfLevel | src/notify.rs:118-129 | the windows in seconds: 30, 60, 120, 240 and then 300 for errors, 10 for anything else |
| Notify.HiddenExactly | src/notify.rs:49-96 | a push is hidden exactly while the window that the last emission of its key opened has not passed |
| Notify.AggregateCountsHidden | src/notify.rs:131-143 | an aggregated error shows exactly the number of pushes hidden since its key's previous emission, up to saturation |
| Notify.DigitsReadBack | src/notify.rs:131-143 | the count shown is in decimal without leading zeros |
| Notify.AggregatedExactly | src/notify.rs:64-71 | a toast shown is aggregated exactly when it is an error that was hidden since it was last shown and its entry has not expired |
| Notify.CountIsLost | src/notify.rs:111-115 | after the entry has expired the toast shows plain |
| Notify.HiddenErrorIsForgotten | src/notify.rs:49-96 | a run in which a hidden error is never told of |
| Exchanges.ExchangeNameRoundTrip | exchange/src/lib.rs:215-235 | every exchange's printed names, with and without the space, parse back to it |
| Exchanges.ExchangeTextIsExact | exchange/src/adapter.rs:363-431 | exactly which texts are read as an exchange: two words in any letter case, its venue or the older name of one, then its market |
| Exchanges.FromVenueAndMarketIsExact | exchange/src/adapter.rs:451-455 | finding an exchange by venue and market finds the one that trades it, and none only for the missing one |
| Tickers.PrintThenParse | exchange/src/lib.rs:300-476 | parsing a printed ticker always succeeds, and gives it back exactly when no text goes on after a NUL |
| Tickers.TextAfterNulIsLost | exchange/src/lib.rs:300-476 | a ticker that reads back as another one |
| Tickers.PrintThenParseKey | exchange/src/lib.rs:238-273 | a printed key parses back exactly when its ticker is on its exchange, has no display symbol, no colon and nothing after a NUL |
| Tickers.KeysAreLost | exchange/src/lib.rs:238-273 | keys that do not read back: one with a display symbol, one with a colon |
| Tickers.ParseOld | exchange/src/lib.rs:478-510 | the legacy decoder's result in every case: too long, first bad code, unknown exchange, or the ticker of the letters held |
| Tickers.PackThenSpell | exchange/src/lib.rs:488-504 | the decoder undoes six-bit packing, ten letters to a word, for every symbol of at most twenty letters |
| Tickers.SpellThenPack | exchange/src/lib.rs:488-504 | packing a decoded symbol gives the stored words back exactly when they hold nothing else |
| Tickers.OldSymbolsAreValid | exchange/src/lib.rs:488-510 | every decoded symbol makes a ticker, which its text form keeps |
| Metadata.MarketMetadata.Ingest | data/src/metadata.rs:175-207 | the whole new store |
| Metadata.IngestIsExact | data/src/metadata.rs:175-207 | a result is taken exactly when it holds something and is fresh, or not older than the stamp; then it replaces entries and stamp of its venue, and nothing else changes |
| Metadata.VenueHoldsLastTaken | data/src/metadata.rs:175-207 | in every run a venue holds the last result taken for it, whole, with its time |
| Metadata.TakenInOrder | data/src/metadata.rs:187-200 | a later result of the venue is taken exactly when it holds something and is fresh, or not older than that one |
| Metadata.MarketMetadata.SetCacheEnabled | data/src/metadata.rs:94-103 | turning the cache on replaces a store that is still empty, running fetches included |
| Metadata.MarketMetadata.constructor | data/src/metadata.rs:88-92 | the store the program starts with |
| Metadata.MarketMetadata.MergedWith | data/src/metadata.rs:241-266 | the merge loop, in any order of venues, reaches the specified merge |
| Metadata.MergeIsPerVenue | data/src/metadata.rs:241-266 | each venue of a merge is taken whole, from the right side exactly when its stamp is later or the left has none |
| Metadata.MergeIsIdempotent | data/src/metadata.rs:241-266 | merging a store with itself changes nothing |
| Metadata.MergeIsAssociative | data/src/metadata.rs:241-266 | merging is associative |
| Metadata.MergeCommutes | data/src/metadata.rs:241-266 | the two orders hold the same data exactly when equal stamps carry equal entries |
| Metadata.MergeOrderMatters | data/src/metadata.rs:241-266 | two stores whose two merges differ |
| Metadata.MergeNeverMixes | data/src/metadata.rs:241-266 | each venue comes from one side and is at least as new as both |
| Metadata.IngestLowersStamp | data/src/metadata.rs:175-207 | exactly when an ingest lowers a stamp; a cached seed never does |
| Metadata.StampsNeverGoBack | data/src/metadata.rs:175-207 | in every run, from an empty or a loaded store and with the cache loaded along the way, stamps only grow, but for a network result dated before one |
| Metadata.FetchesDoNotOverlap | data/src/metadata.rs:148-158 | two started fetches of a venue have a completion between them, unless the cache was loaded over a running one |
| Metadata.OverlapsAreLostFetches | data/src/metadata.rs:94-158 | fetches of a venue overlap exactly when the cache is loaded over one that is running and the venue is asked for again before it completes |
| Metadata.LoadingOverlapsFetches | data/src/metadata.rs:94-158 | a run of three steps in which they overlap |
| Metadata.RunKeepsWell | data/src/metadata.rs:175-207 | in every run of results filed under their own venue, from a well-kept start and with well-kept loads, a venue has a stamp exactly when it has entries, each under its own ticker |
| Metadata.Serialize | data/src/metadata.rs:309-326 | the file has exactly the venues with tickers, each with its own and its stamp or the default |
| Metadata.Deserialize | data/src/metadata.rs:328-347 | the store loaded, in any order of the file's parts |
| Metadata.FileRoundTrip | data/src/metadata.rs:309-347 | saving and loading restores tickers and stamps exactly when values are under their own ticker and the stamped venues are those with tickers |
| Metadata.FileInventsStamp | data/src/metadata.rs:309-347 | entries without a stamp that come back with one |
| Metadata.FileLosesStamp | data/src/metadata.rs:309-347 | a stamp without entries that does not come back |
| Metadata.SavedSnapshotLoads | data/src/metadata.rs:211-231 | what any run saves, merged into an earlier file, loads as it was saved and is fit to start from |
| Streams.UniqueStreams.Add | exchange/src/adapter.rs:156-170 | both the registry and the cached specifications become those of the set with the stream added |
| Streams.UniqueStreams.From | exchange/src/adapter.rs:148-154 | hence both depend on the set of streams alone, not on order or repeats |
| Streams.UniqueStreams.UpdateSpecsForExchange | exchange/src/adapter.rs:178-188 | the cache of one exchange is renewed and no other |
| Streams.UniqueStreams.View | exchange/src/adapter.rs:194-217 | a filtered or unfiltered view is the sorted listing of the extracted set, whatever order the maps are visited in |
| Streams.SpecsAreSortedExtractions | exchange/src/adapter.rs:178-232 | specifications are there exactly when the exchange has a stream, sorted, without repeats, with exactly the streams of their kind |
| Streams.SpecKeysTellApart | exchange/src/adapter.rs:190-217 | the derived order tells all specifications apart, so the unstable sort has one outcome |
| Orders.ListingIsUnique | exchange/src/adapter.rs:214-216 | a set has one sorted listing without repeats |
| Orders.KeysAreOrdered | exchange/src/adapter.rs:214-216 | the lexicographic order of keys is total, antisymmetric and transitive |
| Paging.NewPage | exchange/src/adapter.rs:640-647 | a page is strictly increasing, with one of the fetched bars for each of their times in range |
| Paging.PageEndIsExact | exchange/src/adapter.rs:649-664 | exactly when a page end exists; it is inside the range and what unbounded arithmetic would give |
| Paging.PagesPartition | exchange/src/adapter.rs:649-664 | taking page ends again and again terminates and cuts the range into contiguous non-empty pages, full but for the last |
| Paging.PageHoldsMaxBars | exchange/src/adapter.rs:649-664 | no page has more than the limit of aligned times |
| Paging.JoinedPages | exchange/src/adapter.rs:640-664 | all pages together are strictly increasing and have exactly the times fetched for the page they fall into |
| DebugLog.DebugTerminal.PushDebugLine | src/logger.rs:136-154 | a line that is not blank goes last and the oldest lines above the limit go |
| DebugLog.DebugTerminal.DrainLines | src/logger.rs:167-177 | the drained lines are those a newline ends, and the rest stays pending |
| DebugLog.DebugTerminal.Write | src/logger.rs:158-185 | over any chunking, the pending line is what follows the last newline of the text written since the last flush, and the buffer holds the last lines that are not blank |
| DebugLog.DebugTerminal.Flush | src/logger.rs:187-202 | a flush ends the pending line, kept only when it is not blank |
| DebugLog.CompletedOfJoin | src/logger.rs:164-177 | cutting a text in two and carrying the tail over gives the lines of the whole |
| DebugLog.LinesMakeText | src/logger.rs:164-177 | the lines with what ended them, and the rest, are the text again, and none holds a newline |
| DebugLog.WriteAll | src/logger.rs:158-185 | the text so written is that of all bytes together exactly when no chunk cuts a character |
| Utf8.EncodeThenDecode | src/logger.rs:161 | encoded text decodes to itself |
| Utf8.LossyIsGreedy | src/logger.rs:161 | for any bytes: a character that starts is decoded, and otherwise the longest start of one becomes one replacement character |
| Utf8.ChunksDecide | src/logger.rs:161 | chunks decode as the whole does exactly when none goes on with a character that the bytes before it started |
| Utf8.CutLosesLetter | src/logger.rs:161 | a letter that a cut loses |
| LogEntries.ParseEntry | src/debug_terminal.rs:205-258 | the step-by-step parser reads what its specification says |
| LogEntries.PrintedLineReads | src/debug_terminal.rs:205-258 | a printed line reads back as its time, level, target and trimmed text exactly when time and target hold no closing bracket |
| LogEntries.PrintedLineLevel | src/debug_terminal.rs:91-103 | the filter's reading of the level agrees with the parser's on every printed line |
| LogEntries.FilterShowsLevel | src/debug_terminal.rs:59-79 | a printed line shows exactly when its level is on, and toggling a level changes its own lines only |
| LogEntries.LevelOfLine | src/debug_terminal.rs:91-103 | for every line, exactly which level it names |
| LogEntries.LinesMatch | src/debug_terminal.rs:59-69 | every line shows exactly when the level it names is on, and with INFO when it names none |
| LogEntries.FormattedReads | src/logger.rs:61-77 | a formatted message of many lines splits into lines that read back one by one |
| LogEntries.LogMessage | src/logger.rs:61-77 | a message written to a terminal in any chunks that cut no character adds one entry for each of its lines, in order |
| PaneSetups.DefaultsAreSupported | data/src/chart.rs:100-134 | default timeframes are supported by the exchange |
| PaneSetups.SetupBasisIsStable | data/src/layout/pane.rs:304-342 | a setup asked for with its own basis keeps it |
| PaneSetups.SetupIsExact | data/src/layout/pane.rs:290-384 | a basis that fits the kind stays and another gives way to its default; multiplier, aggregation and pace in every case |
| Retarget.RetargetPane | src/layout.rs:166-324 | the retargeted pane and whether the fallback was used |
| Retarget.RetargetStreams | src/layout.rs:294-322 | the rewriting loop reaches the specified streams |
| Retarget.Dashboard.Retarget | src/layout.rs:161-331 | pane and popouts are retargeted, windows stay, and the fallback is reported exactly when some pane is a GEX chart and the market has no source |
| Retarget.RewrittenAllFacts | src/layout.rs:294-322 | a pane's streams are the rewritten ones, each once, in the order they first come in |
| Retarget.RetargetKeepsLayout | src/layout.rs:161-331 | the split tree and the leaves' kinds stay; every stream is the one it was, moved to the market with its own or the setup's timeframe, aggregation and pace; lines and profiles at times stay in order and other drawings go, only when a stream's ticker changed; settings follow the setup exactly when the exchange changed; colours, names and the options reference are moved as promised |
| Retarget.TimeframeIsSupported | src/layout.rs:297-307 | exactly when, by the kind of pane and its basis before, a kline stream ends on a timeframe that the market supports |
| Retarget.TimeframesAreLeftUnsupported | src/layout.rs:297-307 | streams of a footprint, a heatmap and a ladder that end on an unsupported timeframe |
| Retarget.RetargetTwice | src/layout.rs:161-331 | retargeting a retargeted layout to the same market changes nothing |

## Left out

- IEEE rounding, overflow to infinity inside a computation, and NaN payloads: floats are reals.
- The work budget of the indicator engine: it is taken not to run out.
- Builtins `ema`, `rma`, `vwma`, `cum`, `tr`, `avwap`, `previous_when`: simpler folds of the same kind.
- Equality of containers, strings and colours in `equals`; unary and arithmetic operators.
- Intrinsics.EvalContext.EvalStdev: states the value under the square root, because reals have no root here.
- Sizes of the program's types are stand-in constants that no proof depends on.
- Collections.EvalArrayPush: takes the allocator's growth as a parameter.
- LogEntries.ParseEntry: keeps the text that the source classifies into a category, an event and a summary.
- The typed decoders behind the sanitiser are one predicate of which only acceptance of the program's own defaults is assumed.
- The strings of a saved document are the words the program looks for and all others, and warnings are named instead of spelled.
- Sanitizer.Sanitizer.SanitizePane: takes a node and returns it rewritten instead of rewriting it in place, since its caller owns the node alone. Retarget.RetargetPane does the same.
- Reading and writing files, backups, threads and locks; the debug line limit is read once and not at every push.
- What reading the cache file gives is a parameter; freshness ages are left out.
- The text encoding of the metadata file around its tickers and venues.
- UTF-8 validity inside a ticker's byte buffers: a buffer is given by the text that its bytes spell.
- Six-bit packing is not in the repository any more; it is defined here to state what its decoder undoes.
- Which options source a ticker resolves to is a parameter of retargeting; price steps of pane setups, and setups after a previous market, are not modelled.
- The pane variants that show streams are one constructor with a kind, and what retargeting never looks at
  (view layout, studies, indicators, link group) is one opaque part of a pane.
- A failed assertion of the ticker constructor is a fault like any other error of a parser.
- Template export and import, anchored month arithmetic, and everything that draws.
