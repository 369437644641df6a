/**
 Deduplication of toasts with exponential backoff (src/notify.rs). Clock
 readings are nanoseconds and never go back.
 */
module Notify {
  import opened Basics

  const SECOND: nat := 1_000_000_000
  const ERROR_DEDUPE_BASE_WINDOW_SECS: nat := 30
  const ERROR_DEDUPE_MAX_WINDOW_SECS: nat := 300
  const DEFAULT_DEDUPE_WINDOW_SECS: nat := 10
  const DEDUPE_CACHE_TTL_SECS: nat := 300
  const MAX_BACKOFF_LEVEL: nat := 5
  const U32_MAX: nat := 0xFFFF_FFFF

  datatype Status = Primary | Secondary | Success | Danger | Warning

  datatype Toast = Toast(title: string, body: string, status: Status)

  datatype DedupeState = DedupeState(lastEmittedAt: nat, lastSeenAt: nat, suppressed: nat, backoffLevel: nat)

  type Cache = map<Toast, DedupeState>

  function Factor(level: nat): nat {
    if level == 0 then 1
    else if level == 1 then 2
    else if level == 2 then 4
    else if level == 3 then 8
    else if level == 4 then 16
    else 32
  }

  function DedupeWindow(toast: Toast, level: nat): nat {
    if toast.status == Danger
    then Min(ERROR_DEDUPE_BASE_WINDOW_SECS * Factor(level), ERROR_DEDUPE_MAX_WINDOW_SECS) * SECOND
    else DEFAULT_DEDUPE_WINDOW_SECS * SECOND
  }

  function Digits(n: nat): string {
    var digit := ["0123456789"[n % 10]];
    if n < 10 then digit else Digits(n / 10) + digit
  }

  function AggregateToast(base: Toast, suppressed: nat): Toast {
    var retries := if suppressed == 1 then "1 retry" else Digits(suppressed) + " retries";
    Toast(base.title, base.body + " (still failing, " + retries + ")", base.status)
  }

  // An entry last seen at `seen` is not yet dropped at `now`.
  predicate AliveAt(seen: nat, now: nat) { now < seen || (now - seen) / SECOND <= DEDUPE_CACHE_TTL_SECS }

  predicate Live(state: DedupeState, now: nat) { AliveAt(state.lastSeenAt, now) }

  function Pruned(cache: Cache, now: nat): Cache {
    map toast | toast in cache && Live(cache[toast], now) :: cache[toast]
  }

  // What a push makes of the cache entry of its key, and what it shows.
  function PushEntry(entry: Option<DedupeState>, key: Toast, now: nat): (DedupeState, Option<Toast>) {
    match entry
    case None => (DedupeState(now, now, 0, 0), Some(key))
    case Some(state) =>
      if now - state.lastEmittedAt < DedupeWindow(key, state.backoffLevel) then
        (state.(lastSeenAt := now, suppressed := Min(state.suppressed + 1, U32_MAX)), None)
      else
        var retried := key.status == Danger && state.suppressed > 0;
        (DedupeState(now, now, 0, if retried then Min(state.backoffLevel + 1, MAX_BACKOFF_LEVEL) else 0),
         Some(if retried then AggregateToast(key, state.suppressed) else key))
  }

  function Entry(cache: Cache, key: Toast): Option<DedupeState> {
    if key in cache then Some(cache[key]) else None
  }

  function PushToast(cache: Cache, toast: Toast, now: nat): (Cache, Option<Toast>) {
    var pruned := Pruned(cache, now);
    var (state, shown) := PushEntry(Entry(pruned, toast), toast, now);
    (pruned[toast := state], shown)
  }

  class Notifications {
    var toasts: seq<Toast>
    var dedupeCache: Cache

    constructor ()
      ensures toasts == [] && dedupeCache == map[]
    {
      toasts, dedupeCache := [], map[];
    }

    method Push(toast: Toast, now: nat)
      modifies this
      ensures dedupeCache == PushToast(old(dedupeCache), toast, now).0
      ensures toasts == old(toasts) + match PushToast(old(dedupeCache), toast, now).1
                                      case None => []
                                      case Some(shown) => [shown]
    {
      PruneCache(now);
      var key := toast;
      if key in dedupeCache {
        var state := dedupeCache[key];
        state := state.(lastSeenAt := now);
        var window := DedupeWindow(key, state.backoffLevel);
        if now - state.lastEmittedAt < window {
          state := state.(suppressed := Min(state.suppressed + 1, U32_MAX));
          dedupeCache := dedupeCache[key := state];
          return;
        }
        var errorToastRetried := key.status == Danger && state.suppressed > 0;
        var toastToShow := if errorToastRetried then AggregateToast(key, state.suppressed) else toast;
        if errorToastRetried {
          state := state.(backoffLevel := Min(state.backoffLevel + 1, MAX_BACKOFF_LEVEL));
        } else {
          state := state.(backoffLevel := 0);
        }
        state := state.(lastEmittedAt := now, suppressed := 0);
        dedupeCache := dedupeCache[key := state];
        toasts := toasts + [toastToShow];
        return;
      }
      dedupeCache := dedupeCache[key := DedupeState(now, now, 0, 0)];
      toasts := toasts + [toast];
    }

    method PruneCache(now: nat)
      modifies this`dedupeCache
      ensures dedupeCache == Pruned(old(dedupeCache), now)
    {
      dedupeCache := map toast | toast in dedupeCache && Live(dedupeCache[toast], now) :: dedupeCache[toast];
    }

    method Remove(index: nat)
      modifies this`toasts
      ensures toasts == if index < |old(toasts)| then old(toasts)[..index] + old(toasts)[index + 1..] else old(toasts)
    {
      if index < |toasts| {
        toasts := toasts[..index] + toasts[index + 1..];
      }
    }
  }

  // ---------------------------------------------------------------------
  // Runs
  // ---------------------------------------------------------------------

  // Pushes of a run, the caches around them, and what each push shows.
  datatype Run = Run(pushes: seq<Toast>, times: seq<nat>, caches: seq<Cache>, shown: seq<Option<Toast>>)

  ghost predicate IsRun(run: Run) {
    && |run.pushes| == |run.times| == |run.shown| && |run.caches| == |run.pushes| + 1
    && run.caches[0] == map[]
    && (forall i: nat :: i < |run.pushes| ==> Steps(run, i))
    && (forall i: nat, j: nat :: i < j < |run.times| ==> run.times[i] <= run.times[j])
  }

  ghost predicate Steps(run: Run, i: nat)
    requires |run.pushes| == |run.times| == |run.shown| && |run.caches| == |run.pushes| + 1 && i < |run.pushes|
  {
    (run.caches[i + 1], run.shown[i]) == PushToast(run.caches[i], run.pushes[i], run.times[i])
  }

  ghost predicate Emits(run: Run, i: nat, key: Toast)
    requires IsRun(run) && i < |run.pushes|
  {
    run.pushes[i] == key && run.shown[i].Some?
  }

  // Push `i` shows `key`, and no push up to `n` shows it again.
  ghost predicate LastEmission(run: Run, i: nat, n: nat, key: Toast)
    requires IsRun(run) && n <= |run.pushes|
  {
    i < n && Emits(run, i, key) && forall m: nat :: i < m < n ==> !Emits(run, m, key)
  }

  // How many pushes of `key` there are after `i` and before `n`.
  ghost function PushesBetween(run: Run, i: nat, n: nat, key: Toast): nat
    requires n <= |run.pushes|
  {
    if n <= i + 1 then 0
    else PushesBetween(run, i, n - 1, key) + if run.pushes[n - 1] == key then 1 else 0
  }

  // The level that the emission at `i` leaves behind.
  ghost function LevelAfter(run: Run, i: nat, key: Toast): nat
    requires IsRun(run) && i < |run.pushes| && key in run.caches[i + 1]
  {
    run.caches[i + 1][key].backoffLevel
  }

  lemma StepFacts(cache: Cache, toast: Toast, now: nat, key: Toast)
    ensures var (next, shown) := PushToast(cache, toast, now);
            && toast in next
            && (shown.Some? ==>
                  && next[toast].lastEmittedAt == next[toast].lastSeenAt == now && next[toast].suppressed == 0
                  && next[toast].backoffLevel <= MAX_BACKOFF_LEVEL)
            && (shown.None? ==> toast in cache && next[toast] == cache[toast].(lastSeenAt := now, suppressed := Min(cache[toast].suppressed + 1, U32_MAX)))
            && (key != toast ==> Entry(next, key) == if key in cache && Live(cache[key], now) then Some(cache[key]) else None)
            && (key == toast && shown.Some? && key in cache && Live(cache[key], now) ==>
                  now - cache[key].lastEmittedAt >= DedupeWindow(key, cache[key].backoffLevel))
            && (shown.Some? && shown.value != toast ==>
                  && toast in cache && toast.status == Danger && cache[toast].suppressed > 0
                  && shown.value == AggregateToast(toast, cache[toast].suppressed)
                  && Live(cache[toast], now))
  {
  }

  // After an emission the cache remembers it exactly, unless the entry has
  // expired, which takes longer than any window.
  ghost predicate Remembered(run: Run, i: nat, n: nat, key: Toast)
    requires IsRun(run) && i < n <= |run.pushes|
  {
    && key in run.caches[i + 1]
    && (if key in run.caches[n] then
          var state := run.caches[n][key];
          && state.lastEmittedAt == run.times[i]
          && run.times[i] <= state.lastSeenAt <= run.times[n - 1]
          && state.backoffLevel == LevelAfter(run, i, key)
          && state.suppressed == Min(PushesBetween(run, i, n, key), U32_MAX)
        else
          run.times[n - 1] - run.times[i] > DEDUPE_CACHE_TTL_SECS * SECOND)
  }

  lemma {:induction false} EmissionIsRemembered(run: Run, i: nat, n: nat, key: Toast)
    requires IsRun(run) && n <= |run.pushes| && LastEmission(run, i, n, key)
    ensures Remembered(run, i, n, key)
    decreases n
  {
    hide PushToast, DedupeWindow, AggregateToast, Live;
    var last := n - 1;
    assert Steps(run, last);
    StepFacts(run.caches[last], run.pushes[last], run.times[last], key);
    if i < last {
      EmissionIsRemembered(run, i, last, key);
      if key in run.caches[last] {
        ExpiryTakesLong(run.caches[last][key], run.times[last]);
      }
      assert !Emits(run, last, key);
    }
  }

  lemma ExpiryTakesLong(state: DedupeState, now: nat)
    ensures !Live(state, now) ==> now - state.lastSeenAt > DEDUPE_CACHE_TTL_SECS * SECOND
  {
  }

  lemma WindowIsBounded(toast: Toast, level: nat)
    ensures DedupeWindow(toast, level) <= DEDUPE_CACHE_TTL_SECS * SECOND
  {
  }

  lemma {:induction false} LastEmissionBefore(run: Run, i: nat, j: nat, key: Toast) returns (last: nat)
    requires IsRun(run) && i < j <= |run.pushes| && Emits(run, i, key)
    ensures i <= last && LastEmission(run, last, j, key)
  {
    last := j - 1;
    while !Emits(run, last, key)
      invariant i <= last < j
      invariant forall m: nat :: last < m < j ==> !Emits(run, m, key)
      decreases last
    {
      last := last - 1;
    }
  }

  // Two emissions of a key, with others between them or not, are apart by the
  // window that the level after the first one sets, whether or not its entry
  // was pruned in between.
  lemma {:induction false} EmissionsKeepApart(run: Run, i: nat, j: nat, key: Toast)
    requires IsRun(run) && i < j < |run.pushes|
    requires Emits(run, i, key) && Emits(run, j, key)
    ensures key in run.caches[i + 1]
    ensures run.times[j] - run.times[i] >= DedupeWindow(key, LevelAfter(run, i, key))
    decreases j
  {
    hide PushToast, DedupeWindow, AggregateToast, Live;
    var last := LastEmissionBefore(run, i, j, key);
    if i < last {
      EmissionsKeepApart(run, i, last, key);
    } else {
      EmissionIsRemembered(run, i, j, key);
      assert Steps(run, j);
      StepFacts(run.caches[j], key, run.times[j], key);
      WindowIsBounded(key, LevelAfter(run, i, key));
      if key in run.caches[j] {
        ExpiryTakesLong(run.caches[j][key], run.times[j]);
      }
    }
  }

  // Backoff levels stay within their bound in every cache of a run.
  lemma {:induction false} LevelsAreBounded(run: Run, n: nat, key: Toast)
    requires IsRun(run) && n <= |run.pushes|
    ensures key in run.caches[n] ==> run.caches[n][key].backoffLevel <= MAX_BACKOFF_LEVEL
  {
    if n > 0 {
      LevelsAreBounded(run, n - 1, key);
      LevelsAreBounded(run, n - 1, run.pushes[n - 1]);
      assert Steps(run, n - 1);
      hide PushToast;
      StepFacts(run.caches[n - 1], run.pushes[n - 1], run.times[n - 1], key);
    }
  }

  lemma {:induction false} CachedMeansEmitted(run: Run, n: nat, key: Toast) returns (i: nat)
    requires IsRun(run) && n <= |run.pushes| && key in run.caches[n]
    ensures LastEmission(run, i, n, key)
  {
    hide PushToast, DedupeWindow, AggregateToast, Live;
    var last := n - 1;
    assert n > 0;
    assert Steps(run, last);
    StepFacts(run.caches[last], run.pushes[last], run.times[last], key);
    if Emits(run, last, key) {
      i := last;
    } else {
      i := CachedMeansEmitted(run, last, key);
    }
  }

  // A toast that is not shown as it was pushed is an error that shows exactly
  // how many pushes were hidden since the previous emission of its key.
  lemma {:induction false} AggregateCountsHidden(run: Run, j: nat) returns (i: nat)
    requires IsRun(run) && j < |run.pushes|
    requires run.shown[j].Some? && run.shown[j].value != run.pushes[j]
    ensures LastEmission(run, i, j, run.pushes[j])
    ensures run.pushes[j].status == Danger && PushesBetween(run, i, j, run.pushes[j]) > 0
    ensures run.shown[j].value == AggregateToast(run.pushes[j], Min(PushesBetween(run, i, j, run.pushes[j]), U32_MAX))
  {
    hide PushToast, DedupeWindow, AggregateToast, Live;
    var key := run.pushes[j];
    assert Steps(run, j);
    StepFacts(run.caches[j], key, run.times[j], key);
    i := CachedMeansEmitted(run, j, key);
    EmissionIsRemembered(run, i, j, key);
  }

  // ---------------------------------------------------------------------
  // Levels and windows
  // ---------------------------------------------------------------------

  // How many emissions of `key` in a row, up to push `n`, told of hidden ones.
  ghost function Streak(run: Run, n: nat, key: Toast): nat
    requires IsRun(run) && n <= |run.pushes|
  {
    if n == 0 then 0
    else if !Emits(run, n - 1, key) then Streak(run, n - 1, key)
    else if run.shown[n - 1] == Some(key) then 0
    else Streak(run, n - 1, key) + 1
  }

  // What a push makes of the level of its key.
  lemma StepLevel(cache: Cache, toast: Toast, now: nat)
    ensures var (next, shown) := PushToast(cache, toast, now);
            && (shown == Some(toast) ==> next[toast].backoffLevel == 0)
            && (shown.Some? && shown.value != toast ==>
                  toast in cache && next[toast].backoffLevel == Min(cache[toast].backoffLevel + 1, MAX_BACKOFF_LEVEL))
            && (shown.None? <==>
                  toast in cache && Live(cache[toast], now)
                  && now - cache[toast].lastEmittedAt < DedupeWindow(toast, cache[toast].backoffLevel))
  {
    hide AggregateToast, DedupeWindow;
    assert forall n: nat :: AggregateToast(toast, n) != toast by {
      forall n: nat ensures AggregateToast(toast, n) != toast {
        AggregateDiffers(toast, n);
      }
    }
  }

  // The level after an emission is the length of its streak, up to the bound:
  // one that tells of hidden errors is one level up, any other resets it.
  lemma {:induction false} LevelIsStreak(run: Run, j: nat, key: Toast)
    requires IsRun(run) && j < |run.pushes| && Emits(run, j, key)
    ensures key in run.caches[j + 1]
    ensures LevelAfter(run, j, key) == Min(Streak(run, j + 1, key), MAX_BACKOFF_LEVEL)
    decreases j
  {
    hide PushToast, DedupeWindow, AggregateToast, Live;
    assert Steps(run, j);
    StepFacts(run.caches[j], key, run.times[j], key);
    StepLevel(run.caches[j], key, run.times[j]);
    if run.shown[j] != Some(key) {
      var i := AggregateCountsHidden(run, j);
      LevelIsStreak(run, i, key);
      EmissionIsRemembered(run, i, j, key);
      StreakStays(run, i, j, key);
    }
  }

  lemma {:induction false} StreakStays(run: Run, i: nat, n: nat, key: Toast)
    requires IsRun(run) && n <= |run.pushes| && LastEmission(run, i, n, key)
    ensures Streak(run, n, key) == Streak(run, i + 1, key)
    decreases n
  {
    if i + 1 < n {
      assert LastEmission(run, i, n - 1, key);
      StreakStays(run, i, n - 1, key);
    }
  }

  // Seconds for which an emission of this streak hides further pushes.
  function WindowSeconds(toast: Toast, streak: nat): nat {
    if toast.status != Danger then 10
    else if streak == 0 then 30
    else if streak == 1 then 60
    else if streak == 2 then 120
    else if streak == 3 then 240
    else 300
  }

  lemma WindowOfLevel(toast: Toast, streak: nat)
    ensures DedupeWindow(toast, Min(streak, MAX_BACKOFF_LEVEL)) == WindowSeconds(toast, streak) * SECOND
  {
  }

  // A push is hidden exactly while the window of the last emission of its key
  // is open.
  lemma {:induction false} HiddenExactly(run: Run, j: nat)
    requires IsRun(run) && j < |run.pushes|
    ensures run.shown[j].None?
       <==> exists i: nat :: InWindowOf(run, i, j)
  {
    hide PushToast, DedupeWindow, AggregateToast, Live, LastEmission, InWindowOf;
    var key := run.pushes[j];
    assert Steps(run, j);
    StepLevel(run.caches[j], key, run.times[j]);
    if key in run.caches[j] {
      var i := CachedMeansEmitted(run, j, key);
      EntryHides(run, i, j);
    }
    forall i: nat | InWindowOf(run, i, j) ensures run.shown[j].None? {
      LastOfWindow(run, i, j);
      EntryHides(run, i, j);
    }
  }

  lemma LastOfWindow(run: Run, i: nat, j: nat)
    requires IsRun(run) && j < |run.pushes| && InWindowOf(run, i, j)
    ensures LastEmission(run, i, j, run.pushes[j])
  {
  }

  lemma {:induction false} EntryHides(run: Run, i: nat, j: nat)
    requires IsRun(run) && j < |run.pushes| && LastEmission(run, i, j, run.pushes[j])
    ensures run.shown[j].None? <==> InWindowOf(run, i, j)
  {
    hide PushToast, DedupeWindow, AggregateToast, Live, WindowSeconds;
    var (key, now) := (run.pushes[j], run.times[j]);
    assert Steps(run, j);
    StepLevel(run.caches[j], key, now);
    EmissionIsRemembered(run, i, j, key);
    LevelIsStreak(run, i, key);
    WindowOfLevel(key, Streak(run, i + 1, key));
    WindowIsBounded(key, LevelAfter(run, i, key));
    if key in run.caches[j] {
      ExpiryTakesLong(run.caches[j][key], now);
    }
  }

  ghost predicate InWindowOf(run: Run, i: nat, j: nat)
    requires IsRun(run) && j < |run.pushes|
  {
    && LastEmission(run, i, j, run.pushes[j])
    && run.times[j] - run.times[i] < WindowSeconds(run.pushes[j], Streak(run, i + 1, run.pushes[j])) * SECOND
  }

  // ---------------------------------------------------------------------
  // Exactly when hidden pushes are reported
  // ---------------------------------------------------------------------

  // Push `p` is the latest of `key` before `n`.
  ghost predicate LatestPush(run: Run, p: nat, n: nat, key: Toast)
    requires IsRun(run) && n <= |run.pushes|
  {
    p < n && run.pushes[p] == key && forall m: nat :: p < m < n ==> run.pushes[m] != key
  }

  // An entry is kept from the latest push of its key until it expires.
  lemma {:induction false} SeenAtLatestPush(run: Run, p: nat, n: nat, key: Toast)
    requires IsRun(run) && n <= |run.pushes| && LatestPush(run, p, n, key)
    ensures if key in run.caches[n] then run.caches[n][key].lastSeenAt == run.times[p]
            else !AliveAt(run.times[p], run.times[n - 1])
    decreases n
  {
    hide PushToast, DedupeWindow, AggregateToast;
    var last := n - 1;
    assert Steps(run, last);
    StepFacts(run.caches[last], run.pushes[last], run.times[last], key);
    if p < last {
      SeenAtLatestPush(run, p, last, key);
      if key !in run.caches[last] {
        ExpiryIsForGood(run.times[p], run.times[last - 1], run.times[last]);
      }
    }
  }

  lemma ExpiryIsForGood(seen: nat, now: nat, later: nat)
    requires now <= later && !AliveAt(seen, now)
    ensures !AliveAt(seen, later)
  {
  }

  lemma StepShows(cache: Cache, toast: Toast, now: nat)
    ensures var shown := PushToast(cache, toast, now).1;
            && (toast !in cache || !Live(cache[toast], now) ==> shown == Some(toast))
            && (toast in cache && Live(cache[toast], now) && shown.Some? ==>
                  shown.value == if toast.status == Danger && cache[toast].suppressed > 0
                                 then AggregateToast(toast, cache[toast].suppressed) else toast)
  {
    hide AggregateToast;
  }

  lemma AggregateDiffers(toast: Toast, suppressed: nat)
    ensures AggregateToast(toast, suppressed) != toast
  {
    assert |AggregateToast(toast, suppressed).body| > |toast.body|;
  }

  lemma {:induction false} HiddenPushes(run: Run, i: nat, p: nat, n: nat, key: Toast)
    requires IsRun(run) && n <= |run.pushes| && LatestPush(run, p, n, key) && i <= p
    ensures PushesBetween(run, i, n, key) > 0 <==> i < p
    decreases n
  {
    if p < n - 1 {
      HiddenPushes(run, i, p, n - 1, key);
    }
  }

  // An error pushed again after `i` was shown, hidden for the last time at
  // `p`, and pushed once more at `j` before its entry expires.
  ghost predicate Reports(run: Run, i: nat, p: nat, j: nat)
    requires IsRun(run) && j < |run.pushes|
  {
    && run.pushes[j].status == Danger
    && LastEmission(run, i, j, run.pushes[j]) && i < p && LatestPush(run, p, j, run.pushes[j])
    && AliveAt(run.times[p], run.times[j])
  }

  // A toast that is shown is aggregated exactly when it is an error that was
  // hidden since it was last shown, and its entry has not expired.
  lemma {:induction false} AggregatedExactly(run: Run, j: nat)
    requires IsRun(run) && j < |run.pushes| && run.shown[j].Some?
    ensures run.shown[j].value != run.pushes[j] <==> exists i: nat, p: nat :: Reports(run, i, p, j)
  {
    hide PushToast, DedupeWindow, AggregateToast, LastEmission;
    var key := run.pushes[j];
    if run.shown[j].value != key {
      var i := AggregateCountsHidden(run, j);
      var p := FindLatestPush(run, i, j, key);
      HiddenPushes(run, i, p, j, key);
      EntryDecides(run, p, j);
      assert Reports(run, i, p, j);
    }
    if i: nat, p: nat :| Reports(run, i, p, j) {
      EmissionIsRemembered(run, i, j, key);
      HiddenPushes(run, i, p, j, key);
      EntryDecides(run, p, j);
      if key in run.caches[j] {
        AggregateDiffers(key, run.caches[j][key].suppressed);
      }
    }
  }

  lemma {:induction false} FindLatestPush(run: Run, i: nat, n: nat, key: Toast) returns (p: nat)
    requires IsRun(run) && n <= |run.pushes| && LastEmission(run, i, n, key)
    ensures i <= p && LatestPush(run, p, n, key)
  {
    p := n - 1;
    while run.pushes[p] != key
      invariant i <= p < n
      invariant forall m: nat :: p < m < n ==> run.pushes[m] != key
      decreases p
    {
      p := p - 1;
    }
  }

  // What the entry of the latest push says at `j`.
  lemma EntryDecides(run: Run, p: nat, j: nat)
    requires IsRun(run) && j < |run.pushes| && LatestPush(run, p, j, run.pushes[j])
    ensures var (key, now) := (run.pushes[j], run.times[j]);
            && (AliveAt(run.times[p], now) <==> key in run.caches[j] && Live(run.caches[j][key], now))
            && (!AliveAt(run.times[p], now) ==> run.shown[j] == Some(key))
            && (AliveAt(run.times[p], now) && run.shown[j].Some? ==>
                  run.shown[j].value == if key.status == Danger && run.caches[j][key].suppressed > 0
                                        then AggregateToast(key, run.caches[j][key].suppressed) else key)
  {
    hide PushToast, DedupeWindow, AggregateToast;
    var (key, now) := (run.pushes[j], run.times[j]);
    SeenAtLatestPush(run, p, j, key);
    assert Steps(run, j);
    StepShows(run.caches[j], key, now);
    if key !in run.caches[j] {
      ExpiryIsForGood(run.times[p], run.times[j - 1], now);
    }
  }

  // Once the entry has expired the count is lost: the toast shows plain.
  lemma CountIsLost(run: Run, p: nat, j: nat)
    requires IsRun(run) && j < |run.pushes| && LatestPush(run, p, j, run.pushes[j])
    requires !AliveAt(run.times[p], run.times[j])
    ensures run.shown[j] == Some(run.pushes[j])
  {
    hide PushToast, DedupeWindow, AggregateToast;
    EntryDecides(run, p, j);
  }

  // An error hidden once, and pushed again long after: nothing tells of it.
  lemma HiddenErrorIsForgotten(key: Toast) returns (run: Run)
    requires key.status == Danger
    ensures IsRun(run) && |run.pushes| == 3
    ensures LastEmission(run, 0, 2, key) && PushesBetween(run, 0, 2, key) == 1
    ensures run.pushes[2] == key && run.shown[2] == Some(key)
  {
    var (second, later) := (SECOND, 1000 * SECOND);
    var first := DedupeState(0, 0, 0, 0);
    var hidden := DedupeState(0, second, 1, 0);
    run := Run([key, key, key], [0, second, later],
               [map[], map[key := first], map[key := hidden], map[key := DedupeState(later, later, 0, 0)]],
               [Some(key), None, Some(key)]);
    assert Pruned(map[], 0) == map[] && map[][key := first] == map[key := first];
    assert Pruned(map[key := first], second) == map[key := first];
    assert map[key := first][key := hidden] == map[key := hidden];
    assert DedupeWindow(key, 0) == 30 * SECOND;
    assert Pruned(map[key := hidden], later) == map[];
    assert Steps(run, 0) && Steps(run, 1) && Steps(run, 2);
    assert PushesBetween(run, 0, 1, key) == 0;
  }

  // ---------------------------------------------------------------------
  // The text of an aggregate
  // ---------------------------------------------------------------------

  ghost function ReadDecimal(text: string): nat
    requires forall i :: 0 <= i < |text| ==> '0' <= text[i] <= '9'
  {
    if text == "" then 0
    else 10 * ReadDecimal(text[..|text| - 1]) + (text[|text| - 1] - '0') as nat
  }

  // The count is in decimal, without leading zeros.
  lemma {:induction false} DigitsReadBack(n: nat)
    ensures forall i :: 0 <= i < |Digits(n)| ==> '0' <= Digits(n)[i] <= '9'
    ensures ReadDecimal(Digits(n)) == n
    ensures Digits(n) != "" && (Digits(n)[0] == '0' <==> n == 0)
  {
    DigitOf(n % 10);
    var text := Digits(n);
    if n < 10 {
      assert text[..0] == "";
    } else {
      DigitsReadBack(n / 10);
      assert text[..|text| - 1] == Digits(n / 10);
    }
  }

  lemma DigitOf(d: nat)
    requires d < 10
    ensures "0123456789"[d] == '0' + d as char
  {
  }
}
