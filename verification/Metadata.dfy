/**
 Market metadata: what is known about each ticker, stamped per venue, with
 merging and the file it is kept in (data/src/metadata.rs). Times are signed,
 and 0 is the default time.
 */
module Metadata {
  import opened Basics
  import opened Exchanges
  import opened Tickers

  type Entries = map<Ticker, Option<TickerInfo>>

  datatype Source = Fresh(now: int) | Cached(fetchedAt: int, refreshPending: bool)

  datatype Store = Store(cacheEnabled: bool, tickers: Entries, lastUpdated: map<Venue, int>, inFlight: set<Venue>)

  function VenueOfTicker(t: Ticker): Venue { VenueOf(t.exchange) }

  function EntriesAt(entries: Entries, venue: Venue): Entries {
    map t | t in entries && VenueOfTicker(t) == venue :: entries[t]
  }

  function EntriesElsewhere(entries: Entries, venue: Venue): Entries {
    map t | t in entries && VenueOfTicker(t) != venue :: entries[t]
  }

  function StampOf(stamps: map<Venue, int>, venue: Venue): Option<int> {
    if venue in stamps then Some(stamps[venue]) else None
  }

  // What a store knows of one venue.
  datatype VenueView<E> = VenueView(stamp: Option<int>, entries: E)

  function AtVenue(m: Store, venue: Venue): VenueView<Entries> {
    VenueView(StampOf(m.lastUpdated, venue), EntriesAt(m.tickers, venue))
  }

  function Time(source: Source): int { if source.Fresh? then source.now else source.fetchedAt }

  predicate Applies(source: Source, stamp: Option<int>) {
    source.Fresh? || stamp.None? || source.fetchedAt >= stamp.value
  }

  function Ingested(m: Store, venue: Venue, entries: Entries, source: Source): Store {
    if entries == map[] || !Applies(source, StampOf(m.lastUpdated, venue)) then m
    else m.(tickers := EntriesElsewhere(m.tickers, venue) + entries, lastUpdated := m.lastUpdated[venue := Time(source)])
  }

  predicate Beats(newStamp: Option<int>, stamp: Option<int>) {
    newStamp.Some? && (stamp.None? || newStamp.value > stamp.value)
  }

  // The side that wins a merge: the right one only with a newer stamp.
  function Newer<E>(a: VenueView<E>, b: VenueView<E>): VenueView<E> { if Beats(b.stamp, a.stamp) then b else a }

  // The merge of two stores, each venue taken whole from the winning side.
  function Winner(a: Store, b: Store, venue: Venue): Store {
    if Beats(StampOf(b.lastUpdated, venue), StampOf(a.lastUpdated, venue)) then b else a
  }

  function Merged(a: Store, b: Store): Store {
    a.(tickers := map t | t in a.tickers.Keys + b.tickers.Keys && t in Winner(a, b, VenueOfTicker(t)).tickers
                    :: Winner(a, b, VenueOfTicker(t)).tickers[t],
       lastUpdated := map v | v in a.lastUpdated.Keys + b.lastUpdated.Keys && v in Winner(a, b, v).lastUpdated
                        :: Winner(a, b, v).lastUpdated[v])
  }

  // The store that the program starts with.
  function Started(enabled: bool, loaded: Option<Store>): Store {
    (if enabled && loaded.Some? then loaded.value else Store(false, map[], map[], {})).(cacheEnabled := enabled)
  }

  predicate IsEmpty(m: Store) { m.tickers == map[] && m.lastUpdated == map[] }

  // Turning the cache on loads it over a store that is still empty, all of it.
  function WithCache(m: Store, enabled: bool, loaded: Option<Store>): Store {
    (if enabled && IsEmpty(m) && loaded.Some? then loaded.value else m).(cacheEnabled := enabled)
  }

  class MarketMetadata {
    var cacheEnabled: bool
    var tickers: Entries
    var lastUpdated: map<Venue, int>
    var inFlight: set<Venue>

    function View(): Store
      reads this
    {
      Store(cacheEnabled, tickers, lastUpdated, inFlight)
    }

    // `loaded` is what reading the cache file gives, if it can be read.
    constructor (enabled: bool, loaded: Option<Store>)
      ensures View() == Started(enabled, loaded)
    {
      var start := if enabled && loaded.Some? then loaded.value else Store(false, map[], map[], {});
      cacheEnabled := enabled;
      tickers, lastUpdated, inFlight := start.tickers, start.lastUpdated, start.inFlight;
    }

    method SetCacheEnabled(enabled: bool, loaded: Option<Store>)
      modifies this
      ensures View() == WithCache(old(View()), enabled, loaded)
    {
      if enabled && tickers == map[] && lastUpdated == map[] && loaded.Some? {
        tickers, lastUpdated, inFlight := loaded.value.tickers, loaded.value.lastUpdated, loaded.value.inFlight;
      }
      cacheEnabled := enabled;
    }

    method BeginFetch(venue: Venue) returns (started: bool)
      modifies this`inFlight
      ensures started <==> venue !in old(inFlight)
      ensures inFlight == old(inFlight) + {venue}
    {
      hide VenueOfTicker;
      started := venue !in inFlight;
      inFlight := inFlight + {venue};
    }

    method CompleteFetch(venue: Venue)
      modifies this`inFlight
      ensures inFlight == old(inFlight) - {venue}
    {
      hide VenueOfTicker;
      inFlight := inFlight - {venue};
    }

    method Ingest(venue: Venue, entries: Entries, source: Source)
      modifies this`tickers, this`lastUpdated
      ensures View() == Ingested(old(View()), venue, entries, source)
    {
      hide VenueOfTicker;
      if entries == map[] {
        return;
      }
      var fetchedAt := match source
        case Fresh(now) => now
        case Cached(at, _) => at;
      var applies := match source
        case Fresh(_) => true
        case Cached(at, _) => venue !in lastUpdated || at >= lastUpdated[venue];
      if !applies {
        return;
      }
      tickers := EntriesElsewhere(tickers, venue);
      tickers := tickers + entries;
      lastUpdated := lastUpdated[venue := fetchedAt];
    }

    // The venues of the file's stamps are visited in some order.
    method MergedWith(disk: MarketMetadata) returns (merged: MarketMetadata)
      ensures fresh(merged)
      ensures merged.View() == Merged(View(), disk.View())
    {
      hide VenueOfTicker, Merged, Seen;
      merged := new MarketMetadata(cacheEnabled, None);
      merged.tickers, merged.lastUpdated, merged.inFlight := tickers, lastUpdated, inFlight;
      ghost var (a, b) := (View(), disk.View());
      ghost var done: set<Venue> := {};
      var pending := disk.lastUpdated.Keys;
      MergeIsDone(a, b);
      while pending != {}
        invariant View() == a && disk.View() == b && fresh(merged)
        invariant pending + done == b.lastUpdated.Keys && pending !! done
        invariant merged.View() == Merged(a, Seen(b, done))
      {
        var venue :| venue in pending;
        StepOfMerge(a, b, done, venue);
        pending := pending - {venue};
        done := done + {venue};
        var diskUpdated := disk.lastUpdated[venue];
        var newerOnDisk := venue !in merged.lastUpdated || diskUpdated > merged.lastUpdated[venue];
        if newerOnDisk {
          merged.lastUpdated := merged.lastUpdated[venue := diskUpdated];
          merged.tickers := EntriesElsewhere(merged.tickers, venue);
          merged.tickers := InsertAll(merged.tickers, EntriesAt(disk.tickers, venue));
        }
      }
      assert done == b.lastUpdated.Keys;
    }
  }

  // Inserts every entry, in some order.
  method InsertAll(target: Entries, extra: Entries) returns (r: Entries)
    ensures r == target + extra
  {
    hide VenueOfTicker;
    r := target;
    ghost var done: set<Ticker> := {};
    var pending := extra.Keys;
    while pending != {}
      invariant pending + done == extra.Keys && pending !! done
      invariant r == target + (map t | t in done :: extra[t])
    {
      var t :| t in pending;
      pending := pending - {t};
      r := r[t := extra[t]];
      done := done + {t};
    }
    assert done == extra.Keys;
    assert extra == map t | t in done :: extra[t];
  }

  // ---------------------------------------------------------------------
  // Merging
  // ---------------------------------------------------------------------

  function Lookup(entries: Entries, t: Ticker): Option<Option<TickerInfo>> {
    if t in entries then Some(entries[t]) else None
  }

  lemma ViewsAgree(a: Store, b: Store, venue: Venue)
    ensures AtVenue(a, venue) == AtVenue(b, venue)
       <==> (&& StampOf(a.lastUpdated, venue) == StampOf(b.lastUpdated, venue)
             && forall t :: VenueOfTicker(t) == venue ==> Lookup(a.tickers, t) == Lookup(b.tickers, t))
  {
    hide VenueOfTicker;
    var (x, y) := (AtVenue(a, venue).entries, AtVenue(b, venue).entries);
    forall t ensures VenueOfTicker(t) == venue ==> Lookup(x, t) == Lookup(a.tickers, t) && Lookup(y, t) == Lookup(b.tickers, t)
             ensures VenueOfTicker(t) != venue ==> t !in x && t !in y {
    }
    if forall t :: VenueOfTicker(t) == venue ==> Lookup(a.tickers, t) == Lookup(b.tickers, t) {
      forall t ensures Lookup(x, t) == Lookup(y, t) {
      }
      SameLookups(x, y);
    }
  }

  lemma SameLookups(x: Entries, y: Entries)
    requires forall t :: Lookup(x, t) == Lookup(y, t)
    ensures x == y
  {
    forall t ensures t in x <==> t in y
             ensures t in x ==> x[t] == y[t] {
      assert Lookup(x, t) == Lookup(y, t);
    }
  }

  lemma SameStamps(x: map<Venue, int>, y: map<Venue, int>)
    requires forall venue :: StampOf(x, venue) == StampOf(y, venue)
    ensures x == y
  {
    forall venue ensures venue in x <==> venue in y
                 ensures venue in x ==> x[venue] == y[venue] {
      assert StampOf(x, venue) == StampOf(y, venue);
    }
  }

  // Stores with the same views are the same.
  lemma SameViews(a: Store, b: Store)
    requires forall venue :: AtVenue(a, venue) == AtVenue(b, venue)
    ensures a.tickers == b.tickers && a.lastUpdated == b.lastUpdated
  {
    hide VenueOfTicker, AtVenue, Lookup, StampOf;
    forall t ensures Lookup(a.tickers, t) == Lookup(b.tickers, t) {
      ViewsAgree(a, b, VenueOfTicker(t));
    }
    forall venue ensures StampOf(a.lastUpdated, venue) == StampOf(b.lastUpdated, venue) {
      ViewsAgree(a, b, venue);
    }
    SameLookups(a.tickers, b.tickers);
    SameStamps(a.lastUpdated, b.lastUpdated);
  }

  lemma MergedStamp(a: Store, b: Store, venue: Venue)
    ensures StampOf(Merged(a, b).lastUpdated, venue) == StampOf(Winner(a, b, venue).lastUpdated, venue)
  {
  }

  lemma MergedLookup(a: Store, b: Store, t: Ticker)
    ensures Lookup(Merged(a, b).tickers, t) == Lookup(Winner(a, b, VenueOfTicker(t)).tickers, t)
  {
    hide VenueOfTicker, StampOf;
  }

  // Per venue, merging is choosing the side with the newer stamp, whole.
  lemma MergeIsPerVenue(a: Store, b: Store, venue: Venue)
    ensures AtVenue(Merged(a, b), venue) == Newer(AtVenue(a, venue), AtVenue(b, venue))
    ensures AtVenue(Merged(a, b), venue)
         == if venue in b.lastUpdated && (venue !in a.lastUpdated || b.lastUpdated[venue] > a.lastUpdated[venue])
            then AtVenue(b, venue) else AtVenue(a, venue)
  {
    WinnerWins(a, b, venue);
    NewerIs(a, b, venue);
    hide VenueOfTicker, AtVenue, Merged, Lookup, StampOf, Winner;
    MergedStamp(a, b, venue);
    forall t ensures VenueOfTicker(t) == venue ==> Lookup(Merged(a, b).tickers, t) == Lookup(Winner(a, b, venue).tickers, t) {
      MergedLookup(a, b, t);
    }
    ViewsAgree(Merged(a, b), Winner(a, b, venue), venue);
  }

  lemma NewerIs(a: Store, b: Store, venue: Venue)
    ensures Newer(AtVenue(a, venue), AtVenue(b, venue))
         == if venue in b.lastUpdated && (venue !in a.lastUpdated || b.lastUpdated[venue] > a.lastUpdated[venue])
            then AtVenue(b, venue) else AtVenue(a, venue)
  {
    hide EntriesAt;
  }

  lemma WinnerWins(a: Store, b: Store, venue: Venue)
    ensures AtVenue(Winner(a, b, venue), venue) == Newer(AtVenue(a, venue), AtVenue(b, venue))
  {
    hide VenueOfTicker, StampOf;
  }

  // The second store, of which only some stamps are seen yet.
  ghost function Seen(b: Store, venues: set<Venue>): Store {
    b.(lastUpdated := map v | v in b.lastUpdated && v in venues :: b.lastUpdated[v])
  }

  lemma SeenStamp(b: Store, venues: set<Venue>, venue: Venue)
    ensures StampOf(Seen(b, venues).lastUpdated, venue) == if venue in venues then StampOf(b.lastUpdated, venue) else None
  {
  }

  // A store in which `b`'s data replaces that of one venue.
  ghost function Replaced(m: Store, b: Store, venue: Venue): Store
    requires venue in b.lastUpdated
  {
    m.(tickers := EntriesElsewhere(m.tickers, venue) + EntriesAt(b.tickers, venue),
       lastUpdated := m.lastUpdated[venue := b.lastUpdated[venue]])
  }

  lemma ReplacedStamp(m: Store, b: Store, venue: Venue, v: Venue)
    requires venue in b.lastUpdated
    ensures StampOf(Replaced(m, b, venue).lastUpdated, v) == StampOf((if v == venue then b else m).lastUpdated, v)
  {
    hide VenueOfTicker;
  }

  lemma ReplacedLookup(m: Store, b: Store, venue: Venue, t: Ticker)
    requires venue in b.lastUpdated
    ensures Lookup(Replaced(m, b, venue).tickers, t) == Lookup((if VenueOfTicker(t) == venue then b else m).tickers, t)
  {
    hide VenueOfTicker;
  }

  lemma BeatsFacts(x: Option<int>, y: Option<int>)
    ensures !Beats(None, y) && (Beats(x, y) ==> x.Some?)
  {
  }

  lemma RestIsKept(a: Store, b: Store, venues: set<Venue>, venue: Venue)
    requires venue in b.lastUpdated
    ensures var before := Merged(a, Seen(b, venues));
            && Merged(a, Seen(b, venues + {venue})).(tickers := map[], lastUpdated := map[]) == before.(tickers := map[], lastUpdated := map[])
            && Replaced(before, b, venue).(tickers := map[], lastUpdated := map[]) == before.(tickers := map[], lastUpdated := map[])
  {
    hide VenueOfTicker, StampOf;
  }

  lemma MergeIsDone(a: Store, b: Store)
    ensures Seen(b, b.lastUpdated.Keys) == b
    ensures Merged(a, Seen(b, {})) == a
  {
    hide VenueOfTicker;
    assert (map v | v in b.lastUpdated && v in b.lastUpdated.Keys :: b.lastUpdated[v]) == b.lastUpdated;
    forall v ensures AtVenue(Merged(a, Seen(b, {})), v) == AtVenue(a, v) {
      MergeIsPerVenue(a, Seen(b, {}), v);
      SeenStamp(b, {}, v);
    }
    SameViews(Merged(a, Seen(b, {})), a);
  }

  // Looking at one more stamp replaces the data of its venue, if it is newer.
  lemma StepOfMerge(a: Store, b: Store, venues: set<Venue>, venue: Venue)
    requires venue in b.lastUpdated && venue !in venues
    ensures var before := Merged(a, Seen(b, venues));
            Merged(a, Seen(b, venues + {venue}))
            == if Beats(StampOf(b.lastUpdated, venue), StampOf(before.lastUpdated, venue)) then Replaced(before, b, venue) else before
  {
    hide VenueOfTicker, Merged, Lookup, StampOf, Replaced, Beats, AtVenue;
    var (before, after) := (Merged(a, Seen(b, venues)), Merged(a, Seen(b, venues + {venue})));
    SeenStamp(b, venues, venue);
    MergedStamp(a, Seen(b, venues), venue);
    BeatsFacts(StampOf(b.lastUpdated, venue), StampOf(a.lastUpdated, venue));
    var beats := Beats(StampOf(b.lastUpdated, venue), StampOf(before.lastUpdated, venue));
    var target := if beats then Replaced(before, b, venue) else before;
    forall v ensures StampOf(after.lastUpdated, v) == StampOf(target.lastUpdated, v)
             ensures Beats(StampOf(Seen(b, venues + {venue}).lastUpdated, v), StampOf(a.lastUpdated, v))
                  == if v == venue then beats else Beats(StampOf(Seen(b, venues).lastUpdated, v), StampOf(a.lastUpdated, v)) {
      SeenStamp(b, venues, v);
      SeenStamp(b, venues + {venue}, v);
      MergedStamp(a, Seen(b, venues), v);
      MergedStamp(a, Seen(b, venues + {venue}), v);
      if beats {
        ReplacedStamp(before, b, venue, v);
      }
    }
    forall t ensures Lookup(after.tickers, t) == Lookup(target.tickers, t) {
      MergedLookup(a, Seen(b, venues), t);
      MergedLookup(a, Seen(b, venues + {venue}), t);
      if beats {
        ReplacedLookup(before, b, venue, t);
      }
    }
    SameLookups(after.tickers, target.tickers);
    SameStamps(after.lastUpdated, target.lastUpdated);
    RestIsKept(a, b, venues, venue);
  }

  lemma MergeIsIdempotent(a: Store)
    ensures Merged(a, a) == a
  {
    hide VenueOfTicker, AtVenue, Merged;
    forall v ensures AtVenue(Merged(a, a), v) == AtVenue(a, v) {
      MergeIsPerVenue(a, a, v);
    }
    SameViews(Merged(a, a), a);
    RestIsLeft(a, a);
  }

  // A merge keeps the left side's settings and fetches.
  lemma RestIsLeft(a: Store, b: Store)
    ensures Merged(a, b).cacheEnabled == a.cacheEnabled && Merged(a, b).inFlight == a.inFlight
  {
  }

  lemma NewerIsAssociative<E>(a: VenueView<E>, b: VenueView<E>, c: VenueView<E>)
    ensures Newer(Newer(a, b), c) == Newer(a, Newer(b, c))
  {
  }

  lemma MergeIsAssociative(a: Store, b: Store, c: Store)
    ensures Merged(Merged(a, b), c) == Merged(a, Merged(b, c))
  {
    hide VenueOfTicker, AtVenue, Merged, Newer;
    var (left, right) := (Merged(Merged(a, b), c), Merged(a, Merged(b, c)));
    forall v ensures AtVenue(left, v) == AtVenue(right, v) {
      MergeIsPerVenue(a, b, v);
      MergeIsPerVenue(Merged(a, b), c, v);
      MergeIsPerVenue(b, c, v);
      MergeIsPerVenue(a, Merged(b, c), v);
      NewerIsAssociative(AtVenue(a, v), AtVenue(b, v), AtVenue(c, v));
    }
    SameViews(left, right);
    RestIsLeft(a, b);
    RestIsLeft(Merged(a, b), c);
    RestIsLeft(a, Merged(b, c));
  }

  lemma NewerCommutes<E>(a: VenueView<E>, b: VenueView<E>)
    ensures Newer(a, b) == Newer(b, a) <==> (a.stamp == b.stamp ==> a.entries == b.entries)
  {
  }

  // The two orders of a merge hold the same data exactly when no venue has
  // one stamp (or none) on both sides with different entries.
  lemma MergeCommutes(a: Store, b: Store)
    ensures (Merged(a, b).tickers == Merged(b, a).tickers && Merged(a, b).lastUpdated == Merged(b, a).lastUpdated)
       <==> (forall v :: AtVenue(a, v).stamp == AtVenue(b, v).stamp ==> AtVenue(a, v).entries == AtVenue(b, v).entries)
  {
    var (left, right) := (Merged(a, b), Merged(b, a));
    ViewsDecide(left, right);
    hide VenueOfTicker, AtVenue, Merged, Newer;
    forall v ensures AtVenue(left, v) == AtVenue(right, v)
                <==> (AtVenue(a, v).stamp == AtVenue(b, v).stamp ==> AtVenue(a, v).entries == AtVenue(b, v).entries) {
      MergeIsPerVenue(a, b, v);
      MergeIsPerVenue(b, a, v);
      NewerCommutes(AtVenue(a, v), AtVenue(b, v));
    }
  }

  lemma ViewsDecide(a: Store, b: Store)
    ensures (a.tickers == b.tickers && a.lastUpdated == b.lastUpdated) <==> (forall v :: AtVenue(a, v) == AtVenue(b, v))
  {
    hide VenueOfTicker;
    if forall v :: AtVenue(a, v) == AtVenue(b, v) {
      SameViews(a, b);
    }
  }

  // Two results of one time: each store keeps its own.
  lemma MergeOrderMatters(t: Ticker) returns (a: Store, b: Store)
    ensures Merged(a, b).tickers == map[t := None] && Merged(b, a).tickers == map[]
  {
    hide VenueOfTicker;
    a := Store(true, map[t := None], map[VenueOfTicker(t) := 1], {});
    b := a.(tickers := map[]);
    MergedLookup(a, b, t);
    assert Lookup(Merged(a, b).tickers, t) == Some(None);
    assert Winner(b, a, VenueOfTicker(t)) == b;
  }

  // Merging never goes back: each venue is one side's, and at least as new as both.
  lemma MergeNeverMixes(a: Store, b: Store, venue: Venue)
    ensures var view := AtVenue(Merged(a, b), venue);
            && (view == AtVenue(a, venue) || view == AtVenue(b, venue))
            && NotOlder(view.stamp, AtVenue(a, venue).stamp) && NotOlder(view.stamp, AtVenue(b, venue).stamp)
  {
    hide Merged, AtVenue, VenueOfTicker;
    MergeIsPerVenue(a, b, venue);
  }

  predicate NotOlder(newStamp: Option<int>, oldStamp: Option<int>) {
    oldStamp.Some? ==> newStamp.Some? && newStamp.value >= oldStamp.value
  }

  // ---------------------------------------------------------------------
  // Runs
  // ---------------------------------------------------------------------

  datatype Event =
    | Ingest(venue: Venue, entries: Entries, source: Source)
    | Begin(venue: Venue)
    | Complete(venue: Venue)
    | SetCache(enabled: bool, loaded: Option<Store>)

  // The new store, and whether the event started a fetch.
  function Step(m: Store, event: Event): (Store, bool) {
    match event
    case Ingest(venue, entries, source) => (Ingested(m, venue, entries, source), false)
    case Begin(venue) => (m.(inFlight := m.inFlight + {venue}), venue !in m.inFlight)
    case Complete(venue) => (m.(inFlight := m.inFlight - {venue}), false)
    case SetCache(enabled, loaded) => (WithCache(m, enabled, loaded), false)
  }

  datatype Run = Run(events: seq<Event>, states: seq<Store>, started: seq<bool>)

  // A loaded store has no fetches: the file does not say which were running.
  predicate IsLoadable(loaded: Option<Store>) { loaded.Some? ==> loaded.value.inFlight == {} }

  ghost predicate IsRun(run: Run) {
    && |run.states| == |run.events| + 1 && |run.started| == |run.events|
    && (exists enabled, loaded :: IsLoadable(loaded) && run.states[0] == Started(enabled, loaded))
    && (forall i: nat :: i < |run.events| && run.events[i].SetCache? ==> IsLoadable(run.events[i].loaded))
    && forall i: nat :: i < |run.events| ==> Steps(run, i)
  }

  ghost predicate Steps(run: Run, i: nat)
    requires i < |run.events| == |run.started| && |run.states| == |run.events| + 1
  {
    (run.states[i + 1], run.started[i]) == Step(run.states[i], run.events[i])
  }

  // Event `k` puts a loaded store in place of an empty one.
  ghost predicate LoadFires(run: Run, k: nat)
    requires IsRun(run) && k < |run.events|
  {
    && run.events[k].SetCache? && run.events[k].enabled && run.events[k].loaded.Some?
    && IsEmpty(run.states[k])
  }

  ghost predicate Starts(run: Run, i: nat, venue: Venue)
    requires IsRun(run) && i < |run.events|
  {
    run.events[i] == Begin(venue) && run.started[i]
  }

  ghost predicate NoneCompletes(run: Run, i: nat, j: nat, venue: Venue)
    requires IsRun(run) && j <= |run.events|
  {
    forall k: nat :: i < k < j ==> run.events[k] != Complete(venue)
  }

  // A fetch of the venue starts while an earlier one has not completed.
  ghost predicate Overlaps(run: Run, i: nat, j: nat, venue: Venue)
    requires IsRun(run)
  {
    i < j < |run.events| && Starts(run, i, venue) && Starts(run, j, venue) && NoneCompletes(run, i, j, venue)
  }

  // The cache is loaded while the venue is being fetched, and the venue is
  // asked for again before that fetch completes.
  ghost predicate LosesFetch(run: Run, k: nat, j: nat, venue: Venue)
    requires IsRun(run)
  {
    && k < j < |run.events| && LoadFires(run, k) && venue in run.states[k].inFlight
    && run.events[j] == Begin(venue) && NoneCompletes(run, k, j, venue)
  }

  // Everything that a step does to the set of running fetches.
  lemma InFlightStep(run: Run, i: nat, venue: Venue)
    requires IsRun(run) && i < |run.events|
    ensures venue in run.states[i + 1].inFlight
       <==> (run.events[i] == Begin(venue)
             || (venue in run.states[i].inFlight && run.events[i] != Complete(venue) && !LoadFires(run, i)))
    ensures run.events[i] == Begin(venue) ==> (run.started[i] <==> venue !in run.states[i].inFlight)
  {
    hide VenueOfTicker, Ingested;
    assert Steps(run, i);
    IngestKeepsFetches(run.states[i], run.events[i]);
  }

  lemma IngestKeepsFetches(m: Store, event: Event)
    ensures event.Ingest? ==> Ingested(m, event.venue, event.entries, event.source).inFlight == m.inFlight
  {
    hide VenueOfTicker;
  }

  // A venue is being fetched from the start that put it there.
  lemma {:induction false} InFlightSince(run: Run, n: nat, venue: Venue) returns (i: nat)
    requires IsRun(run) && n <= |run.events| && venue in run.states[n].inFlight
    ensures i < n && Starts(run, i, venue)
    ensures forall m: nat :: i < m <= n ==> venue in run.states[m].inFlight
  {
    hide Step;
    assert n > 0;
    InFlightStep(run, n - 1, venue);
    if venue in run.states[n - 1].inFlight {
      i := InFlightSince(run, n - 1, venue);
    } else {
      i := n - 1;
    }
  }

  // Fetches of a venue overlap exactly when the cache is loaded over one that
  // is running and the venue is asked for again before it completes.
  lemma {:induction false} OverlapsAreLostFetches(run: Run, venue: Venue)
    requires IsRun(run)
    ensures (exists i: nat, j: nat :: Overlaps(run, i, j, venue)) <==> (exists k: nat, j: nat :: LosesFetch(run, k, j, venue))
  {
    hide IsRun, Step, LoadFires;
    if i: nat, j: nat :| Overlaps(run, i, j, venue) {
      var k := LostBetween(run, i, j, venue);
      assert LosesFetch(run, k, j, venue);
    }
    if k: nat, j: nat :| LosesFetch(run, k, j, venue) {
      var i, again := StartedAgain(run, k, j, venue);
      assert Overlaps(run, i, again, venue);
    }
  }

  lemma {:induction false} LostBetween(run: Run, i: nat, j: nat, venue: Venue) returns (k: nat)
    requires IsRun(run) && Overlaps(run, i, j, venue)
    ensures i < k && LosesFetch(run, k, j, venue)
  {
    hide Step, Started, LoadFires;
    InFlightStep(run, i, venue);
    InFlightStep(run, j, venue);
    k := i + 1;
    while k < j && !LoadFires(run, k)
      invariant i < k <= j
      invariant venue in run.states[k].inFlight
    {
      InFlightStep(run, k, venue);
      k := k + 1;
    }
  }

  lemma {:induction false} StartedAgain(run: Run, k: nat, j: nat, venue: Venue) returns (i: nat, again: nat)
    requires IsRun(run) && LosesFetch(run, k, j, venue)
    ensures i < k && Overlaps(run, i, again, venue)
  {
    hide Step, Started, LoadFires;
    i := InFlightSince(run, k, venue);
    forall m: nat | i < m < k ensures run.events[m] != Complete(venue) {
      InFlightStep(run, m, venue);
    }
    again := k + 1;
    LoadForgets(run, k, venue);
    while run.events[again] != Begin(venue)
      invariant k < again <= j && venue !in run.states[again].inFlight
      decreases j - again
    {
      InFlightStep(run, again, venue);
      again := again + 1;
    }
    InFlightStep(run, again, venue);
  }

  lemma LoadForgets(run: Run, k: nat, venue: Venue)
    requires IsRun(run) && k < |run.events| && LoadFires(run, k)
    ensures venue !in run.states[k + 1].inFlight && run.events[k] != Complete(venue)
  {
    hide Step;
    InFlightStep(run, k, venue);
  }

  // So without such a load, one fetch completes before the next starts.
  lemma {:induction false} FetchesDoNotOverlap(run: Run, i: nat, j: nat, venue: Venue) returns (k: nat)
    requires IsRun(run) && i < j < |run.events| && Starts(run, i, venue) && Starts(run, j, venue)
    requires forall m: nat :: i < m < j ==> !(LoadFires(run, m) && venue in run.states[m].inFlight)
    ensures i < k < j && run.events[k] == Complete(venue)
  {
    hide Step, LoadFires, Starts, Started;
    if NoneCompletes(run, i, j, venue) {
      var lost := LostBetween(run, i, j, venue);
      assert false;
    } else {
      k :| i < k < j && run.events[k] == Complete(venue);
    }
  }

  // Starting with the cache off, and turning it on while the first fetch is
  // running, lets a second one start.
  lemma LoadingOverlapsFetches() returns (run: Run)
    ensures IsRun(run) && Overlaps(run, 0, 2, Bybit)
  {
    var empty := Store(false, map[], map[], {});
    var fetching := empty.(inFlight := {Bybit});
    var loaded := empty.(cacheEnabled := true);
    run := Run([Begin(Bybit), SetCache(true, Some(empty)), Begin(Bybit)],
               [empty, fetching, loaded, loaded.(inFlight := {Bybit})], [true, false, true]);
    assert IsLoadable(None) && run.states[0] == Started(false, None);
    assert {} + {Bybit} == {Bybit};
    assert Steps(run, 0) && Steps(run, 1) && Steps(run, 2);
  }

  // An ingest lowers the stamp of a venue exactly when it is a network result
  // that holds something and is dated before it. A cached seed never does.
  lemma IngestLowersStamp(m: Store, venue: Venue, entries: Entries, source: Source, at: Venue)
    ensures NotOlder(AtVenue(Ingested(m, venue, entries, source), at).stamp, AtVenue(m, at).stamp)
       <==> !(source.Fresh? && entries != map[] && at == venue && venue in m.lastUpdated && source.now < m.lastUpdated[venue])
  {
    hide VenueOfTicker;
  }

  // A network result dated before what the venue already has.
  predicate Predates(m: Store, event: Event, venue: Venue) {
    && event.Ingest? && event.venue == venue && event.source.Fresh? && event.entries != map[]
    && venue in m.lastUpdated && event.source.now < m.lastUpdated[venue]
  }

  lemma StepNeverGoesBack(m: Store, event: Event, venue: Venue)
    requires !Predates(m, event, venue)
    ensures NotOlder(StampOf(Step(m, event).0.lastUpdated, venue), StampOf(m.lastUpdated, venue))
  {
    if event.Ingest? {
      IngestLowersStamp(m, event.venue, event.entries, event.source, venue);
    }
  }

  // Seeds, failures and loading the cache never lower a stamp, however long the run.
  lemma {:induction false} StampsNeverGoBack(run: Run, i: nat, j: nat, venue: Venue)
    requires IsRun(run) && i <= j <= |run.events|
    requires forall k: nat :: i <= k < j ==> !Predates(run.states[k], run.events[k], venue)
    ensures NotOlder(StampOf(run.states[j].lastUpdated, venue), StampOf(run.states[i].lastUpdated, venue))
    decreases j
  {
    hide Step, StampOf;
    if i < j {
      StampsNeverGoBack(run, i, j - 1, venue);
      assert Steps(run, j - 1);
      StepNeverGoesBack(run.states[j - 1], run.events[j - 1], venue);
    }
  }

  predicate AllAt(entries: Entries, venue: Venue) { forall t :: t in entries ==> VenueOfTicker(t) == venue }

  predicate KeysMatch(entries: Entries) {
    forall t :: t in entries && entries[t].Some? ==> entries[t].value.ticker == t
  }

  // A stamp exactly where there are entries, each under its own ticker.
  ghost predicate WellKept(m: Store) {
    KeysMatch(m.tickers) && forall venue :: AtVenue(m, venue).stamp.Some? <==> AtVenue(m, venue).entries != map[]
  }

  ghost predicate Trusted(event: Event) {
    match event
    case Ingest(venue, entries, _) => AllAt(entries, venue) && KeysMatch(entries)
    case SetCache(_, loaded) => loaded.Some? ==> WellKept(loaded.value)
    case _ => true
  }

  lemma IngestIsPerVenue(m: Store, venue: Venue, entries: Entries, source: Source, at: Venue)
    requires AllAt(entries, venue)
    ensures AtVenue(Ingested(m, venue, entries, source), at)
         == if at == venue && entries != map[] && Applies(source, StampOf(m.lastUpdated, venue))
            then VenueView(Some(Time(source)), entries) else AtVenue(m, at)
  {
    hide VenueOfTicker;
    var next := Ingested(m, venue, entries, source);
    if entries != map[] && Applies(source, StampOf(m.lastUpdated, venue)) {
      assert EntriesAt(next.tickers, at) == if at == venue then entries else EntriesAt(m.tickers, at);
    }
  }

  // When a result is taken, whatever it was dated before.
  predicate IsTaken(m: Store, venue: Venue, entries: Entries, source: Source) {
    && entries != map[]
    && (source.Fresh? || venue !in m.lastUpdated || source.fetchedAt >= m.lastUpdated[venue])
  }

  // A result that is taken replaces the entries of its venue and its stamp;
  // nothing else changes, and nothing at all when it is not taken.
  lemma IngestIsExact(m: Store, venue: Venue, entries: Entries, source: Source, t: Ticker, at: Venue)
    ensures var next := Ingested(m, venue, entries, source);
            && next.cacheEnabled == m.cacheEnabled && next.inFlight == m.inFlight
            && (!IsTaken(m, venue, entries, source) ==> next == m)
            && (IsTaken(m, venue, entries, source) ==>
                  && Lookup(next.tickers, t) == (if t in entries then Some(entries[t])
                                                 else if VenueOfTicker(t) == venue then None
                                                 else Lookup(m.tickers, t))
                  && StampOf(next.lastUpdated, at) == (if at != venue then StampOf(m.lastUpdated, at)
                                                       else if source.Fresh? then Some(source.now)
                                                       else Some(source.fetchedAt)))
  {
    hide VenueOfTicker;
  }

  ghost predicate Takes(run: Run, i: nat, venue: Venue)
    requires IsRun(run) && i < |run.events|
  {
    && run.events[i].Ingest? && run.events[i].venue == venue
    && IsTaken(run.states[i], venue, run.events[i].entries, run.events[i].source)
  }

  // Event `i` is the last result of the venue that was taken before `n`.
  ghost predicate LastTaken(run: Run, i: nat, n: nat, venue: Venue)
    requires IsRun(run) && n <= |run.events|
  {
    i < n && Takes(run, i, venue) && forall k: nat :: i < k < n ==> !Takes(run, k, venue)
  }

  ghost predicate FiledByVenue(run: Run)
    requires IsRun(run)
  {
    forall i: nat :: i < |run.events| && run.events[i].Ingest? ==> AllAt(run.events[i].entries, run.events[i].venue)
  }

  // In every run a venue holds the last result that was taken for it, whole.
  lemma {:induction false} VenueHoldsLastTaken(run: Run, i: nat, n: nat, venue: Venue)
    requires IsRun(run) && FiledByVenue(run) && n <= |run.events| && LastTaken(run, i, n, venue)
    ensures AtVenue(run.states[n], venue) == VenueView(Some(Time(run.events[i].source)), run.events[i].entries)
    decreases n
  {
    hide VenueOfTicker, AtVenue, Step, IsTaken, AllAt;
    var last := n - 1;
    assert Steps(run, last);
    StepAtVenue(run.states[last], run.events[last], venue);
    if i < last {
      VenueHoldsLastTaken(run, i, last, venue);
      assert !Takes(run, last, venue);
      HoldsSomething(run.states[last], venue);
    }
  }

  lemma HoldsSomething(m: Store, venue: Venue)
    ensures AtVenue(m, venue).stamp.Some? ==> !IsEmpty(m)
  {
    hide VenueOfTicker;
  }

  // One step at a venue, unless it loads the cache.
  lemma StepAtVenue(m: Store, event: Event, venue: Venue)
    requires event.Ingest? ==> AllAt(event.entries, event.venue)
    ensures event.Ingest? && event.venue == venue && IsTaken(m, venue, event.entries, event.source) ==>
              AtVenue(Step(m, event).0, venue) == VenueView(Some(Time(event.source)), event.entries)
    ensures event.Ingest? && !(event.venue == venue && IsTaken(m, venue, event.entries, event.source)) ==>
              AtVenue(Step(m, event).0, venue) == AtVenue(m, venue)
    ensures !event.Ingest? && (event.SetCache? ==> !IsEmpty(m)) ==> AtVenue(Step(m, event).0, venue) == AtVenue(m, venue)
  {
    hide VenueOfTicker, AllAt, EntriesAt, Ingested;
    if event.Ingest? {
      IngestIsPerVenue(m, event.venue, event.entries, event.source, venue);
    }
  }

  // So a result is taken exactly when it holds something and is fresh, or is
  // not dated before the last one that was taken.
  lemma {:induction false} TakenInOrder(run: Run, i: nat, n: nat, venue: Venue)
    requires IsRun(run) && FiledByVenue(run) && n < |run.events| && LastTaken(run, i, n, venue)
    requires run.events[n].Ingest? && run.events[n].venue == venue
    ensures Takes(run, n, venue)
       <==> (&& run.events[n].entries != map[]
             && (run.events[n].source.Fresh? || run.events[n].source.fetchedAt >= Time(run.events[i].source)))
  {
    hide VenueOfTicker, EntriesAt;
    VenueHoldsLastTaken(run, i, n, venue);
  }

  lemma StepKeepsWell(m: Store, event: Event)
    requires WellKept(m) && Trusted(event)
    ensures WellKept(Step(m, event).0)
  {
    hide VenueOfTicker, AtVenue, Merged, Ingested;
    KeysStayMatched(m, event);
    var next := Step(m, event).0;
    forall venue ensures AtVenue(next, venue).stamp.Some? <==> AtVenue(next, venue).entries != map[] {
      match event
      case Ingest(v, entries, source) => IngestIsPerVenue(m, v, entries, source, venue);
      case SetCache(_, loaded) =>
        var source := if next.tickers == m.tickers && next.lastUpdated == m.lastUpdated then m else loaded.value;
        assert AtVenue(source, venue).stamp.Some? <==> AtVenue(source, venue).entries != map[];
        ViewsAgree(source, next, venue);
      case _ => ViewsAgree(m, next, venue);
    }
  }

  lemma KeysStayMatched(m: Store, event: Event)
    requires KeysMatch(m.tickers)
    requires event.Ingest? ==> KeysMatch(event.entries)
    requires event.SetCache? && event.loaded.Some? ==> KeysMatch(event.loaded.value.tickers)
    ensures KeysMatch(Step(m, event).0.tickers)
  {
    hide VenueOfTicker, StampOf;
  }

  lemma EmptyIsWellKept(m: Store)
    requires IsEmpty(m)
    ensures WellKept(m)
  {
    hide VenueOfTicker;
  }

  // Whatever results arrive, a store that starts out empty, or loaded from a
  // file that was saved well, keeps a stamp exactly where it has entries.
  lemma {:induction false} RunKeepsWell(run: Run, n: nat)
    requires IsRun(run) && n <= |run.events| && (IsEmpty(run.states[0]) || WellKept(run.states[0]))
    requires forall i: nat :: i < |run.events| ==> Trusted(run.events[i])
    ensures WellKept(run.states[n])
  {
    hide VenueOfTicker;
    hide Step;
    if n > 0 {
      RunKeepsWell(run, n - 1);
      assert Steps(run, n - 1);
      StepKeepsWell(run.states[n - 1], run.events[n - 1]);
    } else if IsEmpty(run.states[0]) {
      EmptyIsWellKept(run.states[0]);
    }
  }

  // ---------------------------------------------------------------------
  // The cache file
  // ---------------------------------------------------------------------

  datatype VenueFile = VenueFile(lastUpdated: int, tickers: map<Ticker, Option<Details>>)

  type CacheFile = map<Venue, VenueFile>

  const DEFAULT_TIME: int := 0

  function Kept(info: Option<TickerInfo>): Option<Details> {
    if info.Some? then Some(info.value.details) else None
  }

  function Restored(t: Ticker, info: Option<Details>): Option<TickerInfo> {
    if info.Some? then Some(TickerInfo(t, info.value)) else None
  }

  function KeptAt(entries: Entries, venue: Venue): map<Ticker, Option<Details>> {
    map t | t in entries && VenueOfTicker(t) == venue :: Kept(entries[t])
  }

  function StampOrDefault(stamps: map<Venue, int>, venue: Venue): int {
    if venue in stamps then stamps[venue] else DEFAULT_TIME
  }

  // The file of a store: the venues that have tickers, each with its own.
  ghost predicate IsFileOf(file: CacheFile, entries: Entries, stamps: map<Venue, int>) {
    forall venue :: PartFits(file, entries, stamps, venue)
  }

  ghost predicate PartFits(file: CacheFile, entries: Entries, stamps: map<Venue, int>, venue: Venue) {
    && (venue in file <==> KeptAt(entries, venue) != map[])
    && (venue in file ==> file[venue] == VenueFile(StampOrDefault(stamps, venue), KeptAt(entries, venue)))
  }

  // Tickers are visited in some order.
  method Serialize(m: Store) returns (file: CacheFile)
    ensures IsFileOf(file, m.tickers, m.lastUpdated)
  {
    hide VenueOfTicker;
    file := map[];
    ghost var seen: Entries := map[];
    var pending := m.tickers.Keys;
    while pending != {}
      invariant pending + seen.Keys == m.tickers.Keys && pending !! seen.Keys
      invariant forall t :: t in seen ==> seen[t] == m.tickers[t]
      invariant IsFileOf(file, seen, m.lastUpdated)
    {
      var t :| t in pending;
      pending := pending - {t};
      var venue := VenueOfTicker(t);
      var part := if venue in file then file[venue]
                  else VenueFile(StampOrDefault(m.lastUpdated, venue), map[]);
      ghost var before := file;
      file := file[venue := part.(tickers := part.tickers[t := Kept(m.tickers[t])])];
      FileGrows(before, file, seen, m.lastUpdated, t, m.tickers[t]);
      seen := seen[t := m.tickers[t]];
    }
    assert seen == m.tickers;
  }

  lemma KeptGrows(seen: Entries, t: Ticker, info: Option<TickerInfo>, v: Venue)
    requires t !in seen
    ensures KeptAt(seen[t := info], v)
         == if v == VenueOfTicker(t) then KeptAt(seen, v)[t := Kept(info)] else KeptAt(seen, v)
  {
    hide VenueOfTicker, Kept;
  }

  lemma FileGrows(before: CacheFile, file: CacheFile, seen: Entries, stamps: map<Venue, int>, t: Ticker, info: Option<TickerInfo>)
    requires IsFileOf(before, seen, stamps) && t !in seen
    requires var venue := VenueOfTicker(t);
             var part := if venue in before then before[venue] else VenueFile(StampOrDefault(stamps, venue), map[]);
             file == before[venue := part.(tickers := part.tickers[t := Kept(info)])]
    ensures IsFileOf(file, seen[t := info], stamps)
  {
    hide VenueOfTicker, Kept, KeptAt, StampOrDefault;
    var more := seen[t := info];
    forall v ensures PartFits(file, more, stamps, v) {
      KeptGrows(seen, t, info, v);
      assert PartFits(before, seen, stamps, v);
      assert KeptAt(seen, v)[t := Kept(info)] != map[] by {
        assert t in KeptAt(seen, v)[t := Kept(info)];
      }
    }
  }

  ghost predicate Lists(file: CacheFile, venue: Venue, t: Ticker) { venue in file && t in file[venue].tickers }

  // Each ticker comes from a part of the file that lists it. A ticker listed
  // by two parts comes from either, as parts are visited in some order.
  ghost predicate EntryLoads(file: CacheFile, entries: Entries, t: Ticker) {
    if t in entries
    then exists venue :: Lists(file, venue, t) && entries[t] == Restored(t, file[venue].tickers[t])
    else forall venue :: !Lists(file, venue, t)
  }

  ghost predicate IsLoaded(file: CacheFile, m: Store) {
    && m.lastUpdated == (map venue | venue in file :: file[venue].lastUpdated)
    && forall t :: EntryLoads(file, m.tickers, t)
  }

  method Deserialize(file: CacheFile) returns (m: Store)
    ensures IsLoaded(file, m) && !m.cacheEnabled && m.inFlight == {}
  {
    hide VenueOfTicker;
    m := Store(false, map[], map[], {});
    ghost var seen: CacheFile := map[];
    var pending := file.Keys;
    while pending != {}
      invariant pending + seen.Keys == file.Keys && pending !! seen.Keys
      invariant forall venue :: venue in seen ==> seen[venue] == file[venue]
      invariant IsLoaded(seen, m) && !m.cacheEnabled && m.inFlight == {}
    {
      var venue :| venue in pending;
      pending := pending - {venue};
      var tickers := InsertAll(m.tickers, RestoredAll(file[venue].tickers));
      ghost var before := m;
      m := m.(lastUpdated := m.lastUpdated[venue := file[venue].lastUpdated], tickers := tickers);
      LoadGrows(seen, before, venue, file[venue], m);
      seen := seen[venue := file[venue]];
    }
    assert seen == file;
  }

  function RestoredAll(tickers: map<Ticker, Option<Details>>): Entries {
    map t | t in tickers :: Restored(t, tickers[t])
  }

  lemma EntryStillLoads(seen: CacheFile, before: Entries, venue: Venue, part: VenueFile, t: Ticker)
    requires EntryLoads(seen, before, t) && venue !in seen
    ensures EntryLoads(seen[venue := part], before + RestoredAll(part.tickers), t)
  {
    var (file, entries) := (seen[venue := part], before + RestoredAll(part.tickers));
    assert Lists(file, venue, t) <==> t in part.tickers;
    assert forall v :: v != venue ==> (Lists(file, v, t) <==> Lists(seen, v, t));
    if t !in part.tickers && t in before {
      var v :| Lists(seen, v, t) && before[t] == Restored(t, seen[v].tickers[t]);
      assert Lists(file, v, t) && entries[t] == Restored(t, file[v].tickers[t]);
    } else if t in part.tickers {
      assert Lists(file, venue, t) && entries[t] == Restored(t, file[venue].tickers[t]);
    }
  }

  lemma LoadGrows(seen: CacheFile, before: Store, venue: Venue, part: VenueFile, m: Store)
    requires IsLoaded(seen, before) && venue !in seen
    requires m == before.(lastUpdated := before.lastUpdated[venue := part.lastUpdated],
                          tickers := before.tickers + RestoredAll(part.tickers))
    ensures IsLoaded(seen[venue := part], m)
  {
    hide EntryLoads, RestoredAll, Restored;
    var file := seen[venue := part];
    forall t ensures EntryLoads(file, m.tickers, t) {
      EntryStillLoads(seen, before.tickers, venue, part, t);
    }
  }

  // What an entry of a saved store is loaded as.
  lemma LoadedEntry(file: CacheFile, m: Store, r: Store, t: Ticker)
    requires IsFileOf(file, m.tickers, m.lastUpdated) && EntryLoads(file, r.tickers, t)
    ensures Lookup(r.tickers, t) == if t in m.tickers then Some(Restored(t, Kept(m.tickers[t]))) else None
  {
    hide VenueOfTicker, Restored, Kept;
    forall venue ensures Lists(file, venue, t) <==> (t in m.tickers && VenueOfTicker(t) == venue)
                 ensures Lists(file, venue, t) ==> file[venue].tickers[t] == Kept(m.tickers[t]) {
      assert PartFits(file, m.tickers, m.lastUpdated, venue);
      assert t in KeptAt(m.tickers, venue) <==> (t in m.tickers && VenueOfTicker(t) == venue);
    }
    assert t in m.tickers ==> Lists(file, VenueOfTicker(t), t);
  }

  lemma LoadedStamp(file: CacheFile, m: Store, r: Store, venue: Venue)
    requires IsFileOf(file, m.tickers, m.lastUpdated) && IsLoaded(file, r)
    ensures StampOf(r.lastUpdated, venue)
         == if AtVenue(m, venue).entries == map[] then None else Some(StampOrDefault(m.lastUpdated, venue))
  {
    hide VenueOfTicker, EntryLoads;
    assert PartFits(file, m.tickers, m.lastUpdated, venue);
    KeptNothing(m.tickers, venue);
  }

  lemma KeptNothing(entries: Entries, venue: Venue)
    ensures KeptAt(entries, venue) == map[] <==> EntriesAt(entries, venue) == map[]
  {
    hide VenueOfTicker, Kept;
    assert KeptAt(entries, venue).Keys == EntriesAt(entries, venue).Keys;
    assert KeptAt(entries, venue) == map[] <==> KeptAt(entries, venue).Keys == {};
    assert EntriesAt(entries, venue) == map[] <==> EntriesAt(entries, venue).Keys == {};
  }

  // Saving and loading gives back tickers and stamps exactly when every value
  // is under its own ticker and the stamped venues are those with entries.
  lemma FileRoundTrip(m: Store, file: CacheFile, r: Store)
    requires IsFileOf(file, m.tickers, m.lastUpdated) && IsLoaded(file, r)
    ensures (r.tickers == m.tickers && r.lastUpdated == m.lastUpdated) <==> WellKept(m)
  {
    hide IsFileOf, EntryLoads, Restored, Kept, Lookup, KeysMatch, AtVenue, VenueOfTicker;
    forall t ensures Lookup(r.tickers, t) == if t in m.tickers then Some(Restored(t, Kept(m.tickers[t]))) else None {
      LoadedEntry(file, m, r, t);
    }
    EntriesRestored(m.tickers, r.tickers);
    forall venue ensures StampOf(r.lastUpdated, venue) == StampOf(m.lastUpdated, venue)
                    <==> (AtVenue(m, venue).stamp.Some? <==> AtVenue(m, venue).entries != map[]) {
      LoadedStamp(file, m, r, venue);
      StampAt(m, venue);
    }
    if forall venue :: StampOf(r.lastUpdated, venue) == StampOf(m.lastUpdated, venue) {
      SameStamps(r.lastUpdated, m.lastUpdated);
    }
  }

  // Entries without a stamp come back with one, and a stamp without entries
  // does not come back.
  lemma FileInventsStamp(t: Ticker) returns (m: Store, file: CacheFile, r: Store)
    ensures IsFileOf(file, m.tickers, m.lastUpdated) && IsLoaded(file, r)
    ensures m.lastUpdated == map[] && r.lastUpdated == map[VenueOfTicker(t) := DEFAULT_TIME]
  {
    hide VenueOfTicker;
    var venue := VenueOfTicker(t);
    m := Store(true, map[t := None], map[], {});
    file := map[venue := VenueFile(DEFAULT_TIME, map[t := None])];
    r := Store(false, map[t := None], map[venue := DEFAULT_TIME], {});
    forall v ensures PartFits(file, m.tickers, m.lastUpdated, v) {
      assert KeptAt(m.tickers, v) == if v == venue then map[t := None] else map[];
    }
    forall other ensures EntryLoads(file, r.tickers, other) {
      assert Lists(file, venue, t);
    }
  }

  lemma FileLosesStamp(venue: Venue) returns (m: Store, file: CacheFile, r: Store)
    ensures IsFileOf(file, m.tickers, m.lastUpdated) && IsLoaded(file, r)
    ensures m.lastUpdated == map[venue := 1] && r.lastUpdated == map[]
  {
    m, file, r := Store(true, map[], map[venue := 1], {}), map[], Store(false, map[], map[], {});
  }

  lemma StampAt(m: Store, venue: Venue)
    ensures AtVenue(m, venue).stamp == StampOf(m.lastUpdated, venue)
  {
  }

  lemma EntriesRestored(entries: Entries, loaded: Entries)
    requires forall t :: Lookup(loaded, t) == if t in entries then Some(Restored(t, Kept(entries[t]))) else None
    ensures loaded == entries <==> KeysMatch(entries)
  {
    forall t ensures Lookup(loaded, t) == Lookup(entries, t)
                <==> (t in entries && entries[t].Some? ==> entries[t].value.ticker == t) {
    }
    if KeysMatch(entries) {
      SameLookups(loaded, entries);
    }
  }

  lemma MergeKeepsWell(a: Store, b: Store)
    requires WellKept(a) && WellKept(b)
    ensures WellKept(Merged(a, b))
  {
    hide VenueOfTicker, AtVenue, Merged;
    MergedKeysMatch(a, b);
    forall venue ensures AtVenue(Merged(a, b), venue).stamp.Some? <==> AtVenue(Merged(a, b), venue).entries != map[] {
      MergeIsPerVenue(a, b, venue);
      assert AtVenue(a, venue).stamp.Some? <==> AtVenue(a, venue).entries != map[];
      assert AtVenue(b, venue).stamp.Some? <==> AtVenue(b, venue).entries != map[];
    }
  }

  lemma MergedKeysMatch(a: Store, b: Store)
    requires KeysMatch(a.tickers) && KeysMatch(b.tickers)
    ensures KeysMatch(Merged(a, b).tickers)
  {
    hide VenueOfTicker, StampOf;
  }

  // What a run saves, merged into the file of an earlier session, loads as it
  // was saved, and is fit to start or go on with.
  lemma SavedSnapshotLoads(run: Run, n: nat, disk: Option<Store>, file: CacheFile, r: Store)
    requires IsRun(run) && n <= |run.events| && (IsEmpty(run.states[0]) || WellKept(run.states[0]))
    requires forall i: nat :: i < |run.events| ==> Trusted(run.events[i])
    requires disk.Some? ==> WellKept(disk.value)
    requires var snapshot := if disk.Some? then Merged(run.states[n], disk.value) else run.states[n];
             IsFileOf(file, snapshot.tickers, snapshot.lastUpdated) && IsLoaded(file, r)
    ensures var snapshot := if disk.Some? then Merged(run.states[n], disk.value) else run.states[n];
            r.tickers == snapshot.tickers && r.lastUpdated == snapshot.lastUpdated
    ensures WellKept(r)
  {
    hide WellKept, IsFileOf, IsLoaded, Started, Step, Merged;
    var snapshot := if disk.Some? then Merged(run.states[n], disk.value) else run.states[n];
    RunKeepsWell(run, n);
    if disk.Some? {
      MergeKeepsWell(run.states[n], disk.value);
    }
    FileRoundTrip(snapshot, file, r);
    SameDataIsKept(snapshot, r);
  }

  lemma SameDataIsKept(a: Store, b: Store)
    requires WellKept(a) && a.tickers == b.tickers && a.lastUpdated == b.lastUpdated
    ensures WellKept(b)
  {
    hide VenueOfTicker, AtVenue, KeysMatch;
    forall venue ensures AtVenue(b, venue) == AtVenue(a, venue) {
      ViewsAgree(a, b, venue);
    }
  }
}
