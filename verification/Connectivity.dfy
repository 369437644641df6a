/**
 Aggregate connectivity of the market-data streams (src/market_service.rs).
 Clock readings are milliseconds and never go back.
 */
module Connectivity {
  import opened Basics

  const OFFLINE_GRACE: nat := 1500

  datatype Phase = Connecting | Online | Offline

  datatype Transition = Unchanged | WentOffline | Restored

  datatype Event<S> =
    | SyncExpected(streams: seq<S>, now: nat)
    | RecordConnected(streams: seq<S>, now: nat)
    | RecordDisconnected(streams: seq<S>, reason: string, now: nat)
    | Tick(now: nat)

  datatype Tracker<S> = Tracker(expected: set<S>, connected: set<S>, phase: Phase, incompleteSince: Option<nat>,
                                lastReason: Option<string>, hadOnlineDisconnect: bool)

  function Members<S>(streams: seq<S>): set<S> { set s | s in streams }

  predicate Complete<S>(t: Tracker<S>) { t.expected == {} || t.expected <= t.connected }

  function Evaluate<S>(t: Tracker<S>, now: nat): (Tracker<S>, Transition) {
    if Complete(t) then
      var online := t.(incompleteSince := None, phase := Online);
      if t.phase == Offline || t.hadOnlineDisconnect
      then (online.(hadOnlineDisconnect := false, lastReason := None), Restored)
      else (online, Unchanged)
    else
      var since := if t.incompleteSince.Some? then t.incompleteSince.value else now;
      var waiting := t.(incompleteSince := Some(since));
      if t.phase != Offline && now >= since && now - since >= OFFLINE_GRACE then (waiting.(phase := Offline), WentOffline)
      else if t.phase != Offline then (waiting.(phase := Connecting), Unchanged)
      else (waiting, Unchanged)
  }

  // What an event changes before the tracker evaluates itself.
  function Record<S>(t: Tracker<S>, event: Event<S>): Tracker<S> {
    match event
    case SyncExpected(streams, _) => t.(expected := Members(streams), connected := t.connected * Members(streams))
    case RecordConnected(streams, _) => t.(expected := t.expected + Members(streams), connected := t.connected + Members(streams))
    case RecordDisconnected(streams, reason, _) =>
      t.(hadOnlineDisconnect := t.hadOnlineDisconnect || t.phase == Online,
         expected := t.expected + Members(streams),
         connected := t.connected - Members(streams),
         lastReason := Some(reason))
    case Tick(_) => t
  }

  function Step<S>(t: Tracker<S>, event: Event<S>): (Tracker<S>, Transition) {
    Evaluate(Record(t, event), event.now)
  }

  class MarketConnectivity<S(==)> {
    var expected: set<S>
    var connected: set<S>
    var phase: Phase
    var incompleteSince: Option<nat>
    var lastReason: Option<string>
    var hadOnlineDisconnect: bool

    function View(): Tracker<S>
      reads this
    {
      Tracker(expected, connected, phase, incompleteSince, lastReason, hadOnlineDisconnect)
    }

    constructor ()
      ensures View() == Fresh<S>()
    {
      expected, connected := {}, {};
      phase := Connecting;
      incompleteSince, lastReason := None, None;
      hadOnlineDisconnect := false;
    }

    method SyncExpected(streams: seq<S>, now: nat) returns (r: Transition)
      modifies this
      ensures (View(), r) == Step(old(View()), Event.SyncExpected(streams, now))
    {
      expected := set s | s in streams;
      connected := set s | s in connected && s in expected;
      assert connected == old(connected) * Members(streams);
      r := EvaluateNow(now);
    }

    method RecordConnected(streams: seq<S>, now: nat) returns (r: Transition)
      modifies this
      ensures (View(), r) == Step(old(View()), Event.RecordConnected(streams, now))
    {
      expected := expected + set s | s in streams;
      connected := connected + set s | s in streams;
      r := EvaluateNow(now);
    }

    method RecordDisconnected(streams: seq<S>, reason: string, now: nat) returns (r: Transition)
      modifies this
      ensures (View(), r) == Step(old(View()), Event.RecordDisconnected(streams, reason, now))
    {
      if phase == Online {
        hadOnlineDisconnect := true;
      }
      expected := expected + set s | s in streams;
      for i := 0 to |streams|
        invariant connected == old(connected) - Members(streams[..i])
        invariant expected == old(expected) + Members(streams) && phase == old(phase)
        invariant incompleteSince == old(incompleteSince) && lastReason == old(lastReason)
        invariant hadOnlineDisconnect == (old(hadOnlineDisconnect) || old(phase) == Online)
      {
        assert streams[..i + 1] == streams[..i] + [streams[i]];
        connected := connected - {streams[i]};
      }
      assert streams[..|streams|] == streams;
      lastReason := Some(reason);
      r := EvaluateNow(now);
    }

    method Tick(now: nat) returns (r: Transition)
      modifies this
      ensures (View(), r) == Step(old(View()), Event.Tick(now))
    {
      r := EvaluateNow(now);
    }

    method EvaluateNow(now: nat) returns (r: Transition)
      modifies this
      ensures (View(), r) == Evaluate(old(View()), now)
    {
      var complete := expected == {} || expected <= connected;
      if complete {
        incompleteSince := None;
        var restored := phase == Offline || hadOnlineDisconnect;
        phase := Online;
        if restored {
          hadOnlineDisconnect := false;
          lastReason := None;
          r := Restored;
        } else {
          r := Unchanged;
        }
      } else {
        if incompleteSince == None {
          incompleteSince := Some(now);
        }
        var since := incompleteSince.value;
        var graceElapsed := now >= since && now - since >= OFFLINE_GRACE;
        if phase != Offline && graceElapsed {
          phase := Offline;
          r := WentOffline;
        } else {
          if phase != Offline {
            phase := Connecting;
          }
          r := Unchanged;
        }
      }
    }
  }

  function Fresh<S>(): Tracker<S> { Tracker({}, {}, Connecting, None, None, false) }

  // ---------------------------------------------------------------------
  // Runs
  // ---------------------------------------------------------------------

  // A run: its events, the states around them, and the transition each emits.
  datatype Run<S> = Run(events: seq<Event<S>>, states: seq<Tracker<S>>, emitted: seq<Transition>)

  ghost predicate IsRun<S>(run: Run<S>) {
    && |run.states| == |run.events| + 1 && |run.emitted| == |run.events|
    && run.states[0] == Fresh()
    && (forall i: nat :: i < |run.events| ==> Steps(run, i))
    && (forall i: nat, j: nat :: i < j < |run.events| ==> run.events[i].now <= run.events[j].now)
  }

  ghost predicate Steps<S>(run: Run<S>, i: nat)
    requires i < |run.events| == |run.emitted| && |run.states| == |run.events| + 1
  {
    (run.states[i + 1], run.emitted[i]) == Step(run.states[i], run.events[i])
  }

  // ---------------------------------------------------------------------
  // The streams, from the events alone
  // ---------------------------------------------------------------------

  predicate Names<S(==)>(event: Event<S>, s: S) {
    match event
    case SyncExpected(streams, _) => s in streams
    case RecordConnected(streams, _) => s in streams
    case RecordDisconnected(streams, _, _) => s in streams
    case Tick(_) => false
  }

  // A sync that does not list the stream.
  predicate Drops<S(==)>(event: Event<S>, s: S) { event.SyncExpected? && !Names(event, s) }

  predicate Connects<S(==)>(event: Event<S>, s: S) { event.RecordConnected? && Names(event, s) }

  predicate Disconnects<S(==)>(event: Event<S>, s: S) { event.RecordDisconnected? && Names(event, s) }

  // Some event before `n` named the stream, and no sync since left it out.
  ghost predicate Required<S>(events: seq<Event<S>>, n: nat, s: S)
    requires n <= |events|
  {
    exists i: nat :: i < n && Names(events[i], s) && forall j: nat :: i < j < n ==> !Drops(events[j], s)
  }

  // Some event before `n` connected it, and since then none disconnected it
  // and no sync left it out.
  ghost predicate Live<S>(events: seq<Event<S>>, n: nat, s: S)
    requires n <= |events|
  {
    exists i: nat :: i < n && Connects(events[i], s)
                     && forall j: nat :: i < j < n ==> !Drops(events[j], s) && !Disconnects(events[j], s)
  }

  // Every stream required before event `n` is live.
  ghost predicate AllLive<S(!new)>(events: seq<Event<S>>, n: nat)
    requires n <= |events|
  {
    forall s :: Required(events, n, s) ==> Live(events, n, s)
  }

  ghost predicate CompleteAfter<S(!new)>(events: seq<Event<S>>, i: nat)
    requires i < |events|
  {
    AllLive(events, i + 1)
  }

  // In every run the tracker expects the required streams, and has connected
  // the live ones.
  lemma {:induction false} StreamsFromEvents<S>(run: Run<S>, n: nat, s: S)
    requires IsRun(run) && n <= |run.events|
    ensures s in run.states[n].expected <==> Required(run.events, n, s)
    ensures s in run.states[n].connected <==> Live(run.events, n, s)
  {
    if n > 0 {
      var last := n - 1;
      StreamsFromEvents(run, last, s);
      assert Steps(run, last);
      RecordOne(run.states[last], run.events[last], s);
      RequiredStep(run.events, last, s);
      LiveStep(run.events, last, s);
    }
  }

  lemma RecordOne<S>(t: Tracker<S>, event: Event<S>, s: S)
    ensures var next := Step(t, event).0;
            && (s in next.expected <==> Names(event, s) || (s in t.expected && !Drops(event, s)))
            && (s in next.connected
                <==> Connects(event, s) || (s in t.connected && !Drops(event, s) && !Disconnects(event, s)))
  {
  }

  lemma RequiredStep<S>(events: seq<Event<S>>, last: nat, s: S)
    requires last < |events|
    ensures Required(events, last + 1, s)
       <==> Names(events[last], s) || (Required(events, last, s) && !Drops(events[last], s))
  {
    hide Drops;
    if Required(events, last, s) && !Drops(events[last], s) {
      var i: nat :| i < last && Names(events[i], s) && forall j: nat :: i < j < last ==> !Drops(events[j], s);
      assert i < last + 1 && forall j: nat :: i < j < last + 1 ==> !Drops(events[j], s);
    }
    if Names(events[last], s) {
      assert last < last + 1;
    }
  }

  lemma LiveStep<S>(events: seq<Event<S>>, last: nat, s: S)
    requires last < |events|
    ensures Live(events, last + 1, s)
       <==> Connects(events[last], s) || (Live(events, last, s) && !Drops(events[last], s) && !Disconnects(events[last], s))
  {
    hide Drops, Disconnects, Connects;
    if Live(events, last, s) && !Drops(events[last], s) && !Disconnects(events[last], s) {
      var i: nat :| i < last && Connects(events[i], s)
                    && forall j: nat :: i < j < last ==> !Drops(events[j], s) && !Disconnects(events[j], s);
      assert i < last + 1 && forall j: nat :: i < j < last + 1 ==> !Drops(events[j], s) && !Disconnects(events[j], s);
    }
    if Connects(events[last], s) {
      assert last < last + 1;
    }
  }

  // So it is complete exactly when every required stream is live.
  lemma {:induction false} CompleteFromEvents<S(!new)>(run: Run<S>, n: nat)
    requires IsRun(run) && n <= |run.events|
    ensures Complete(run.states[n]) <==> AllLive(run.events, n)
  {
    hide Required, Live, Steps;
    var t := run.states[n];
    forall s ensures s in t.expected <==> Required(run.events, n, s)
             ensures s in t.connected <==> Live(run.events, n, s)
    {
      StreamsFromEvents(run, n, s);
    }
    if t.expected != {} && Complete(t) {
      assert forall s :: s in t.expected ==> s in t.connected;
    }
  }

  // ---------------------------------------------------------------------
  // Outages and restorations
  // ---------------------------------------------------------------------

  // Steps `from`, ..., `to - 1` all leave some required stream missing.
  ghost predicate IncompleteThrough<S(!new)>(events: seq<Event<S>>, from: nat, to: nat)
    requires to <= |events|
  {
    forall i: nat :: from <= i < to ==> !CompleteAfter(events, i)
  }

  // Step `n` is in an unbroken stretch of incomplete steps, the first of them `start`.
  ghost predicate StretchFrom<S(!new)>(events: seq<Event<S>>, start: nat, n: nat)
    requires n < |events|
  {
    start <= n && IncompleteThrough(events, start, n + 1) && (start > 0 ==> CompleteAfter(events, start - 1))
  }

  // The first step 1500 ms or more after its stretch began.
  ghost predicate Outage<S(!new)>(events: seq<Event<S>>, n: nat)
    requires n < |events|
  {
    exists start: nat :: start < n && StretchFrom(events, start, n) && FirstOverdue(events, start, n)
  }

  ghost predicate FirstOverdue<S>(events: seq<Event<S>>, start: nat, n: nat)
    requires start < n < |events|
  {
    events[n - 1].now < events[start].now + OFFLINE_GRACE <= events[n].now
  }

  // What makes a later `Restored` due: an outage, or a disconnect recorded
  // while every required stream was live.
  ghost predicate Interrupted<S(!new)>(events: seq<Event<S>>, i: nat)
    requires i < |events|
  {
    Outage(events, i) || (events[i].RecordDisconnected? && i > 0 && CompleteAfter(events, i - 1))
  }

  lemma CompletenessIsKnown<S(!new)>(run: Run<S>)
    requires IsRun(run)
    ensures forall i: nat :: i < |run.events| ==> (CompleteAfter(run.events, i) <==> Complete(run.states[i + 1]))
  {
    hide Complete, AllLive, Steps;
    forall i: nat | i < |run.events| ensures CompleteAfter(run.events, i) <==> Complete(run.states[i + 1]) {
      CompleteFromEvents(run, i + 1);
    }
  }

  ghost predicate Consistent<S>(t: Tracker<S>) {
    && t.connected <= t.expected
    && (t.incompleteSince.Some? <==> !Complete(t))
    && (t.phase == Online ==> Complete(t))
  }

  // All that the theorems need to know about one step.
  lemma StepFacts<S>(t: Tracker<S>, event: Event<S>)
    requires Consistent(t)
    ensures var (next, emitted) := Step(t, event);
            && Consistent(next)
            && (next.phase == Online <==> Complete(next))
            && (!Complete(next) ==>
                  next.incompleteSince == Some(if t.incompleteSince.Some? then t.incompleteSince.value else event.now))
            && (emitted == WentOffline
                <==> (!Complete(next) && t.phase != Offline && next.incompleteSince.value + OFFLINE_GRACE <= event.now))
            && (emitted == Restored
                <==> (Complete(next) && (Owed(t) || (event.RecordDisconnected? && t.phase == Online))))
            && (Owed(next)
                <==> (!Complete(next) && (Owed(t) || emitted == WentOffline || (event.RecordDisconnected? && t.phase == Online))))
            && (next.phase == Offline <==> !Complete(next) && (t.phase == Offline || emitted == WentOffline))
            && (t.phase == Offline && emitted != Restored ==> next.phase == Offline)
  {
  }

  // Connected streams are always expected, the timer runs exactly while a
  // stream is missing, and online means that none is.
  lemma {:induction false} RunIsConsistent<S>(run: Run<S>, n: nat)
    requires IsRun(run) && n <= |run.events|
    ensures Consistent(run.states[n])
    ensures n > 0 ==> (run.states[n].phase == Online <==> Complete(run.states[n]))
  {
    if n > 0 {
      RunIsConsistent(run, n - 1);
      assert Steps(run, n - 1);
      hide Step;
      StepFacts(run.states[n - 1], run.events[n - 1]);
    }
  }

  // The timer holds the time of the first step of the current incomplete stretch.
  lemma {:induction false} TimerStartsStretch<S(!new)>(run: Run<S>, n: nat) returns (start: nat)
    requires IsRun(run) && n <= |run.events|
    requires run.states[n].incompleteSince.Some?
    ensures start < n && run.events[start].now == run.states[n].incompleteSince.value
    ensures StretchFrom(run.events, start, n - 1)
  {
    hide Step, Complete, CompleteAfter;
    FreshIsComplete<S>();
    CompletenessIsKnown(run);
    RunIsConsistent(run, n);
    var last := n - 1;
    RunIsConsistent(run, last);
    assert Steps(run, last);
    StepFacts(run.states[last], run.events[last]);
    if run.states[last].incompleteSince.Some? {
      start := TimerStartsStretch(run, last);
    } else {
      start := last;
    }
  }

  lemma FreshIsComplete<S>()
    ensures Complete(Fresh<S>()) && Consistent(Fresh<S>()) && !Owed(Fresh<S>())
  {
  }

  // The program is offline exactly while the timer is overdue.
  lemma {:induction false} OfflineIsOverdue<S>(run: Run<S>, n: nat)
    requires IsRun(run) && 0 < n <= |run.events|
    ensures run.states[n].phase == Offline
       <==> run.states[n].incompleteSince.Some? && run.states[n].incompleteSince.value + OFFLINE_GRACE <= run.events[n - 1].now
  {
    hide Step, Complete;
    var last := n - 1;
    RunIsConsistent(run, last);
    RunIsConsistent(run, n);
    assert Steps(run, last);
    StepFacts(run.states[last], run.events[last]);
    if last > 0 {
      OfflineIsOverdue(run, last);
      assert run.events[last - 1].now <= run.events[last].now;
    } else {
      FreshIsComplete<S>();
    }
  }

  lemma OneStretch<S(!new)>(events: seq<Event<S>>, a: nat, b: nat, n: nat)
    requires n < |events| && StretchFrom(events, a, n) && StretchFrom(events, b, n)
    ensures a == b
  {
    hide CompleteAfter;
  }

  // The program goes offline exactly at the first step of a stretch of
  // incomplete steps that is 1500 ms or more after the stretch began.
  lemma {:induction false} GoesOfflineAfterGrace<S(!new)>(run: Run<S>, n: nat)
    requires IsRun(run) && n < |run.events|
    ensures run.emitted[n] == WentOffline
       <==> Outage(run.events, n)
  {
    hide Step, Complete, CompleteAfter, StretchFrom;
    CompletenessIsKnown(run);
    RunIsConsistent(run, n);
    RunIsConsistent(run, n + 1);
    assert Steps(run, n);
    StepFacts(run.states[n], run.events[n]);
    if !Complete(run.states[n + 1]) {
      var start := TimerStartsStretch(run, n + 1);
      forall other: nat | other < n && StretchFrom(run.events, other, n) ensures other == start {
        OneStretch(run.events, other, start, n);
      }
      if n > 0 {
        OfflineIsOverdue(run, n);
        StretchBefore(run.events, start, n);
      } else {
        FreshIsComplete<S>();
      }
    } else {
      assert CompleteAfter(run.events, n);
      forall start: nat | start < n ensures !StretchFrom(run.events, start, n) {
        NoStretch(run.events, start, n);
      }
    }
  }

  lemma StretchBefore<S(!new)>(events: seq<Event<S>>, start: nat, n: nat)
    requires 0 < n < |events| && StretchFrom(events, start, n)
    ensures start < n <==> !CompleteAfter(events, n - 1)
  {
    hide CompleteAfter;
  }

  lemma NoStretch<S(!new)>(events: seq<Event<S>>, start: nat, n: nat)
    requires n < |events| && CompleteAfter(events, n)
    ensures !StretchFrom(events, start, n)
  {
    hide CompleteAfter;
  }

  // Online is a complete step, offline one in a stretch that began 1500 ms or
  // more before, and connecting any other incomplete one.
  lemma PhaseFromEvents<S(!new)>(run: Run<S>, i: nat)
    requires IsRun(run) && i < |run.events|
    ensures run.states[i + 1].phase == Online <==> CompleteAfter(run.events, i)
    ensures run.states[i + 1].phase == Offline
       <==> exists start: nat :: start <= i && StretchFrom(run.events, start, i) && run.events[start].now + OFFLINE_GRACE <= run.events[i].now
  {
    hide Step, Complete, CompleteAfter, StretchFrom;
    CompletenessIsKnown(run);
    RunIsConsistent(run, i + 1);
    OfflineIsOverdue(run, i + 1);
    if CompleteAfter(run.events, i) {
      forall start: nat | start <= i ensures !StretchFrom(run.events, start, i) {
        NoStretch(run.events, start, i);
      }
    } else {
      var start := TimerStartsStretch(run, i + 1);
      forall other: nat | other <= i && StretchFrom(run.events, other, i) ensures other == start {
        OneStretch(run.events, other, start, i);
      }
    }
  }

  // A restoration is owed exactly while an interruption has not been followed
  // by a complete step.
  ghost predicate Owed<S>(t: Tracker<S>) { t.phase == Offline || t.hadOnlineDisconnect }

  ghost predicate OpenInterruption<S(!new)>(events: seq<Event<S>>, i: nat, n: nat)
    requires n <= |events|
  {
    i < n && Interrupted(events, i) && IncompleteThrough(events, i, n)
  }

  lemma {:induction false} OwedIsOpenInterruption<S(!new)>(run: Run<S>, n: nat)
    requires IsRun(run) && n <= |run.events|
    ensures Owed(run.states[n]) <==> exists i: nat :: OpenInterruption(run.events, i, n)
  {
    hide Step, Complete, Owed, CompleteAfter, Outage;
    CompletenessIsKnown(run);
    if n == 0 {
      FreshIsComplete<S>();
    } else {
      var last := n - 1;
      OwedIsOpenInterruption(run, last);
      RunIsConsistent(run, last);
      assert Steps(run, last);
      StepFacts(run.states[last], run.events[last]);
      GoesOfflineAfterGrace(run, last);
      ExtendInterruption(run.events, last, n);
    }
  }

  lemma ExtendInterruption<S(!new)>(events: seq<Event<S>>, last: nat, n: nat)
    requires last < |events| && n == last + 1
    ensures (exists i: nat :: OpenInterruption(events, i, n))
       <==> (!CompleteAfter(events, last) && (Interrupted(events, last) || exists i: nat :: OpenInterruption(events, i, last)))
  {
    hide Interrupted, CompleteAfter;
    if i: nat :| OpenInterruption(events, i, n) {
      assert !CompleteAfter(events, last);
      assert i < last ==> OpenInterruption(events, i, last);
    }
    if !CompleteAfter(events, last) {
      if i: nat :| OpenInterruption(events, i, last) {
        assert OpenInterruption(events, i, n);
      }
      assert Interrupted(events, last) ==> OpenInterruption(events, last, n);
    }
  }

  // `Restored` is emitted exactly at the first complete step after going
  // offline, or after (or at) a disconnect recorded while online.
  lemma {:induction false} RestoredAtFirstCompleteStep<S(!new)>(run: Run<S>, n: nat)
    requires IsRun(run) && n < |run.events|
    ensures run.emitted[n] == Restored
       <==> (CompleteAfter(run.events, n)
             && exists i: nat :: i <= n && Interrupted(run.events, i) && IncompleteThrough(run.events, i, n))
  {
    hide Step, Complete, Owed, CompleteAfter, Outage;
    CompletenessIsKnown(run);
    OwedIsOpenInterruption(run, n);
    GoesOfflineAfterGrace(run, n);
    RunIsConsistent(run, n);
    assert Steps(run, n);
    StepFacts(run.states[n], run.events[n]);
    if i: nat :| OpenInterruption(run.events, i, n) {
      assert i <= n && Interrupted(run.events, i) && IncompleteThrough(run.events, i, n);
    }
    if Interrupted(run.events, n) {
      assert IncompleteThrough(run.events, n, n);
    }
    if i: nat :| i <= n && Interrupted(run.events, i) && IncompleteThrough(run.events, i, n) {
      assert i < n ==> OpenInterruption(run.events, i, n);
    }
  }

  // Between two times the program goes offline it is restored.
  lemma {:induction false} RestoredBetweenOutages<S>(run: Run<S>, i: nat, j: nat) returns (k: nat)
    requires IsRun(run) && i < j < |run.events|
    requires run.emitted[i] == WentOffline && run.emitted[j] == WentOffline
    ensures i < k < j && run.emitted[k] == Restored
  {
    hide Step, Complete;
    RunIsConsistent(run, i);
    assert Steps(run, i);
    StepFacts(run.states[i], run.events[i]);
    k := i + 1;
    while k < j && run.emitted[k] != Restored
      invariant i < k <= j
      invariant run.states[k].phase == Offline
    {
      RunIsConsistent(run, k);
      assert Steps(run, k);
      StepFacts(run.states[k], run.events[k]);
      k := k + 1;
    }
    if k == j {
      RunIsConsistent(run, j);
      assert Steps(run, j);
      StepFacts(run.states[j], run.events[j]);
    }
  }

  // The last disconnect before step `n`, with no restoration since.
  ghost predicate LatestReason<S>(run: Run<S>, i: nat, n: nat)
    requires IsRun(run) && n <= |run.events|
  {
    && i < n && run.events[i].RecordDisconnected?
    && (forall j: nat :: i < j < n ==> !run.events[j].RecordDisconnected?)
    && (forall j: nat :: i <= j < n ==> run.emitted[j] != Restored)
  }

  // The reason on show is the one of that disconnect.
  lemma {:induction false} ReasonIsLatest<S>(run: Run<S>, n: nat, i: nat)
    requires IsRun(run) && n <= |run.events|
    ensures LatestReason(run, i, n) ==> run.states[n].lastReason == Some(run.events[i].reason)
    ensures run.states[n].lastReason.Some? ==> exists k: nat :: LatestReason(run, k, n)
  {
    if n > 0 {
      var last := n - 1;
      ReasonIsLatest(run, last, i);
      assert Steps(run, last);
      ReasonStep(run.states[last], run.events[last]);
      hide Step, Steps;
      if run.states[n].lastReason.Some? {
        if run.events[last].RecordDisconnected? {
          assert LatestReason(run, last, n);
        } else {
          var k: nat :| LatestReason(run, k, last);
          assert LatestReason(run, k, n);
        }
      }
      if LatestReason(run, i, n) && i < last {
        assert LatestReason(run, i, last);
      }
    }
  }

  lemma ReasonStep<S>(t: Tracker<S>, event: Event<S>)
    ensures var (next, emitted) := Step(t, event);
            next.lastReason == if emitted == Restored then None
                               else if event.RecordDisconnected? then Some(event.reason)
                               else t.lastReason
  {
  }
}
