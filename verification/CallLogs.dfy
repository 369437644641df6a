/**
 Whole logs of calls to the `ta.*` builtins, interleaved over call sites
 (indicator-engine/src/intrinsic.rs): every result depends on the calls at
 its own site alone, and is what its builtin promises of them.
 */
module CallLogs {
  import opened Basics
  import opened Values
  import opened Collections
  import opened Windows
  import opened Intrinsics
  import Rsi

  ghost function StatesAfter(limit: nat, calls: seq<Call>): States {
    if calls == [] then map[]
    else Evaluated(limit, StatesAfter(limit, calls[..|calls| - 1]), calls[|calls| - 1]).0
  }

  // The result of the last call of a log.
  ghost function LastResult(limit: nat, calls: seq<Call>): Result<Value, IntrinsicError>
    requires calls != []
  {
    Evaluated(limit, StatesAfter(limit, calls[..|calls| - 1]), calls[|calls| - 1]).1
  }

  // Makes the calls one after the other, each in a context of its own bar.
  method EvaluateAll(limit: nat, calls: seq<Call>) returns (states: States, results: seq<Result<Value, IntrinsicError>>)
    ensures states == StatesAfter(limit, calls)
    ensures |results| == |calls|
    ensures forall i: nat :: i < |calls| ==> results[i] == LastResult(limit, calls[..i + 1])
  {
    hide Evaluated;
    states, results := map[], [];
    for i := 0 to |calls|
      invariant states == StatesAfter(limit, calls[..i])
      invariant |results| == i
      invariant forall k: nat :: k < i ==> results[k] == LastResult(limit, calls[..k + 1])
    {
      assert calls[..i + 1][..i] == calls[..i];
      var call := calls[i];
      var context := new EvalContext(limit, call.fixedWindow, call.bar, states);
      var result := context.Evaluate(call.site, call.builtin, call.args);
      states := context.states;
      results := results + [result];
    }
    assert calls[..|calls|] == calls;
  }

  // ---------------------------------------------------------------------
  // The calls that a site hears
  // ---------------------------------------------------------------------

  predicate Fits(limit: nat, call: Call) { Retained(limit, call).Ok? }

  // The builtin a site belongs to: that of its first call with good arguments.
  function Home(limit: nat, calls: seq<Call>, site: CallSiteId): Option<Builtin> {
    if calls == [] then None
    else
      var (before, last) := (Home(limit, calls[..|calls| - 1], site), calls[|calls| - 1]);
      if before.Some? then before
      else if last.site == site && Fits(limit, last) then Some(last.builtin)
      else None
  }

  // The calls that move the state of a site: those of its builtin, with good arguments.
  function Heard(limit: nat, calls: seq<Call>, site: CallSiteId): (own: seq<Call>)
    ensures forall i: nat :: i < |own| ==> Fits(limit, own[i])
    ensures own == [] <==> Home(limit, calls, site) == None
    ensures forall i: nat :: i < |own| ==> Home(limit, calls, site) == Some(own[i].builtin)
  {
    if calls == [] then []
    else
      var (before, last) := (Heard(limit, calls[..|calls| - 1], site), calls[|calls| - 1]);
      if last.site == site && Fits(limit, last) && Home(limit, calls, site) == Some(last.builtin) then before + [last]
      else before
  }

  ghost predicate AllFit(limit: nat, own: seq<Call>) { forall i: nat :: i < |own| ==> Fits(limit, own[i]) }

  function FeedOf(limit: nat, call: Call): (r: Feed<real>)
    requires Fits(limit, call)
    ensures r.length > 0
  {
    Feed(Source(call.args), Retained(limit, call).value)
  }

  // The samples and lengths of the calls.
  ghost function Feeds(limit: nat, own: seq<Call>): (r: seq<Feed<real>>)
    requires AllFit(limit, own)
    ensures |r| == |own| && Positive(r)
    ensures forall i: nat :: i < |r| ==> r[i] == FeedOf(limit, own[i])
  {
    seq(|own|, i requires 0 <= i < |own| => FeedOf(limit, own[i]))
  }

  ghost function BarFeeds(limit: nat, own: seq<Call>): (r: seq<Feed<Bar>>)
    requires AllFit(limit, own)
    ensures |r| == |own|
    ensures forall i: nat :: i < |r| ==>
              r[i] == Feed(StampSample(Source(own[i].args), own[i].bar), Retained(limit, own[i]).value)
  {
    seq(|own|, i requires 0 <= i < |own| => Feed(StampSample(Source(own[i].args), own[i].bar), Retained(limit, own[i]).value))
  }

  // The state of a site, as a function of the calls it heard.
  ghost function StateFor(limit: nat, builtin: Builtin, own: seq<Call>): IntrinsicState
    requires AllFit(limit, own)
  {
    match builtin
    case Rolls(owner) => Rolling(owner, Run(Feeds(limit, own)))
    case BarsSince(maximum) => ExtremeBars(maximum, Run(BarFeeds(limit, own)))
    case RelativeStrength => RsiState(Rsi.RunState(Feeds(limit, own)))
  }

  // What the last of the calls a site heard reports.
  ghost function ReportFor(limit: nat, own: seq<Call>): Result<Value, IntrinsicError>
    requires AllFit(limit, own) && own != []
  {
    var last := own[|own| - 1];
    match last.builtin
    case Rolls(owner) => Ok(FloatValue(Reading(limit, last, Run(Feeds(limit, own)))))
    case BarsSince(maximum) =>
      Ok(OffsetValue(BarsOutput(maximum, Run(BarFeeds(limit, own)), Retained(limit, last).value, last.bar)))
    case RelativeStrength => OutcomeResult(Rsi.RunOutcome(Feeds(limit, own)))
  }

  // ---------------------------------------------------------------------
  // Every state and result, from the calls at its own site
  // ---------------------------------------------------------------------

  lemma UnusedStateIsEmpty(limit: nat, builtin: Builtin)
    ensures StateFor(limit, builtin, []) == Unused(builtin)
  {
  }

  lemma FeedsWithLast(limit: nat, own: seq<Call>, last: Call)
    requires AllFit(limit, own) && Fits(limit, last)
    ensures AllFit(limit, own + [last])
    ensures Feeds(limit, own + [last]) == Feeds(limit, own) + [FeedOf(limit, last)]
    ensures BarFeeds(limit, own + [last])
         == BarFeeds(limit, own) + [Feed(StampSample(Source(last.args), last.bar), Retained(limit, last).value)]
  {
    hide Fits, Retained, Source, StampSample, FeedOf;
    var all := own + [last];
    assert AllFit(limit, all);
    assert Feeds(limit, all) == Feeds(limit, own) + [FeedOf(limit, last)];
  }

  // A call that is heard takes the state, and reports, as the run of its site does.
  lemma {:induction false} HeardCallAdvances(limit: nat, own: seq<Call>, last: Call)
    requires AllFit(limit, own) && Fits(limit, last)
    ensures AllFit(limit, own + [last])
    ensures var state := StateFor(limit, last.builtin, own);
            && Belongs(state, last.builtin)
            && Advanced(limit, state, last)
               == (StateFor(limit, last.builtin, own + [last]), ReportFor(limit, own + [last]))
  {
    hide Last, Reading, BarsOutput, Rsi.Step, StampSample, Source, Retained, Fits, OutcomeResult, OffsetValue, FeedOf;
    FeedsWithLast(limit, own, last);
    var feeds := Feeds(limit, own + [last]);
    assert feeds[..|feeds| - 1] == Feeds(limit, own);
    var bars := BarFeeds(limit, own + [last]);
    assert bars[..|bars| - 1] == BarFeeds(limit, own);
    assert feeds[|own|] == FeedOf(limit, last);
    FeedParts(limit, last);
  }

  lemma FeedParts(limit: nat, call: Call)
    requires Fits(limit, call)
    ensures Retained(limit, call).Ok? && FeedOf(limit, call) == Feed(Source(call.args), Retained(limit, call).value)
  {
  }

  lemma ForeignDoesNotBelong(limit: nat, home: Builtin, own: seq<Call>, builtin: Builtin)
    requires AllFit(limit, own)
    ensures Belongs(StateFor(limit, home, own), builtin) <==> home == builtin
  {
  }

  // Whatever runs or fails at other sites, the state of a site is the run of
  // the calls that it heard.
  lemma {:induction false} SiteState(limit: nat, calls: seq<Call>, site: CallSiteId)
    ensures StateAt(StatesAfter(limit, calls), site)
         == match Home(limit, calls, site)
            case None => None
            case Some(builtin) => Some(StateFor(limit, builtin, Heard(limit, calls, site)))
    decreases |calls|
  {
    if calls != [] {
      var (front, last) := (calls[..|calls| - 1], calls[|calls| - 1]);
      SiteState(limit, front, site);
      hide StateFor, Advanced, Retained, Belongs, Unused, ReportFor, Heard, Home;
      NextHeard(limit, calls, site);
      if last.site == site {
        SiteMoves(limit, front, last, StateAt(StatesAfter(limit, front), site));
      }
    }
  }

  // How the calls that a site hears grow with one more call.
  lemma NextHeard(limit: nat, calls: seq<Call>, site: CallSiteId)
    requires calls != []
    ensures var (front, last) := (calls[..|calls| - 1], calls[|calls| - 1]);
            var (home, heard) := (Home(limit, front, site), Heard(limit, front, site));
            if last.site == site && Fits(limit, last) && home in {None, Some(last.builtin)}
            then Home(limit, calls, site) == Some(last.builtin) && Heard(limit, calls, site) == heard + [last]
            else Home(limit, calls, site) == home && Heard(limit, calls, site) == heard
  {
    hide Fits;
  }

  // One step at a site, from the calls it heard before.
  lemma SiteMoves(limit: nat, front: seq<Call>, last: Call, state: Option<IntrinsicState>)
    requires state == match Home(limit, front, last.site)
                      case None => None
                      case Some(builtin) => Some(StateFor(limit, builtin, Heard(limit, front, last.site)))
    ensures var (home, heard) := (Home(limit, front, last.site), Heard(limit, front, last.site));
            && SiteStep(limit, state, last)
               == (if !Fits(limit, last) then (state, Err(Retained(limit, last).error))
                   else if home in {None, Some(last.builtin)}
                   then (Some(StateFor(limit, last.builtin, heard + [last])), ReportFor(limit, heard + [last]))
                   else (state, Err(InvalidState(Foreign(last.builtin, state.value)))))
  {
    hide StateFor, Advanced, Retained, Belongs, Unused, ReportFor, Home, Heard, Foreign;
    FitsParts(limit, last);
    var (home, heard) := (Home(limit, front, last.site), Heard(limit, front, last.site));
    UnusedStateIsEmpty(limit, last.builtin);
    if Fits(limit, last) {
      HeardCallAdvances(limit, heard, last);
      if home.Some? {
        ForeignDoesNotBelong(limit, home.value, heard, last.builtin);
      }
    }
  }

  lemma FitsParts(limit: nat, call: Call)
    ensures Fits(limit, call) <==> Retained(limit, call).Ok?
  {
  }

  // The result of every call, from the calls at its own site: what is wrong
  // with its arguments, that the site belongs to another builtin, or what its
  // builtin makes of the calls heard there.
  lemma {:induction false} ResultIsOwn(limit: nat, calls: seq<Call>)
    requires calls != []
    ensures var (front, last) := (calls[..|calls| - 1], calls[|calls| - 1]);
            var (home, heard) := (Home(limit, front, last.site), Heard(limit, front, last.site));
            LastResult(limit, calls)
            == (if !Fits(limit, last) then Err(Retained(limit, last).error)
                else if home in {None, Some(last.builtin)} then ReportFor(limit, heard + [last])
                else Err(InvalidState(Foreign(last.builtin, StateFor(limit, home.value, heard)))))
  {
    hide StateFor, Advanced, Retained, Belongs, Unused, ReportFor, Home, Heard, Foreign, SiteStep;
    var (front, last) := (calls[..|calls| - 1], calls[|calls| - 1]);
    SiteState(limit, front, last.site);
    SiteMoves(limit, front, last, StateAt(StatesAfter(limit, front), last.site));
  }

  // ---------------------------------------------------------------------
  // What the builtins promise of whole logs
  // ---------------------------------------------------------------------

  // The last call is of its site's builtin, and its arguments are good: it is
  // the last of the calls that its site hears.
  ghost predicate IsHeard(limit: nat, calls: seq<Call>, own: seq<Call>) {
    && calls != [] && own != [] && own[|own| - 1] == calls[|calls| - 1]
    && own == Heard(limit, calls, calls[|calls| - 1].site)
    && own[..|own| - 1] == Heard(limit, calls[..|calls| - 1], calls[|calls| - 1].site)
  }

  // Exactly the calls that neither fail on their arguments nor find their site
  // taken by another builtin.
  lemma CallIsHeard(limit: nat, calls: seq<Call>)
    requires calls != []
    ensures var (front, last) := (calls[..|calls| - 1], calls[|calls| - 1]);
            IsHeard(limit, calls, Heard(limit, calls, last.site))
            <==> (Fits(limit, last) && Home(limit, front, last.site) in {None, Some(last.builtin)})
  {
    hide Fits, Heard, Home;
    NextHeard(limit, calls, calls[|calls| - 1].site);
  }

  lemma HeardReports(limit: nat, calls: seq<Call>, own: seq<Call>)
    requires IsHeard(limit, calls, own)
    ensures AllFit(limit, own)
    ensures LastResult(limit, calls) == ReportFor(limit, own)
  {
    hide LastResult, ReportFor, StateFor, Foreign, Retained;
    var (front, last) := (calls[..|calls| - 1], calls[|calls| - 1]);
    ResultIsOwn(limit, calls);
    assert Fits(limit, own[|own| - 1]);
    NextHeard(limit, calls, last.site);
    assert own == own[..|own| - 1] + [last];
  }

  // The samples that the calls at a site brought.
  ghost function Sources(own: seq<Call>): (r: seq<Sample>)
    ensures |r| == |own|
    ensures forall i: nat :: i < |r| ==> r[i] == Source(own[i].args)
  {
    seq(|own|, i requires 0 <= i < |own| => Source(own[i].args))
  }

  lemma SourcesAreSamples(limit: nat, own: seq<Call>)
    requires AllFit(limit, own)
    ensures Samples(Feeds(limit, own)) == Sources(own)
  {
    SamplesOf(Feeds(limit, own), Sources(own));
  }

  // In every log, a mean, extreme or deviation is that of the last samples its
  // site heard, and missing when they are too few or have a gap, or when a
  // recent call there kept fewer.
  lemma WindowCallIsPromised(limit: nat, calls: seq<Call>, own: seq<Call>)
    requires IsHeard(limit, calls, own)
    requires calls[|calls| - 1].builtin.Rolls? && !calls[|calls| - 1].builtin.owner.Pivot?
    ensures AllFit(limit, own)
    ensures var (last, feeds) := (calls[|calls| - 1], Feeds(limit, own));
            var length := Retained(limit, last).value;
            LastResult(limit, calls)
            == Ok(FloatValue(if NoneTooShort(feeds, length) then Promised(StatisticOf(last.builtin.owner), Sources(own), length) else None))
  {
    hide LastResult, Run, Samples, Heard, Promised, Retained, NoneTooShort;
    HeardReports(limit, calls, own);
    SourcesAreSamples(limit, own);
    var last := calls[|calls| - 1];
    FeedParts(limit, last);
    assert Fits(limit, own[|own| - 1]);
    VaryingOutput(StatisticOf(last.builtin.owner), Feeds(limit, own));
  }

  // How many samples a pivot call needs.
  function LegsOf(limit: nat, call: Call): (r: nat)
    requires Fits(limit, call) && IsPivot(call)
    ensures r <= FeedOf(limit, call).length
    ensures call.fixedWindow ==> r == FeedOf(limit, call).length
  {
    var (left, right) := PivotLegs(limit, call.args).value;
    left + right + 1
  }

  predicate IsPivot(call: Call) { call.builtin.Rolls? && call.builtin.owner.Pivot? }

  // In every log, whichever of its calls have a fixed window, a pivot is the
  // one of all the samples its site heard, exactly while no recent call there
  // kept too few for its legs; otherwise it is missing.
  lemma PivotCallIsPromised(limit: nat, calls: seq<Call>, own: seq<Call>)
    requires IsHeard(limit, calls, own) && IsPivot(calls[|calls| - 1])
    ensures AllFit(limit, own) && Fits(limit, calls[|calls| - 1])
    ensures var last := calls[|calls| - 1];
            var (left, right) := PivotLegs(limit, last.args).value;
            LastResult(limit, calls)
            == Ok(FloatValue(
                 if NoneTooShort(Feeds(limit, own), LegsOf(limit, last))
                 then PromisedPivot(last.builtin.owner.maximum, Sources(own), left, right) else None))
  {
    hide LastResult, Run, Samples, Heard, PromisedPivot, PivotOutput, NoneTooShort, PivotLegs;
    HeardReports(limit, calls, own);
    SourcesAreSamples(limit, own);
    var last := calls[|calls| - 1];
    assert Fits(limit, own[|own| - 1]);
    var (left, right) := PivotLegs(limit, last.args).value;
    PivotIsPromised(last.builtin.owner.maximum, Feeds(limit, own), left, right);
  }

  // A fixed window is one whose legs never change: what the runtime makes sure
  // of by setting the flag for fixed expressions only.
  ghost predicate FixedLegsStay(limit: nat, own: seq<Call>) {
    forall i: nat, j: nat :: i < |own| && j < |own| ==> FixedLegsAgree(limit, own[i], own[j])
  }

  predicate FixedLegsAgree(limit: nat, fixed: Call, other: Call) {
    fixed.fixedWindow && Fits(limit, fixed) && Fits(limit, other) && IsPivot(fixed) && IsPivot(other) ==>
      LegsOf(limit, fixed) == LegsOf(limit, other)
  }

  // Then no pivot is ever missed, whatever other calls retain.
  lemma FixedLegsMissNoPivot(limit: nat, calls: seq<Call>, own: seq<Call>)
    requires IsHeard(limit, calls, own) && IsPivot(calls[|calls| - 1]) && FixedLegsStay(limit, own)
    ensures Fits(limit, calls[|calls| - 1])
    ensures var last := calls[|calls| - 1];
            var (left, right) := PivotLegs(limit, last.args).value;
            LastResult(limit, calls) == Ok(FloatValue(PromisedPivot(last.builtin.owner.maximum, Sources(own), left, right)))
  {
    hide LastResult, Heard, PromisedPivot, PivotLegs;
    PivotCallIsPromised(limit, calls, own);
    AllOfOneBuiltin(limit, calls, own);
    var (last, feeds) := (calls[|calls| - 1], Feeds(limit, own));
    forall k | 0 <= k < |feeds| ensures feeds[k].length >= LegsOf(limit, last) {
      assert Fits(limit, own[k]) && Fits(limit, own[|own| - 1]);
      assert FixedLegsAgree(limit, own[k], own[|own| - 1]);
      if !own[k].fixedWindow {
        GeneralWindowIsLongest(limit, own[k], last);
      }
    }
  }

  lemma GeneralWindowIsLongest(limit: nat, general: Call, call: Call)
    requires Fits(limit, general) && IsPivot(general) && !general.fixedWindow
    requires Fits(limit, call) && IsPivot(call)
    ensures LegsOf(limit, call) <= FeedOf(limit, general).length
  {
  }

  // All calls heard are of the last one's builtin.
  lemma AllOfOneBuiltin(limit: nat, calls: seq<Call>, own: seq<Call>)
    requires IsHeard(limit, calls, own)
    ensures forall i: nat :: i < |own| ==> own[i].builtin == calls[|calls| - 1].builtin
  {
    hide Heard;
    assert own[|own| - 1].builtin == calls[|calls| - 1].builtin;
  }

  // In every log, on consecutive bars, the offset points to the oldest bar that
  // attains what `ta.highest` or `ta.lowest` gives on the same samples.
  lemma BarsCallFindsExtreme(limit: nat, calls: seq<Call>, own: seq<Call>, first: nat)
    requires IsHeard(limit, calls, own)
    requires calls[|calls| - 1].builtin.BarsSince?
    requires forall i: nat :: i < |own| ==> own[i].bar == first + i
    ensures AllFit(limit, own)
    ensures var (maximum, window) := (calls[|calls| - 1].builtin.maximum, Run(Feeds(limit, own)));
            var length := Retained(limit, calls[|calls| - 1]).value;
            var extreme := WindowOutput(if maximum then Highest else Lowest, window, length);
            exists offset: Option<int> ::
              && LastResult(limit, calls) == Ok(OffsetValue(offset))
              && (offset.Some? <==> extreme.Some?)
              && (offset.Some? ==>
                    && 0 <= offset.value < length == |window|
                    && window[length - 1 - offset.value] == extreme
                    && forall i :: 0 <= i < length - 1 - offset.value ==> window[i] != extreme)
  {
    hide LastResult, Run, Heard, Retained, WindowOutput, BarsOutput, OffsetValue, Stamp;
    HeardReports(limit, calls, own);
    var last := calls[|calls| - 1];
    assert Fits(limit, own[|own| - 1]);
    FeedParts(limit, last);
    BarsAreStamped(limit, own, first);
    OffsetFindsExtreme(last.builtin.maximum, Feeds(limit, own), first);
  }

  lemma BarsAreStamped(limit: nat, own: seq<Call>, first: nat)
    requires AllFit(limit, own)
    requires forall i: nat :: i < |own| ==> own[i].bar == first + i
    ensures BarFeeds(limit, own) == Stamp(Feeds(limit, own), first)
  {
    hide Source, StampSample, Retained;
    forall i: nat | i < |own| ensures BarFeeds(limit, own)[i] == Stamp(Feeds(limit, own), first)[i] {
      FeedParts(limit, own[i]);
      assert Feeds(limit, own)[i] == FeedOf(limit, own[i]);
    }
  }

  // In every log the relative strength index stays in its range and its state
  // is never incomplete, and for one length it is Wilder's index of all the
  // samples its site heard.
  lemma RsiCallIsWilder(limit: nat, calls: seq<Call>, own: seq<Call>)
    requires IsHeard(limit, calls, own)
    requires calls[|calls| - 1].builtin.RelativeStrength?
    ensures AllFit(limit, own)
    ensures exists index: Sample ::
      && LastResult(limit, calls) == Ok(FloatValue(index))
      && (index.Some? ==> 0.0 <= index.value <= 100.0)
    ensures var length := Retained(limit, calls[|calls| - 1]).value;
            (forall i: nat :: i < |own| ==> Retained(limit, own[i]).value == length) ==>
              LastResult(limit, calls) == Ok(FloatValue(Rsi.Promised(Sources(own), length)))
  {
    hide LastResult, Heard, Retained, Rsi.Promised, Rsi.RunOutcome, Rsi.RunState, Samples, FloatValue;
    HeardReports(limit, calls, own);
    SourcesAreSamples(limit, own);
    var (last, feeds) := (calls[|calls| - 1], Feeds(limit, own));
    Rsi.RunStaysInRange(feeds);
    assert OutcomeResult(Rsi.RunOutcome(feeds)) == Ok(FloatValue(Rsi.RunOutcome(feeds).value));
    assert Fits(limit, own[|own| - 1]);
    FeedParts(limit, last);
    var length := Retained(limit, last).value;
    if forall i: nat :: i < |own| ==> Retained(limit, own[i]).value == length {
      forall i: nat | i < |feeds| ensures feeds[i].length == length {
        FeedParts(limit, own[i]);
      }
      Rsi.RunIsWilder(feeds, length);
    }
  }
}
